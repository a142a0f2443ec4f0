// The decision ladders of backend/api/auth.py: school_login, get_schools and
// switch_school over a table of users and a table of schools. Password
// checking (django.contrib.auth.authenticate) is outside the model: its answer,
// the position of the user the credentials belong to or none, is a parameter.
// Token generation is left out; a successful login reports the school and the
// user's school id it would put in the response.

module AuthApi {
  import opened Common
  import opened Json

  datatype School = School(id: nat, code: string, name: string)

  datatype UserAccount = UserAccount(id: nat, username: string, isSuperuser: bool, isStaff: bool, school: Option<nat>)

  /** The HTTP answer: an error status with its message, or 200 with the school of the response. */
  datatype Reply = Refused(status: int, error: string) | Accepted(school: School)

  /** School.objects.get(…): the first school that the lookup selects. */
  function FirstSchool(schools: seq<School>, selects: School -> bool): (r: Option<School>)
    ensures r.Some? ==> r.value in schools && selects(r.value)
    ensures r.None? ==> forall i :: 0 <= i < |schools| ==> !selects(schools[i])
    decreases |schools|
  {
    if schools == [] then None
    else if selects(schools[0]) then Some(schools[0])
    else FirstSchool(schools[1..], selects)
  }

  /** School.objects.get(code=…) */
  function SchoolByCode(schools: seq<School>, code: string): Option<School>
  {
    FirstSchool(schools, (s: School) => s.code == code)
  }

  /** School.objects.get(id=…) */
  function SchoolById(schools: seq<School>, id: int): Option<School>
  {
    FirstSchool(schools, (s: School) => s.id == id)
  }

  /** request.data.get(key) on a dict body; a body that is not a dict gives nothing. */
  function Field(data: Value, key: string): Value
  {
    if data.JObj? && key in data.fields then data.fields[key] else JNull
  }

  /**
   * school_login: the three fields first (400), then the school code (404),
   * then the credentials (401), then a user bound to another school (403);
   * a user without a school is bound to the login school.
   */
  function LoginStep(users: seq<UserAccount>, schools: seq<School>, data: Value, auth: Option<nat>): (res: (seq<UserAccount>, Reply))
    requires auth.Some? ==> auth.value < |users|
    ensures |res.0| == |users|
    ensures res.1.Refused? ==> res.0 == users
    ensures !Truthy(Field(data, "school_code")) || !Truthy(Field(data, "username")) || !Truthy(Field(data, "password")) ==>
      res.1 == Refused(400, "school_code, username, and password required")
    ensures res.1.Accepted? ==>
      auth.Some? && SchoolByCode(schools, PyStr(Field(data, "school_code"))) == Some(res.1.school) &&
      res.0 == users[auth.value := users[auth.value].(school := Some(res.1.school.id))] &&
      (users[auth.value].school.None? || users[auth.value].school == Some(res.1.school.id))
  {
    var code := Field(data, "school_code");
    if !Truthy(code) || !Truthy(Field(data, "username")) || !Truthy(Field(data, "password")) then
      (users, Refused(400, "school_code, username, and password required"))
    else
      match SchoolByCode(schools, PyStr(code))
      case None => (users, Refused(404, "School \"" + PyStr(code) + "\" not found"))
      case Some(school) =>
        if auth.None? then (users, Refused(401, "Invalid username or password"))
        else
          var u := users[auth.value];
          if u.school.Some? && u.school != Some(school.id) then
            (users, Refused(403, "This user does not belong to the selected school"))
          else
            (users[auth.value := u.(school := Some(school.id))], Accepted(school))
  }

  /** An unknown school code is answered before the credentials are looked at. */
  lemma UnknownSchoolBeforeCredentials(users: seq<UserAccount>, schools: seq<School>, data: Value, auth: Option<nat>, auth2: Option<nat>)
    requires auth.Some? ==> auth.value < |users|
    requires auth2.Some? ==> auth2.value < |users|
    requires Truthy(Field(data, "school_code")) && Truthy(Field(data, "username")) && Truthy(Field(data, "password"))
    requires SchoolByCode(schools, PyStr(Field(data, "school_code"))).None?
    ensures LoginStep(users, schools, data, auth) == LoginStep(users, schools, data, auth2)
    ensures LoginStep(users, schools, data, auth).1.Refused? && LoginStep(users, schools, data, auth).1.status == 404
  {
  }

  /** The user is bound to a school other than `school`. */
  predicate BoundElsewhere(u: UserAccount, school: School)
  {
    u.school.Some? && u.school != Some(school.id)
  }

  /** A known school with bad credentials is 401; a user of another school is 403 and left unchanged. */
  lemma CredentialsThenBinding(users: seq<UserAccount>, schools: seq<School>, data: Value, auth: Option<nat>)
    requires auth.Some? ==> auth.value < |users|
    requires Truthy(Field(data, "school_code")) && Truthy(Field(data, "username")) && Truthy(Field(data, "password"))
    requires SchoolByCode(schools, PyStr(Field(data, "school_code"))).Some?
    ensures auth.None? ==> LoginStep(users, schools, data, auth) == (users, Refused(401, "Invalid username or password"))
    ensures auth.Some? && BoundElsewhere(users[auth.value], SchoolByCode(schools, PyStr(Field(data, "school_code"))).value)
      ==> LoginStep(users, schools, data, auth) == (users, Refused(403, "This user does not belong to the selected school"))
    ensures auth.Some? && users[auth.value].school.None? ==>
      var school := SchoolByCode(schools, PyStr(Field(data, "school_code"))).value;
      LoginStep(users, schools, data, auth).1 == Accepted(school) &&
      LoginStep(users, schools, data, auth).0[auth.value].school == Some(school.id)
  {
  }

  /** A second login of the same user to the same school changes nothing more. */
  lemma LoginIdempotent(users: seq<UserAccount>, schools: seq<School>, data: Value, auth: Option<nat>)
    requires auth.Some? ==> auth.value < |users|
    requires LoginStep(users, schools, data, auth).1.Accepted?
    ensures var once := LoginStep(users, schools, data, auth);
      LoginStep(once.0, schools, data, auth) == once
  {
    var once := LoginStep(users, schools, data, auth);
    var school := once.1.school;
    var u := once.0[auth.value];
    assert u.school == Some(school.id);
    assert once.0[auth.value := u.(school := Some(school.id))] == once.0;
  }

  /** get_schools: every school for a superuser, the user's own for a user with one, else none. */
  function VisibleSchools(u: UserAccount, schools: seq<School>): (r: seq<School>)
    ensures u.isSuperuser ==> r == schools
    ensures !u.isSuperuser && u.school.None? ==> r == []
    ensures !u.isSuperuser ==> forall s :: s in r ==> s in schools && Some(s.id) == u.school
    ensures !u.isSuperuser && u.school.Some? ==> forall i :: 0 <= i < |schools| && schools[i].id == u.school.value ==> schools[i] in r
    decreases |schools|
  {
    if u.isSuperuser then schools
    else if u.school.None? || schools == [] then []
    else
      var rest := VisibleSchools(u, schools[..|schools| - 1]);
      assert forall s :: s in schools[..|schools| - 1] ==> s in schools;
      if schools[|schools| - 1].id == u.school.value then rest + [schools[|schools| - 1]] else rest
  }

  /** The ValueError the id lookup raises for a value that is not a number, which it shows as its repr. */
  function NotANumber(v: Value): string
  {
    "Field 'id' expected a number but got " + PyRepr(v) + "."
  }

  /**
   * switch_school: only staff or superusers (403); a falsy school_id is 400;
   * an id that is no school is 404; otherwise the user's school is set. An id
   * that does not convert to a number makes the lookup raise.
   */
  function SwitchStep(users: seq<UserAccount>, schools: seq<School>, who: nat, data: Value): (res: (seq<UserAccount>, Result<Reply, string>))
    requires who < |users|
    ensures |res.0| == |users|
    ensures !(res.1.Ok? && res.1.value.Accepted?) ==> res.0 == users
    ensures !users[who].isSuperuser && !users[who].isStaff ==> res.1 == Ok(Refused(403, "Only administrators can switch schools"))
    ensures (users[who].isSuperuser || users[who].isStaff) && !Truthy(Field(data, "school_id")) ==> res.1 == Ok(Refused(400, "school_id required"))
    ensures (users[who].isSuperuser || users[who].isStaff) && Truthy(Field(data, "school_id")) ==>
      (res.1.Err? <==> PyInt(Field(data, "school_id")).None?) &&
      (PyInt(Field(data, "school_id")).Some? ==>
         (res.1 == Ok(Refused(404, "School not found")) <==> SchoolById(schools, PyInt(Field(data, "school_id")).value).None?))
    ensures res.1.Ok? && res.1.value.Accepted? ==>
      (users[who].isSuperuser || users[who].isStaff) && res.1.value.school in schools &&
      res.0 == users[who := users[who].(school := Some(res.1.value.school.id))]
  {
    var u := users[who];
    if !u.isSuperuser && !u.isStaff then (users, Ok(Refused(403, "Only administrators can switch schools")))
    else
      var schoolId := Field(data, "school_id");
      if !Truthy(schoolId) then (users, Ok(Refused(400, "school_id required")))
      else
        match PyInt(schoolId)
        case None => (users, Err(NotANumber(schoolId)))
        case Some(id) =>
          match SchoolById(schools, id)
          case None => (users, Ok(Refused(404, "School not found")))
          case Some(school) => (users[who := u.(school := Some(school.id))], Ok(Accepted(school)))
  }

  /** After a switch the user sees exactly the chosen school, unless a superuser, who sees them all. */
  lemma SwitchThenVisible(users: seq<UserAccount>, schools: seq<School>, who: nat, data: Value)
    requires who < |users|
    requires forall i, j :: 0 <= i < j < |schools| ==> schools[i].id != schools[j].id
    requires var res := SwitchStep(users, schools, who, data); res.1.Ok? && res.1.value.Accepted?
    ensures var res := SwitchStep(users, schools, who, data);
      var after := res.0[who];
      after.isSuperuser || VisibleSchools(after, schools) == [res.1.value.school]
  {
    var res := SwitchStep(users, schools, who, data);
    var after := res.0[who];
    if !after.isSuperuser {
      OnlySchoolWithId(after, schools, res.1.value.school);
    }
  }

  lemma {:induction false} OnlySchoolWithId(u: UserAccount, schools: seq<School>, s: School)
    requires !u.isSuperuser && u.school == Some(s.id) && s in schools
    requires forall i, j :: 0 <= i < j < |schools| ==> schools[i].id != schools[j].id
    ensures VisibleSchools(u, schools) == [s]
    decreases |schools|
  {
    var init := schools[..|schools| - 1];
    var last := schools[|schools| - 1];
    assert schools == init + [last];
    if last == s {
      assert forall i :: 0 <= i < |init| ==> init[i].id != s.id by {
        forall i | 0 <= i < |init| ensures init[i].id != s.id {
          assert init[i] == schools[i];
        }
      }
      NoSchoolWithId(u, init);
    } else {
      assert s in init;
      assert last.id != s.id by {
        var k :| 0 <= k < |init| && init[k] == s;
        assert schools[k] == s;
      }
      OnlySchoolWithId(u, init, s);
    }
  }

  lemma {:induction false} NoSchoolWithId(u: UserAccount, schools: seq<School>)
    requires !u.isSuperuser && u.school.Some?
    requires forall i :: 0 <= i < |schools| ==> schools[i].id != u.school.value
    ensures VisibleSchools(u, schools) == []
    decreases |schools|
  {
    if schools != [] {
      NoSchoolWithId(u, schools[..|schools| - 1]);
    }
  }

  /** The user and school tables the two endpoints update. */
  class Accounts {
    var users: seq<UserAccount>
    var schools: seq<School>

    constructor (schools: seq<School>)
      ensures this.users == [] && this.schools == schools
    {
      this.users, this.schools := [], schools;
    }

    /** school_login; `auth` is authenticate's answer for the given credentials. */
    method SchoolLogin(data: Value, auth: Option<nat>) returns (reply: Reply)
      requires auth.Some? ==> auth.value < |users|
      modifies this`users
      ensures (users, reply) == LoginStep(old(users), schools, data, auth)
    {
      var code := Field(data, "school_code");
      if !Truthy(code) || !Truthy(Field(data, "username")) || !Truthy(Field(data, "password")) {
        return Refused(400, "school_code, username, and password required");
      }
      var found := SchoolByCode(schools, PyStr(code));
      if found.None? {
        return Refused(404, "School \"" + PyStr(code) + "\" not found");
      }
      if auth.None? {
        return Refused(401, "Invalid username or password");
      }
      var u := users[auth.value];
      if u.school.Some? && u.school != Some(found.value.id) {
        return Refused(403, "This user does not belong to the selected school");
      }
      if u.school.None? {
        users := users[auth.value := u.(school := Some(found.value.id))];
      } else {
        assert u.(school := Some(found.value.id)) == u;
        assert users[auth.value := u] == users;
      }
      reply := Accepted(found.value);
    }

    /** switch_school for the user at `who`. */
    method SwitchSchool(who: nat, data: Value) returns (r: Result<Reply, string>)
      requires who < |users|
      modifies this`users
      ensures (users, r) == SwitchStep(old(users), schools, who, data)
    {
      var u := users[who];
      if !u.isSuperuser && !u.isStaff {
        return Ok(Refused(403, "Only administrators can switch schools"));
      }
      var schoolId := Field(data, "school_id");
      if !Truthy(schoolId) {
        return Ok(Refused(400, "school_id required"));
      }
      var id := PyInt(schoolId);
      if id.None? {
        return Err(NotANumber(schoolId));
      }
      var found := SchoolById(schools, id.value);
      if found.None? {
        return Ok(Refused(404, "School not found"));
      }
      users := users[who := u.(school := Some(found.value.id))];
      r := Ok(Accepted(found.value));
    }
  }
}
