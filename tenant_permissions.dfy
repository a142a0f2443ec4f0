// The tenant-isolation rules of backend/core/tenant_permissions.py: the
// permission predicates, the queryset filter of TenantIsolationMixin and its
// perform_create / perform_update / perform_destroy over a table of
// school-owned records.

module TenantPermissions {
  import opened Common
  import opened Json

  /** The request's user as the permission classes read it. */
  datatype User = User(authenticated: bool, isSuperuser: bool, isStaff: bool, school: Option<nat>, isTeacher: bool)

  /** An object's `school`: absent as an attribute, or a possibly null foreign key. */
  datatype Owner = NoSchoolField | SchoolField(school: Option<nat>)

  // ---------------------------------------------------------------------------
  // Permission classes

  /** IsTenantMember.has_permission */
  predicate TenantMember(u: User)
  {
    u.authenticated && (u.isSuperuser || u.school.Some?)
  }

  /** IsTenantMember.has_object_permission: an object without a school field is denied. */
  predicate TenantMemberObject(u: User, obj: Owner)
  {
    u.isSuperuser || (obj.SchoolField? && obj.school == u.school)
  }

  /** IsTeacherOfSchool.has_permission: a teacher profile and a school. */
  predicate TeacherOfSchool(u: User)
  {
    u.authenticated && (u.isSuperuser || (u.isTeacher && u.school.Some?))
  }

  /** IsAdminOfSchool.has_permission: staff or superuser, whatever the school. */
  predicate AdminOfSchool(u: User)
  {
    u.authenticated && (u.isStaff || u.isSuperuser)
  }

  /** TenantFilterPermission.has_permission */
  predicate TenantFilter(u: User)
  {
    u.authenticated
  }

  /** TenantSyncPermission.has_permission */
  predicate SyncPermission(u: User)
  {
    u.authenticated && (u.isSuperuser || u.school.Some?)
  }

  const InvalidIntLiteral: string := "invalid literal for int() with base 10: "

  /**
   * Python's int() of a request value, or the error it raises. A refused text
   * is shown by its repr(), cut to 200 characters.
   */
  function IntOf(v: Value): (r: Result<int, string>)
    ensures v.JInt? ==> r == Ok(v.i)
    ensures r.Ok? <==> PyInt(v).Some?
    ensures r.Ok? ==> PyInt(v) == Some(r.value)
  {
    match PyInt(v)
    case Some(n) => Ok(n)
    case None =>
      if v.JStr? then Err(InvalidIntLiteral + Take(StrRepr(v.s), 200))
      else Err("int() argument must be a string, a bytes-like object or a real number, not '" + TypeName(v) + "'")
  }

  /**
   * TenantSyncPermission.has_object_permission: a truthy school_id in the
   * request data is compared, as an int, with the user's school; without one
   * the object's school decides.
   */
  function SyncObjectPermission(u: User, data: Value, obj: Owner): (r: Result<bool, string>)
    ensures u.isSuperuser ==> r == Ok(true)
    ensures !u.isSuperuser && data.JObj? && "school_id" in data.fields && data.fields["school_id"].JInt? && data.fields["school_id"].i != 0 ==>
      r == Ok(u.school == Some(data.fields["school_id"].i))
    ensures !u.isSuperuser && data.JObj? && ("school_id" !in data.fields || !Truthy(data.fields["school_id"])) ==>
      r == Ok(TenantMemberObject(u, obj))
    ensures !u.isSuperuser && data.JObj? && "school_id" in data.fields && Truthy(data.fields["school_id"]) ==>
      (r.Err? <==> PyInt(data.fields["school_id"]).None?)
  {
    if u.isSuperuser then Ok(true)
    else
      match Get(data, "school_id", JNull)
      case Err(e) => Err(e)
      case Ok(schoolId) =>
        if Truthy(schoolId) then
          match IntOf(schoolId)
          case Err(e) => Err(e)
          case Ok(n) => Ok(u.school == Some(n))
        else Ok(obj.SchoolField? && obj.school == u.school)
  }

  /** No class lets an unauthenticated user through. */
  lemma UnauthenticatedDenied(u: User)
    requires !u.authenticated
    ensures !TenantMember(u) && !TeacherOfSchool(u) && !AdminOfSchool(u) && !TenantFilter(u) && !SyncPermission(u)
  {
  }

  /** An authenticated superuser passes every class, for every object and any request data. */
  lemma SuperuserPasses(u: User, obj: Owner, data: Value)
    requires u.authenticated && u.isSuperuser
    ensures TenantMember(u) && TenantMemberObject(u, obj) && TeacherOfSchool(u) && AdminOfSchool(u) && SyncPermission(u)
    ensures SyncObjectPermission(u, data, obj) == Ok(true)
  {
  }

  /**
   * For an authenticated user who is not a superuser each class asks for one
   * thing: a school (tenant members and sync), a teacher profile as well
   * (teachers), the staff flag (admins, with or without a school), nothing
   * more (filtering); an object passes only with a school field equal to the
   * user's.
   */
  lemma OrdinaryUserClasses(u: User, obj: Owner)
    requires u.authenticated && !u.isSuperuser
    ensures TenantMember(u) <==> u.school.Some?
    ensures SyncPermission(u) <==> u.school.Some?
    ensures TeacherOfSchool(u) <==> u.isTeacher && u.school.Some?
    ensures AdminOfSchool(u) <==> u.isStaff
    ensures TenantFilter(u)
    ensures TenantMemberObject(u, obj) <==> obj.SchoolField? && obj.school == u.school
  {
  }

  /** Every teacher of a school is a tenant member, and so may sync. */
  lemma TeacherIsMember(u: User)
    requires TeacherOfSchool(u)
    ensures TenantMember(u) && SyncPermission(u) && TenantFilter(u)
  {
  }

  /** Without a school_id in the data the sync check is the tenant check. */
  lemma SyncFallsBackToTenantCheck(u: User, obj: Owner, fields: map<string, Value>)
    requires "school_id" !in fields
    ensures SyncObjectPermission(u, JObj(fields), obj) == Ok(TenantMemberObject(u, obj))
  {
  }

  /**
   * A refused text of printable ASCII without backslashes is shown in single
   * quotes, or in double quotes when it holds a single quote and no double
   * one; the message keeps the first 200 characters of that.
   */
  lemma IntOfRefusedQuoting(x: string)
    requires forall i :: 0 <= i < |x| ==> ' ' <= x[i] <= '~' && x[i] != '\\'
    requires PyInt(JStr(x)).None?
    ensures '\'' !in x ==> IntOf(JStr(x)) == Err(InvalidIntLiteral + Take("'" + x + "'", 200))
    ensures '\'' in x && '"' !in x ==> IntOf(JStr(x)) == Err(InvalidIntLiteral + Take("\"" + x + "\"", 200))
  {
    if '\'' !in x {
      PlainEscapedIn(x, '\'');
    } else if '"' !in x {
      PlainEscapedIn(x, '"');
    }
  }

  /** A school_id text without digits, such as "x", is not a denial but an error. */
  lemma SyncBadSchoolIdRaises(u: User, obj: Owner, x: string)
    requires !u.isSuperuser
    requires x != [] && !IsPySpace(x[0]) && !IsPySpace(x[|x| - 1])
    requires forall i :: 0 <= i < |x| ==> !IsDigit(x[i])
    ensures SyncObjectPermission(u, JObj(map["school_id" := JStr(x)]), obj).Err?
  {
    StripUnspaced(x);
    assert !IsIntLiteral(x) by {
      if |x| > 1 {
        assert !IsDigit(x[1]);
      }
    }
  }

  // ---------------------------------------------------------------------------
  // TenantIsolationMixin

  /** A school-owned record: its school and the rest of its saved fields. */
  datatype TenantRecord = TenantRecord(school: Option<nat>, fields: map<string, string>)

  /** get_queryset: all rows for a superuser, the rows of the user's school otherwise, none without a school. */
  function Visible(u: User, rows: seq<TenantRecord>): (r: seq<TenantRecord>)
    ensures u.isSuperuser ==> r == rows
    ensures !u.isSuperuser && u.school.None? ==> r == []
    ensures forall x :: x in r ==> x in rows
    ensures !u.isSuperuser ==> forall x :: x in r ==> x.school == u.school
    ensures !u.isSuperuser && u.school.Some? ==> forall i :: 0 <= i < |rows| && rows[i].school == u.school ==> rows[i] in r
    decreases |rows|
  {
    if u.isSuperuser then rows
    else if u.school.None? then []
    else if rows == [] then []
    else
      var rest := Visible(u, rows[..|rows| - 1]);
      assert forall x :: x in rows[..|rows| - 1] ==> x in rows;
      if rows[|rows| - 1].school == u.school then rest + [rows[|rows| - 1]] else rest
  }

  /** The list filter and the object check agree: a user with a school lists exactly the rows it may open. */
  lemma VisibleIffObjectPermission(u: User, rows: seq<TenantRecord>, i: nat)
    requires !u.isSuperuser && u.school.Some? && i < |rows|
    ensures rows[i] in Visible(u, rows) <==> TenantMemberObject(u, SchoolField(rows[i].school))
  {
  }

  /** The record tables a tenant-isolated viewset saves into. */
  class TenantTable {
    var rows: seq<TenantRecord>

    constructor ()
      ensures rows == []
    {
      rows := [];
    }

    /** perform_create: the record is saved with the user's school; a user without one is refused. */
    method PerformCreate(u: User, fields: map<string, string>) returns (r: Result<nat, string>)
      modifies this
      ensures u.school.None? ==> r == Err("User must belong to a school to create records.") && rows == old(rows)
      ensures u.school.Some? ==> r == Ok(|old(rows)|) && rows == old(rows) + [TenantRecord(u.school, fields)]
    {
      if u.school.Some? {
        r := Ok(|rows|);
        rows := rows + [TenantRecord(u.school, fields)];
      } else {
        r := Err("User must belong to a school to create records.");
      }
    }

    /** perform_update: the record takes the user's school, whichever it had, and a superuser's too. */
    method PerformUpdate(u: User, i: nat, fields: map<string, string>)
      requires i < |rows|
      modifies this
      ensures rows == old(rows)[i := TenantRecord(u.school, fields)]
    {
      rows := rows[i := TenantRecord(u.school, fields)];
    }

    /** perform_destroy: only a superuser may delete another school's record. */
    method PerformDestroy(u: User, i: nat) returns (r: Result<(), string>)
      requires i < |rows|
      modifies this
      ensures r.Err? <==> u.school != old(rows)[i].school && !u.isSuperuser
      ensures r.Err? ==> r.error == "You can only delete records from your school." && rows == old(rows)
      ensures r.Ok? ==> rows == old(rows)[..i] + old(rows)[i + 1..]
    {
      if u.school != rows[i].school && !u.isSuperuser {
        return Err("You can only delete records from your school.");
      }
      rows := rows[..i] + rows[i + 1..];
      r := Ok(());
    }
  }

  /** What perform_* keep: a record a non-superuser with a school creates or updates stays visible to that user. */
  lemma SavedRecordStaysVisible(u: User, rows: seq<TenantRecord>, fields: map<string, string>)
    requires !u.isSuperuser && u.school.Some?
    ensures TenantRecord(u.school, fields) in Visible(u, rows + [TenantRecord(u.school, fields)])
  {
    var all := rows + [TenantRecord(u.school, fields)];
    assert all[|rows|].school == u.school;
  }
}
