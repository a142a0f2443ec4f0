// The data migration that repairs users whose username is empty or NULL:
// each gets its e-mail address, or the placeholder user_<id> when it has
// none. The reverse step does nothing.

module UsernameMigration {
  import opened Common

  /** A CustomUser row as the migration sees it; NULL columns are None. */
  datatype User = User(id: nat, username: Option<string>, email: Option<string>)

  /** Q(username='') | Q(username__isnull=True) */
  predicate Selected(u: User)
  {
    u.username == None || u.username == Some("")
  }

  /** `if user.email:` a non-NULL, non-empty address. */
  predicate HasEmail(u: User)
  {
    u.email.Some? && u.email.value != ""
  }

  /** The username the loop gives a selected user. */
  function NewUsername(u: User): string
  {
    if HasEmail(u) then u.email.value else "user_" + IntToString(u.id)
  }

  /** One user after the migration. */
  function Fix(u: User): User
  {
    if Selected(u) then u.(username := Some(NewUsername(u))) else u
  }

  /** The table after the migration. */
  function FixAll(users: seq<User>): (r: seq<User>)
    ensures |r| == |users| && forall i :: 0 <= i < |users| ==> r[i] == Fix(users[i])
    decreases |users|
  {
    if users == [] then [] else FixAll(users[..|users| - 1]) + [Fix(users[|users| - 1])]
  }

  /** How many users the filter selects. */
  function SelectedCount(users: seq<User>): nat
    decreases |users|
  {
    if users == [] then 0 else SelectedCount(users[..|users| - 1]) + (if Selected(users[|users| - 1]) then 1 else 0)
  }

  /** The placeholder is never empty, so a repaired username is never empty. */
  lemma NewUsernameNonEmpty(u: User)
    ensures NewUsername(u) != ""
  {
    if !HasEmail(u) {
      assert ("user_" + IntToString(u.id))[0] == 'u';
    }
  }

  /** Afterwards no user has an empty or NULL username. */
  lemma NoEmptyUsernameAfter(users: seq<User>)
    ensures forall i :: 0 <= i < |users| ==> !Selected(FixAll(users)[i])
  {
    forall i | 0 <= i < |users| ensures !Selected(FixAll(users)[i]) {
      NewUsernameNonEmpty(users[i]);
    }
  }

  /** A selected user takes the e-mail address when there is one, and user_<id> otherwise; nothing else about the user changes. */
  lemma RepairedUsername(u: User)
    requires Selected(u)
    ensures HasEmail(u) ==> Fix(u).username == u.email
    ensures !HasEmail(u) ==> Fix(u).username == Some("user_" + IntToString(u.id))
    ensures Fix(u).id == u.id && Fix(u).email == u.email
  {
  }

  /** Users with a username are left as they were, and running the migration again changes nothing. */
  lemma OthersUntouched(users: seq<User>)
    ensures forall i :: 0 <= i < |users| && !Selected(users[i]) ==> FixAll(users)[i] == users[i]
    ensures FixAll(FixAll(users)) == FixAll(users)
  {
    NoEmptyUsernameAfter(users);
  }

  /** Two users without an e-mail get different placeholders when their ids differ. */
  lemma PlaceholdersDistinct(u: User, v: User)
    requires Selected(u) && Selected(v) && !HasEmail(u) && !HasEmail(v) && u.id != v.id
    ensures Fix(u).username != Fix(v).username
  {
    PlaceholderInjective(u.id, v.id);
  }

  /** Different ids render differently. */
  lemma PlaceholderInjective(a: nat, b: nat)
    requires a != b
    ensures "user_" + IntToString(a) != "user_" + IntToString(b)
  {
    NatToStringValue(a);
    NatToStringValue(b);
    assert IntToString(a) == ("user_" + IntToString(a))[5..];
    assert IntToString(b) == ("user_" + IntToString(b))[5..];
  }

  /** The CustomUser table the migration runs against. */
  class UserTable {
    var users: seq<User>

    constructor (users: seq<User>)
      ensures this.users == users
    {
      this.users := users;
    }

    /** fix_empty_usernames: returns the count it reports, and saves each repaired username. */
    method FixEmptyUsernames() returns (found: nat)
      modifies this
      ensures users == FixAll(old(users))
      ensures found == SelectedCount(old(users))
    {
      found := SelectedCountOf(users);
      ghost var before := users;
      var j := 0;
      while j < |users|
        invariant 0 <= j <= |users| && |users| == |before|
        invariant forall i :: 0 <= i < j ==> users[i] == Fix(before[i])
        invariant forall i :: j <= i < |users| ==> users[i] == before[i]
      {
        var u := users[j];
        if HasEmail(u) && Selected(u) {
          users := users[j := u.(username := u.email)];
        } else if Selected(u) {
          users := users[j := u.(username := Some("user_" + IntToString(u.id)))];
        }
        assert users[j] == Fix(before[j]);
        j := j + 1;
      }
      assert users == FixAll(before);
    }

    /** reverse_fix_empty_usernames: nothing is undone. */
    method ReverseFixEmptyUsernames()
      modifies this
      ensures users == old(users)
    {
    }
  }

  /** The count the migration reports, by a loop over the queryset. */
  method SelectedCountOf(users: seq<User>) returns (n: nat)
    ensures n == SelectedCount(users)
  {
    n := 0;
    var j := 0;
    while j < |users|
      invariant 0 <= j <= |users| && n == SelectedCount(users[..j])
    {
      assert users[..j + 1][..j] == users[..j];
      if Selected(users[j]) {
        n := n + 1;
      }
      j := j + 1;
    }
    assert users[..j] == users;
  }
}
