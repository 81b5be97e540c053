/** The session (contexts/AuthContext.tsx): the signed-in user, chosen among
    the accounts that share the credentials by the role picked on the login screen. */
module AuthContext {
  import opened Types
  import opened Lists
  import MockApi

  function HasRole(role: Role): User -> bool {
    (u: User) => u.role == role
  }

  /** The user a login picks: the first credential match with the requested role. */
  function PickForRole(matches: seq<User>, role: Role): Option<User> {
    Find(HasRole(role), matches)
  }

  /** A login succeeds exactly when some stored user has the email, the
      password and the role, and then it picks such a user; among several
      accounts sharing the credentials, the role decides. */
  lemma LoginPicksMatchingAccount(db: MockApi.Db, email: string, password: string, role: Role)
    ensures var pick := PickForRole(db.Authenticate(email, password), role);
      && (pick.None? <==> forall u :: u in db.users ==> !(u.email == email && u.password == Some(password) && u.role == role))
      && (pick.Some? ==> pick.value in db.users && pick.value.email == email
                         && pick.value.password == Some(password) && pick.value.role == role)
  {
    var matches := db.Authenticate(email, password);
    var pick := PickForRole(matches, role);
    if pick.None? {
      forall u | u in db.users && u.email == email && u.password == Some(password)
        ensures u.role != role
      {
        assert u in matches;
      }
    }
  }

  class Session {
    var user: Option<User>
    var isAuthenticated: bool
    var loading: bool

    /** Signed in exactly when a user is held. */
    ghost predicate Valid()
      reads this
    {
      isAuthenticated <==> user.Some?
    }

    constructor ()
      ensures Valid()
      ensures user == None && !isAuthenticated && loading
    {
      user := None;
      isAuthenticated := false;
      loading := true;
    }

    /** The mount effect: loading ends. */
    method Mount()
      requires Valid()
      modifies this
      ensures Valid()
      ensures !loading && user == old(user) && isAuthenticated == old(isAuthenticated)
    {
      loading := false;
    }

    /** `login`: signs in the first credential match with the role; fails,
        changing nothing, when none has it. */
    method Login(api: MockApi.Db, email: string, password: string, role: Role) returns (ok: bool)
      requires Valid()
      modifies this
      ensures Valid()
      ensures var pick := PickForRole(api.Authenticate(email, password), role);
        && (ok <==> pick.Some?)
        && (ok ==> user == pick && isAuthenticated)
        && (!ok ==> user == old(user) && isAuthenticated == old(isAuthenticated))
      ensures loading == old(loading)
    {
      var matchingUsers := api.Authenticate(email, password);
      var userForRole := PickForRole(matchingUsers, role);
      if userForRole.Some? {
        user := userForRole;
        isAuthenticated := true;
        ok := true;
      } else {
        ok := false;
      }
    }

    /** `logout`: no user, not signed in. */
    method Logout()
      requires Valid()
      modifies this
      ensures Valid()
      ensures user == None && !isAuthenticated && loading == old(loading)
    {
      user := None;
      isAuthenticated := false;
    }
  }
}
