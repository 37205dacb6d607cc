/** The `useAuth` hook: a role guard run when a page mounts, and logout. */
module Auth {
  import opened Entities
  import opened Browser

  /** The path every refused visitor and every logout is sent to. */
  const LoginPath: string := "/"

  datatype Decision = Redirect(path: string) | Authenticate(user: User)

  /** The effect's three-way decision on the stored user and the required role. */
  function Decide(stored: Option<User>, requiredRole: Option<Role>): (d: Decision)
    ensures d.Redirect? ==> d.path == LoginPath
    ensures d.Authenticate? ==> stored == Some(d.user)
    ensures d.Authenticate? && requiredRole.Some? ==> d.user.role == requiredRole.value
  {
    if stored.None? then Redirect(LoginPath)
    else if requiredRole.Some? && stored.value.role != requiredRole.value then Redirect(LoginPath)
    else Authenticate(stored.value)
  }

  /** The guard admits exactly the stored user, and only when no role is
      required or the stored role is the required one; everyone else is sent
      to the login page. */
  lemma DecideAdmitsExactly(stored: Option<User>, requiredRole: Option<Role>, u: User)
    ensures Decide(stored, requiredRole) == Authenticate(u)
        <==> stored == Some(u) && (requiredRole.None? || requiredRole.value == u.role)
    ensures !Decide(stored, requiredRole).Authenticate? ==> Decide(stored, requiredRole) == Redirect(LoginPath)
  {
  }

  class AuthGuard {
    const requiredRole: Option<Role>
    const store: LocalStorage
    const router: Router
    var user: Option<User>
    var loading: bool

    /** An admitted user holds the required role, and loading ends only once
        a user is admitted. */
    ghost predicate Valid()
      reads this
    {
      && (user.Some? && requiredRole.Some? ==> user.value.role == requiredRole.value)
      && (!loading ==> user.Some?)
    }

    constructor (requiredRole: Option<Role>, store: LocalStorage, router: Router)
      ensures this.requiredRole == requiredRole && this.store == store && this.router == router
      ensures user == None && loading
      ensures Valid()
    {
      this.requiredRole := requiredRole;
      this.store := store;
      this.router := router;
      user := None;
      loading := true;
    }

    /** The effect: redirect, or admit the stored user and stop loading. */
    method Check()
      requires Valid()
      modifies this`user, this`loading, router
      ensures Valid()
      ensures match Decide(StoredUser(store.entries), requiredRole)
              case Redirect(path) =>
                user == old(user) && loading == old(loading) && router.pushed == old(router.pushed) + [path]
              case Authenticate(u) =>
                user == Some(u) && !loading && router.pushed == old(router.pushed)
    {
      var userStr := store.GetItem(UserKey);
      if !(userStr.Some? && userStr.value.UserValue?) {
        router.Push(LoginPath);
        return;
      }
      var userData := userStr.value.user;
      if requiredRole.Some? && userData.role != requiredRole.value {
        router.Push(LoginPath);
        return;
      }
      user := Some(userData);
      loading := false;
    }

    /** Removes the stored user, and nothing else, and returns to the login page. */
    method Logout()
      modifies store, router
      ensures store.entries == old(store.entries) - {UserKey}
      ensures router.pushed == old(router.pushed) + [LoginPath]
    {
      store.RemoveItem(UserKey);
      router.Push(LoginPath);
    }
  }

  /** Logging out leaves the problems and the submissions alone, and a second
      logout leaves the store as the first one left it. */
  lemma LogoutKeepsOtherKeys(entries: map<string, Value>)
    ensures StoredUser(entries - {UserKey}) == None
    ensures StoredProblems(entries - {UserKey}) == StoredProblems(entries)
    ensures StoredSubmissions(entries - {UserKey}) == StoredSubmissions(entries)
    ensures (entries - {UserKey}) - {UserKey} == entries - {UserKey}
  {
  }
}
