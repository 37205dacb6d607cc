/** The login page: a display name and a role, stored as the session user. */
module Login {
  import opened Text
  import opened Entities
  import opened Browser
  import opened Auth

  /** Where each role lands after login. */
  function HomeOf(role: Role): (path: string)
    ensures path != LoginPath
    ensures path == "/admin" <==> role == Admin
  {
    if role == Admin then "/admin" else "/student"
  }

  class LoginPage {
    const store: LocalStorage
    const router: Router
    var name: string
    var role: Role

    constructor (store: LocalStorage, router: Router)
      ensures this.store == store && this.router == router
      ensures name == "" && role == Student
    {
      this.store := store;
      this.router := router;
      name := "";
      role := Student;
    }

    method SetName(text: string)
      modifies this`name
      ensures name == text
    {
      name := text;
    }

    method SetRole(r: Role)
      modifies this`role
      ensures role == r
    {
      role := r;
    }

    /** A blank name does nothing; otherwise the name, untrimmed, and the role
        become the stored user and the router goes to the role's home. */
    method HandleLogin()
      modifies store, router
      ensures AllSpace(name) ==> unchanged(store) && unchanged(router)
      ensures !AllSpace(name) ==>
                && store.entries == old(store.entries)[UserKey := UserValue(User(name, role))]
                && router.pushed == old(router.pushed) + [HomeOf(role)]
    {
      if Trim(name) == [] {
        return;
      }
      store.SetItem(UserKey, UserValue(User(name, role)));
      if role == Admin {
        router.Push("/admin");
      } else {
        router.Push("/student");
      }
    }
  }

  /** After a login with role `r`, the guard of the pages for `r` admits the
      user just stored, and the guard of the other role's pages refuses. */
  lemma LoginThenGuard(entries: map<string, Value>, name: string, r: Role, other: Role)
    requires other != r
    ensures var stored := StoredUser(entries[UserKey := UserValue(User(name, r))]);
            && Decide(stored, Some(r)) == Authenticate(User(name, r))
            && Decide(stored, None) == Authenticate(User(name, r))
            && Decide(stored, Some(other)) == Redirect(LoginPath)
  {
  }
}
