/** Properties that relate several handler calls, or hold of every handler. */
module ControllerProperties {
  import opened Fields
  import opened UserStore
  import Favorites
  import opened UserController

  /** Signing up twice with the same email: the second attempt conflicts and
      creates nothing. */
  lemma SignupTwiceConflicts(s: Store, fullName: Option<string>, email: Option<string>,
                             password: Option<string>, id1: UserId, id2: UserId,
                             fullName2: Option<string>, password2: Option<string>)
    requires id1 !in s
    requires Signup(s, fullName, email, password, id1).status == Created
    requires id2 !in Signup(s, fullName, email, password, id1).store
    requires Provided(fullName2) && Provided(password2)
    ensures var s1 := Signup(s, fullName, email, password, id1).store;
      Signup(s1, fullName2, email, password2, id2) == Reply(Conflict, false, s1)
  {
    var s1 := Signup(s, fullName, email, password, id1).store;
    assert s1[id1].email == email.value;
  }

  /** Sign-up keeps emails unique. */
  lemma SignupKeepsUniqueEmails(s: Store, fullName: Option<string>, email: Option<string>,
                                password: Option<string>, newId: UserId)
    requires newId !in s
    requires UniqueEmails(s)
    ensures UniqueEmails(Signup(s, fullName, email, password, newId).store)
  {
    var r := Signup(s, fullName, email, password, newId);
    if r.status == Created {
      assert forall id :: id in s ==> s[id].email != r.store[newId].email;
    }
  }

  /** Round trip: after a successful sign-up, logging in with the same email and
      password succeeds, provided the password check accepts the value stored. */
  lemma SignupThenLogin(s: Store, fullName: Option<string>, email: Option<string>,
                        password: Option<string>, newId: UserId,
                        passwordMatches: (string, string) -> bool)
    requires newId !in s
    requires Signup(s, fullName, email, password, newId).status == Created
    requires passwordMatches(password.value, password.value)
    ensures var s1 := Signup(s, fullName, email, password, newId).store;
      Login(s1, email, password, passwordMatches) == Reply(OK, true, s1)
  {
    var s1 := Signup(s, fullName, email, password, newId).store;
    assert forall id :: id in s1 && s1[id].email == email.value ==> id == newId;
  }

  /** With unique emails, login succeeds exactly when some account carries the
      email and the password check accepts its stored password. */
  lemma LoginSucceedsIff(s: Store, email: Option<string>, password: Option<string>,
                         passwordMatches: (string, string) -> bool)
    requires UniqueEmails(s)
    ensures Login(s, email, password, passwordMatches).status == OK <==>
      && Provided(email) && Provided(password)
      && exists id :: id in s && s[id].email == email.value
                      && passwordMatches(s[id].password, password.value)
  {
    if Provided(email) && Provided(password) {
      if id :| id in s && s[id].email == email.value && passwordMatches(s[id].password, password.value) {
        FindByEmailIsUnique(s, id);
      }
    }
  }

  /** On any store, even one where emails repeat, a successful login means some
      account has the email and its stored password passes the check. */
  lemma LoginSuccessHasAccount(s: Store, email: Option<string>, password: Option<string>,
                               passwordMatches: (string, string) -> bool)
    ensures Login(s, email, password, passwordMatches).status == OK ==>
      && Provided(email) && Provided(password)
      && exists id :: id in s && s[id].email == email.value
                      && passwordMatches(s[id].password, password.value)
  {
    if Login(s, email, password, passwordMatches).status == OK {
      var id := FindByEmail(s, email.value).value;
      assert id in s && s[id].email == email.value
             && passwordMatches(s[id].password, password.value);
    }
  }

  /** Applying the same profile update twice is the same as applying it once. */
  lemma UpdateUserIdempotent(s: Store, caller: UserId, p: ProfileUpdate)
    ensures var r1 := UpdateUser(s, caller, p);
      UpdateUser(r1.store, caller, p) == r1
  {
    var r1 := UpdateUser(s, caller, p);
    if r1.status == OK {
      var v := Patch(s[caller], p);
      assert r1.store == s[caller := v];
      assert Patch(v, p) == v;
      assert r1.store[caller := v] == r1.store;
    }
  }

  /** An update that does not touch the email keeps emails unique. */
  lemma UpdateWithoutEmailKeepsUniqueEmails(s: Store, caller: UserId, p: ProfileUpdate)
    requires UniqueEmails(s)
    requires !Provided(p.email)
    ensures UniqueEmails(UpdateUser(s, caller, p).store)
  {
  }

  /** An update that changes the email can give two accounts the same email:
      the handler itself makes no uniqueness check. */
  lemma UpdateMayDuplicateEmail()
    ensures var s := map["a" := NewUser("A", "a@x.com", "p", None),
                         "b" := NewUser("B", "b@x.com", "q", None)];
            var r := UpdateUser(s, "b", ProfileUpdate(None, Some("a@x.com"), None, None));
            UniqueEmails(s) && r.status == OK && !UniqueEmails(r.store)
  {
    var s := map["a" := NewUser("A", "a@x.com", "p", None),
                 "b" := NewUser("B", "b@x.com", "q", None)];
    var r := UpdateUser(s, "b", ProfileUpdate(None, Some("a@x.com"), None, None));
    assert r.store["a"].email == r.store["b"].email;
  }

  /** Deleting one's own account twice: the second call finds nothing. */
  lemma DeleteUserTwice(s: Store, caller: UserId)
    requires caller in s
    ensures var r1 := DeleteUser(s, caller);
      r1.status == OK && DeleteUser(r1.store, caller) == Reply(NotFound, false, r1.store)
  {
  }

  /** A caller without the super-admin flag can never delete anyone, whatever
      the target: the store is untouched and the answer is an error. */
  lemma DeleteOtherUserNeedsSuperAdmin(s: Store, caller: UserId, userId: Option<UserId>)
    requires caller !in s || !s[caller].isSuperAdmin
    ensures DeleteOtherUser(s, caller, userId).store == s
    ensures DeleteOtherUser(s, caller, userId).status != OK
  {
  }

  /** Federated login for an email that already exists issues a token without
      looking at any password, and changes nothing: after a sign-up, it succeeds
      whatever the password was. */
  lemma GoogleAfterSignupSkipsPassword(s: Store, fullName: Option<string>, email: Option<string>,
                                       password: Option<string>, newId: UserId,
                                       anyName: Option<string>, avatar: Option<string>,
                                       generatedPassword: string, otherId: UserId)
    requires newId !in s
    requires Signup(s, fullName, email, password, newId).status == Created
    requires otherId !in Signup(s, fullName, email, password, newId).store
    requires Provided(anyName)
    ensures var s1 := Signup(s, fullName, email, password, newId).store;
      Google(s1, email, anyName, avatar, generatedPassword, otherId) == Reply(OK, true, s1)
  {
    var s1 := Signup(s, fullName, email, password, newId).store;
    assert s1[newId].email == email.value;
  }

  /** A second federated login with the same email finds the account the first
      one created and changes nothing. */
  lemma GoogleTwice(s: Store, email: Option<string>, fullName: Option<string>,
                    avatar: Option<string>, pw1: string, id1: UserId, pw2: string, id2: UserId)
    requires id1 !in s
    requires Provided(email) && Provided(fullName)
    requires id2 !in Google(s, email, fullName, avatar, pw1, id1).store
    ensures var s1 := Google(s, email, fullName, avatar, pw1, id1).store;
      Google(s1, email, fullName, avatar, pw2, id2) == Reply(OK, true, s1)
  {
    var r1 := Google(s, email, fullName, avatar, pw1, id1);
    if r1.status == Created {
      assert r1.store[id1].email == email.value;
    }
  }

  /** Federated sign-up keeps emails unique. */
  lemma GoogleKeepsUniqueEmails(s: Store, email: Option<string>, fullName: Option<string>,
                                avatar: Option<string>, generatedPassword: string, newId: UserId)
    requires newId !in s
    requires UniqueEmails(s)
    ensures UniqueEmails(Google(s, email, fullName, avatar, generatedPassword, newId).store)
  {
    var r := Google(s, email, fullName, avatar, generatedPassword, newId);
    if r.status == Created {
      assert forall id :: id in s ==> s[id].email != r.store[newId].email;
    }
  }

  /** Adding the same favorite twice is the same as adding it once. */
  lemma AddToFavoritesTwice(s: Store, caller: UserId, toolId: Option<ToolId>)
    ensures var r1 := AddToFavorites(s, caller, toolId);
      AddToFavorites(r1.store, caller, toolId) == r1
  {
    var r1 := AddToFavorites(s, caller, toolId);
    if r1.status == OK {
      var u := s[caller];
      Favorites.AddIdempotent(u.favoriteTools, toolId.value);
      assert r1.store[caller := r1.store[caller]] == r1.store;
    }
  }

  /** Removing the same favorite twice is the same as removing it once. */
  lemma RemoveFromFavoritesTwice(s: Store, caller: UserId, toolId: Option<ToolId>)
    ensures var r1 := RemoveFromFavorites(s, caller, toolId);
      RemoveFromFavorites(r1.store, caller, toolId) == r1
  {
    var r1 := RemoveFromFavorites(s, caller, toolId);
    if r1.status == OK {
      var u := s[caller];
      Favorites.RemoveIdempotent(u.favoriteTools, toolId.value);
      assert r1.store[caller := r1.store[caller]] == r1.store;
    }
  }

  /** Removing a favorite that is not there answers 200 and changes nothing. */
  lemma RemoveAbsentFavorite(s: Store, caller: UserId, toolId: Option<ToolId>)
    requires Provided(toolId) && caller in s
    requires toolId.value !in s[caller].favoriteTools
    ensures RemoveFromFavorites(s, caller, toolId) == Reply(OK, false, s)
  {
    Favorites.RemoveAbsent(s[caller].favoriteTools, toolId.value);
    assert s[caller := s[caller]] == s;
  }

  /** Adding a new favorite and then removing it restores the store. */
  lemma AddThenRemoveFavorite(s: Store, caller: UserId, toolId: Option<ToolId>)
    requires Provided(toolId) && caller in s
    requires toolId.value !in s[caller].favoriteTools
    ensures var s1 := AddToFavorites(s, caller, toolId).store;
      RemoveFromFavorites(s1, caller, toolId) == Reply(OK, false, s)
  {
    var u := s[caller];
    var t := toolId.value;
    var s1 := s[caller := u.(favoriteTools := u.favoriteTools + [t])];
    assert AddToFavorites(s, caller, toolId).store == s1;
    Favorites.RemoveUndoesAdd(u.favoriteTools, t);
    assert Favorites.Remove(s1[caller].favoriteTools, t) == u.favoriteTools;
    assert s1[caller := u] == s;
  }

  /** A favorites list without duplicates stays without duplicates under add and remove. */
  lemma FavoritesKeepNoDuplicates(s: Store, caller: UserId, toolId: Option<ToolId>)
    requires caller in s && Favorites.NoDuplicates(s[caller].favoriteTools)
    ensures Favorites.NoDuplicates(AddToFavorites(s, caller, toolId).store[caller].favoriteTools)
    ensures Favorites.NoDuplicates(RemoveFromFavorites(s, caller, toolId).store[caller].favoriteTools)
  {
    if Provided(toolId) {
      Favorites.AddKeepsNoDuplicates(s[caller].favoriteTools, toolId.value);
      Favorites.RemoveKeepsNoDuplicates(s[caller].favoriteTools, toolId.value);
    }
  }

  /** Toggling the admin flag twice restores the original store. */
  lemma ToggleAdminTwice(s: Store, userId: Option<UserId>)
    ensures ToggleAdminStatus(ToggleAdminStatus(s, userId).store, userId).store == s
  {
    var r1 := ToggleAdminStatus(s, userId);
    if r1.status == OK {
      var r2 := ToggleAdminStatus(r1.store, userId);
      assert r2.store.Keys == s.Keys;
      assert forall id :: id in s ==> r2.store[id] == s[id];
    }
  }

  /** Every request the controller serves. */
  datatype Request =
    | SignupRequest(fullName: Option<string>, email: Option<string>, password: Option<string>)
    | LoginRequest(email: Option<string>, password: Option<string>)
    | UpdateRequest(caller: UserId, update: ProfileUpdate)
    | DeleteRequest(caller: UserId)
    | DeleteOtherRequest(caller: UserId, userId: Option<UserId>)
    | GoogleRequest(email: Option<string>, fullName: Option<string>, avatar: Option<string>)
    | AddFavoriteRequest(caller: UserId, toolId: Option<ToolId>)
    | RemoveFavoriteRequest(caller: UserId, toolId: Option<ToolId>)
    | ToggleAdminRequest(userId: Option<UserId>)

  /** What the handlers take from outside: the password check, the id the
      database gives a new document, and the hashed random password. */
  datatype Environment = Environment(
    passwordMatches: (string, string) -> bool,
    newId: UserId,
    generatedPassword: string)

  /** Route a request to its handler. */
  ghost function Handle(s: Store, req: Request, env: Environment): Reply
    requires env.newId !in s
  {
    match req
    case SignupRequest(n, e, p) => Signup(s, n, e, p, env.newId)
    case LoginRequest(e, p) => Login(s, e, p, env.passwordMatches)
    case UpdateRequest(c, u) => UpdateUser(s, c, u)
    case DeleteRequest(c) => DeleteUser(s, c)
    case DeleteOtherRequest(c, t) => DeleteOtherUser(s, c, t)
    case GoogleRequest(e, n, a) => Google(s, e, n, a, env.generatedPassword, env.newId)
    case AddFavoriteRequest(c, t) => AddToFavorites(s, c, t)
    case RemoveFavoriteRequest(c, t) => RemoveFromFavorites(s, c, t)
    case ToggleAdminRequest(t) => ToggleAdminStatus(s, t)
  }

  /** Every error answer leaves the store as it was, and a token is only ever
      issued with a success status. */
  lemma ErrorsChangeNothing(s: Store, req: Request, env: Environment)
    requires env.newId !in s
    ensures var r := Handle(s, req, env);
      (r.status >= 400 ==> r.store == s) && (r.token ==> r.status in {OK, Created})
  {
  }

  /** No request ever grants the super-admin flag: whoever holds it afterwards
      held it before. */
  lemma NoRequestGrantsSuperAdmin(s: Store, req: Request, env: Environment)
    requires env.newId !in s
    ensures var r := Handle(s, req, env);
      forall id :: id in r.store && r.store[id].isSuperAdmin ==> id in s && s[id].isSuperAdmin
  {
  }

  /** Only the toggle request changes anyone's admin flag. */
  lemma OnlyToggleChangesAdmin(s: Store, req: Request, env: Environment)
    requires env.newId !in s
    requires !req.ToggleAdminRequest?
    ensures var r := Handle(s, req, env);
      forall id :: id in r.store ==> r.store[id].isAdmin == (id in s && s[id].isAdmin)
  {
  }
}
