/** The user request handlers, each a pure transition on the user store. */
module UserController {
  import opened Fields
  import opened UserStore
  import Favorites

  const OK: nat := 200
  const Created: nat := 201
  const BadRequest: nat := 400
  const Unauthorized: nat := 401
  const Forbidden: nat := 403
  const NotFound: nat := 404
  const Conflict: nat := 409

  /** The avatar a federated sign-up gets when none is supplied. */
  const DefaultAvatar: string :=
    "https://as2.ftcdn.net/jpg/03/40/12/49/1000_F_340124934_bz3pQTLrdFpH92ekknuaTHy8JuXgG7fi.webp"

  /** What a handler answers: the HTTP status, whether an access-token cookie
      was set, and the store after the call. */
  datatype Reply = Reply(status: nat, token: bool, store: Store)

  /** An answer that leaves the store as it was. */
  function Fail(status: nat, s: Store): Reply
  {
    Reply(status, false, s)
  }

  /** Self-service sign-up with full name, email and password. */
  function Signup(s: Store, fullName: Option<string>, email: Option<string>,
                  password: Option<string>, newId: UserId): (r: Reply)
    requires newId !in s
    ensures r.status in {Created, BadRequest, Conflict} && !r.token
    ensures r.status == BadRequest <==>
      !(Provided(fullName) && Provided(email) && Provided(password))
    ensures r.status == Conflict <==>
      Provided(fullName) && Provided(email) && Provided(password) && EmailTaken(s, email.value)
    ensures r.status != Created ==> r.store == s
    ensures r.status == Created ==>
      && r.store.Keys == s.Keys + {newId}
      && r.store[newId] == NewUser(fullName.value, email.value, password.value, None)
      && forall id :: id in s ==> r.store[id] == s[id]
  {
    if !Provided(fullName) || !Provided(email) || !Provided(password) then
      Fail(BadRequest, s)
    else if EmailTaken(s, email.value) then
      Fail(Conflict, s)
    else
      Reply(Created, false, s[newId := NewUser(fullName.value, email.value, password.value, None)])
  }

  /** Password login. `passwordMatches(stored, candidate)` stands for the
      document's `isPasswordCorrect`. */
  ghost function Login(s: Store, email: Option<string>, password: Option<string>,
                       passwordMatches: (string, string) -> bool): (r: Reply)
    ensures r.store == s
    ensures r.status in {OK, BadRequest, NotFound, Unauthorized}
    ensures r.token <==> r.status == OK
    ensures r.status == BadRequest <==> !(Provided(email) && Provided(password))
    ensures r.status == NotFound <==>
      Provided(email) && Provided(password) && !EmailTaken(s, email.value)
    ensures r.status == Unauthorized <==>
      && Provided(email) && Provided(password) && EmailTaken(s, email.value)
      && !passwordMatches(s[FindByEmail(s, email.value).value].password, password.value)
  {
    if !Provided(email) || !Provided(password) then
      Fail(BadRequest, s)
    else
      match FindByEmail(s, email.value)
      case None => Fail(NotFound, s)
      case Some(id) =>
        if !passwordMatches(s[id].password, password.value) then Fail(Unauthorized, s)
        else Reply(OK, true, s)
  }

  /** The body of a profile update: each field optional. */
  datatype ProfileUpdate = ProfileUpdate(
    fullName: Option<string>,
    email: Option<string>,
    password: Option<string>,
    avatar: Option<string>)

  /** At least one field of the update is present and non-empty. */
  predicate AnyProvided(p: ProfileUpdate)
  {
    Provided(p.fullName) || Provided(p.email) || Provided(p.password) || Provided(p.avatar)
  }

  /** The document after applying an update: each supplied field overwrites,
      every other field stays. */
  function Patch(u: User, p: ProfileUpdate): (v: User)
    ensures Provided(p.fullName) ==> v.fullName == p.fullName.value
    ensures !Provided(p.fullName) ==> v.fullName == u.fullName
    ensures Provided(p.email) ==> v.email == p.email.value
    ensures !Provided(p.email) ==> v.email == u.email
    ensures Provided(p.password) ==> v.password == p.password.value
    ensures !Provided(p.password) ==> v.password == u.password
    ensures Provided(p.avatar) ==> v.avatar == p.avatar
    ensures !Provided(p.avatar) ==> v.avatar == u.avatar
    ensures v.isAdmin == u.isAdmin && v.isSuperAdmin == u.isSuperAdmin
    ensures v.favoriteTools == u.favoriteTools
  {
    u.(fullName := if Provided(p.fullName) then p.fullName.value else u.fullName,
       email := if Provided(p.email) then p.email.value else u.email,
       password := if Provided(p.password) then p.password.value else u.password,
       avatar := if Provided(p.avatar) then p.avatar else u.avatar)
  }

  /** Update the caller's own profile. No uniqueness check is made on a new email. */
  function UpdateUser(s: Store, caller: UserId, p: ProfileUpdate): (r: Reply)
    ensures r.status in {OK, BadRequest, NotFound} && !r.token
    ensures r.status == BadRequest <==> !AnyProvided(p)
    ensures r.status == NotFound <==> AnyProvided(p) && caller !in s
    ensures r.status != OK ==> r.store == s
    ensures r.status == OK ==>
      && caller in s
      && r.store.Keys == s.Keys
      && r.store[caller] == Patch(s[caller], p)
      && forall id :: id in s && id != caller ==> r.store[id] == s[id]
  {
    if !AnyProvided(p) then Fail(BadRequest, s)
    else if caller !in s then Fail(NotFound, s)
    else Reply(OK, false, s[caller := Patch(s[caller], p)])
  }

  /** Delete the caller's own account. */
  function DeleteUser(s: Store, caller: UserId): (r: Reply)
    ensures r.status in {OK, NotFound} && !r.token
    ensures r.status == NotFound <==> caller !in s
    ensures r.status == NotFound ==> r.store == s
    ensures r.status == OK ==>
      && r.store.Keys == s.Keys - {caller}
      && forall id :: id in r.store ==> r.store[id] == s[id]
  {
    if caller !in s then Fail(NotFound, s)
    else Reply(OK, false, s - {caller})
  }

  /** A super-admin deletes another account named in the route. */
  function DeleteOtherUser(s: Store, caller: UserId, userId: Option<UserId>): (r: Reply)
    ensures r.status in {OK, NotFound, Forbidden} && !r.token
    ensures r.status == Forbidden <==>
      caller in s && Provided(userId) && !s[caller].isSuperAdmin
    ensures r.status == NotFound <==>
      caller !in s || !Provided(userId) || (s[caller].isSuperAdmin && userId.value !in s)
    ensures r.status != OK ==> r.store == s
    ensures r.status == OK ==>
      && caller in s && s[caller].isSuperAdmin
      && userId.value in s
      && r.store.Keys == s.Keys - {userId.value}
      && forall id :: id in r.store ==> r.store[id] == s[id]
  {
    if caller !in s || !Provided(userId) then Fail(NotFound, s)
    else if !s[caller].isSuperAdmin then Fail(Forbidden, s)
    else if userId.value !in s then Fail(NotFound, s)
    else Reply(OK, false, s - {userId.value})
  }

  /** Federated login: an existing email logs in without any password check;
      a new email creates an account with `generatedPassword` (the hashed
      random password) and the supplied or default avatar. */
  function Google(s: Store, email: Option<string>, fullName: Option<string>,
                  avatar: Option<string>, generatedPassword: string, newId: UserId): (r: Reply)
    requires newId !in s
    ensures r.status in {OK, Created, BadRequest}
    ensures r.token <==> r.status != BadRequest
    ensures r.status == BadRequest <==> !(Provided(email) && Provided(fullName))
    ensures r.status == OK <==>
      Provided(email) && Provided(fullName) && EmailTaken(s, email.value)
    ensures r.status != Created ==> r.store == s
    ensures r.status == Created ==>
      && r.store.Keys == s.Keys + {newId}
      && r.store[newId] == NewUser(fullName.value, email.value, generatedPassword,
                                   Some(if Provided(avatar) then avatar.value else DefaultAvatar))
      && forall id :: id in s ==> r.store[id] == s[id]
  {
    if !Provided(email) || !Provided(fullName) then
      Fail(BadRequest, s)
    else if EmailTaken(s, email.value) then
      Reply(OK, true, s)
    else
      var pic := if Provided(avatar) then avatar.value else DefaultAvatar;
      Reply(Created, true, s[newId := NewUser(fullName.value, email.value, generatedPassword, Some(pic))])
  }

  /** Append a tool to the caller's favorites unless it is already there. */
  function AddToFavorites(s: Store, caller: UserId, toolId: Option<ToolId>): (r: Reply)
    ensures r.status in {OK, BadRequest, NotFound} && !r.token
    ensures r.status == BadRequest <==> !Provided(toolId)
    ensures r.status == NotFound <==> Provided(toolId) && caller !in s
    ensures r.status != OK ==> r.store == s
    ensures r.status == OK ==>
      && caller in s
      && r.store.Keys == s.Keys
      && r.store[caller] == s[caller].(favoriteTools := Favorites.Add(s[caller].favoriteTools, toolId.value))
      && forall id :: id in s && id != caller ==> r.store[id] == s[id]
  {
    if !Provided(toolId) then Fail(BadRequest, s)
    else if caller !in s then Fail(NotFound, s)
    else
      var u := s[caller];
      Reply(OK, false, s[caller := u.(favoriteTools := Favorites.Add(u.favoriteTools, toolId.value))])
  }

  /** Drop every occurrence of a tool from the caller's favorites. */
  function RemoveFromFavorites(s: Store, caller: UserId, toolId: Option<ToolId>): (r: Reply)
    ensures r.status in {OK, BadRequest, NotFound} && !r.token
    ensures r.status == BadRequest <==> !Provided(toolId)
    ensures r.status == NotFound <==> Provided(toolId) && caller !in s
    ensures r.status != OK ==> r.store == s
    ensures r.status == OK ==>
      && caller in s
      && r.store.Keys == s.Keys
      && r.store[caller] == s[caller].(favoriteTools := Favorites.Remove(s[caller].favoriteTools, toolId.value))
      && forall id :: id in s && id != caller ==> r.store[id] == s[id]
  {
    if !Provided(toolId) then Fail(BadRequest, s)
    else if caller !in s then Fail(NotFound, s)
    else
      var u := s[caller];
      Reply(OK, false, s[caller := u.(favoriteTools := Favorites.Remove(u.favoriteTools, toolId.value))])
  }

  /** Flip the admin flag of the user named in the body. No privilege check on the caller. */
  function ToggleAdminStatus(s: Store, userId: Option<UserId>): (r: Reply)
    ensures r.status in {OK, NotFound} && !r.token
    ensures r.status == NotFound <==> userId.None? || userId.value !in s
    ensures r.status == NotFound ==> r.store == s
    ensures r.status == OK ==>
      && r.store.Keys == s.Keys
      && r.store[userId.value] == s[userId.value].(isAdmin := !s[userId.value].isAdmin)
      && forall id :: id in s && id != userId.value ==> r.store[id] == s[id]
  {
    if userId.None? || userId.value !in s then Fail(NotFound, s)
    else
      var u := s[userId.value];
      Reply(OK, false, s[userId.value := u.(isAdmin := !u.isAdmin)])
  }
}
