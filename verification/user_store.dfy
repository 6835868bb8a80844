/** The abstract user collection the controller reads and writes. */
module UserStore {
  import opened Fields

  /** Document ids and tool ids, compared as strings. A tool id stands for its
      canonical form, the string the database stores for it. */
  type UserId = string
  type ToolId = string

  /** A user document. `password` holds whatever value the handler handed to
      the database (hashing happens outside this model); `avatar` is None when
      the handler left it to the schema default. */
  datatype User = User(
    fullName: string,
    email: string,
    password: string,
    avatar: Option<string>,
    isAdmin: bool,
    isSuperAdmin: bool,
    favoriteTools: seq<ToolId>)

  /** The collection: document id to document. */
  type Store = map<UserId, User>

  /** A freshly created document: no role flags and no favorites. */
  function NewUser(fullName: string, email: string, password: string, avatar: Option<string>): User
  {
    User(fullName, email, password, avatar, false, false, [])
  }

  /** Some document carries this email. */
  predicate EmailTaken(s: Store, email: string)
  {
    exists id :: id in s && s[id].email == email
  }

  /** `findOne({ email })`: one document with that email, if any. Which one is
      left unspecified when several share it. */
  ghost function FindByEmail(s: Store, email: string): (r: Option<UserId>)
    ensures r.None? <==> !EmailTaken(s, email)
    ensures r.Some? ==> r.value in s && s[r.value].email == email
  {
    if EmailTaken(s, email) then
      var id :| id in s && s[id].email == email; Some(id)
    else
      None
  }

  /** No two documents share an email: intended by the data model, and kept by
      sign-up, but not enforced by `UpdateUser`. */
  ghost predicate UniqueEmails(s: Store)
  {
    forall a, b :: a in s && b in s && s[a].email == s[b].email ==> a == b
  }

  /** With unique emails, the lookup finds exactly the document that carries it. */
  lemma FindByEmailIsUnique(s: Store, id: UserId)
    requires UniqueEmails(s)
    requires id in s
    ensures FindByEmail(s, s[id].email) == Some(id)
  {
  }
}
