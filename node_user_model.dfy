/** The Node service's Mongoose `User` schema (`models/user.model.js`): the
    setters that normalise values on assignment, the validators with their
    messages, the defaults, the pre-save hook that hashes the password and
    `toJSON`, which drops it. */
module NodeUserModel {
  import opened Common
  import Bcrypt
  import NodePassword

  /** What the `password` path holds. JavaScript stores a string; the model
      records whether that string is text a caller supplied or the text of a
      bcrypt hash (which bcryptjs can compare against). */
  datatype Secret = Plain(text: string) | Hashed(hash: Bcrypt.Hash)

  /** The string the path actually holds. */
  function Render(s: Secret): string {
    match s
    case Plain(t) => t
    case Hashed(h) => Bcrypt.Encode(h)
  }

  /** `comparePassword(password, stored)`: text that is not a hash never
      matches. */
  predicate Matches(password: string, s: Secret) {
    s.Hashed? && NodePassword.ComparePassword(password, s.hash)
  }

  /** A `User` document. `firstName`/`lastName` are `None` when absent or
      `null`. */
  datatype UserFields = UserFields(
    id: string, username: string, email: string, password: Secret,
    firstName: Option<string>, lastName: Option<string>, role: string,
    isActive: bool, createdAt: int, updatedAt: int)

  /** The values `User.create` is given by the repository. */
  datatype UserData = UserData(
    username: string, email: string, password: string,
    firstName: Option<string>, lastName: Option<string>, role: Option<string>)

  const DefaultRole: string := "user"

  /** The `enum` of the `role` path. */
  const Roles: set<string> := {"user", "admin"}

  function TrimName(name: Option<string>): (r: Option<string>)
    ensures r.Some? <==> name.Some?
    ensures r.Some? ==> r.value == JsTrim(name.value)
  {
    if name.Some? then Some(JsTrim(name.value)) else None
  }

  /** `new User({...})`: the `trim`/`lowercase` setters run on assignment,
      `role` falls back to `'user'` when it is missing or empty,
      `isActive` defaults to true and both timestamps are `now`. */
  function NewFields(data: UserData, id: string, now: int): (f: UserFields)
    ensures f.id == id && f.password == Plain(data.password)
    ensures f.username == JsTrim(data.username) && f.email == Lower(JsTrim(data.email))
    ensures f.firstName == TrimName(data.firstName) && f.lastName == TrimName(data.lastName)
    ensures f.role == (if data.role.None? || data.role == Some("") then DefaultRole else data.role.value)
    ensures f.isActive && f.createdAt == now && f.updatedAt == now
  {
    var role := if data.role.None? || data.role == Some("") then DefaultRole else data.role.value;
    UserFields(id, JsTrim(data.username), Lower(JsTrim(data.email)), Plain(data.password),
               TrimName(data.firstName), TrimName(data.lastName), role, true, now, now)
  }

  /** The setters are idempotent: a value already stored is left as it is
      when assigned again, and the stored email has no upper-case letter. */
  lemma SettersIdempotent(data: UserData, id: string, now: int)
    ensures var f := NewFields(data, id, now);
            && JsTrim(f.username) == f.username
            && Lower(f.email) == f.email
            && (f.firstName.Some? ==> JsTrim(f.firstName.value) == f.firstName.value)
  {
    TrimIdempotent(data.username, JsIsSpace);
    LowerIdempotent(JsTrim(data.email));
    if data.firstName.Some? {
      TrimIdempotent(data.firstName.value, JsIsSpace);
    }
  }

  // ---------------------------------------------------------------- validators

  /** `[a-zA-Z0-9_]`. */
  predicate IsWordChar(c: char) {
    IsAlnum(c) || c == '_'
  }

  predicate NotSpace(c: char) {
    !JsIsSpace(c)
  }

  /** `/^\S+@\S+\.\S+$/`: no whitespace at all, an `@` after at least one
      character, then at least one character, a `.`, and at least one more. */
  predicate EmailShape(s: string) {
    && AllChars(s, NotSpace)
    && exists i, j :: 0 < i && i + 1 < j && j + 1 < |s| && s[i] == '@' && s[j] == '.'
  }

  /** The schema's messages. */
  const UsernameRequired: string := "Username is required"
  const UsernameTooShort: string := "Username must be at least 3 characters long"
  const UsernameTooLong: string := "Username must not exceed 30 characters"
  const UsernameCharset: string := "Username can only contain letters, numbers, and underscores"
  const EmailRequired: string := "Email is required"
  const EmailInvalid: string := "Please provide a valid email address"
  const PasswordRequired: string := "Password is required"
  const PasswordTooShort: string := "Password must be at least 8 characters long"
  const RoleInvalid: string := "Role must be either user or admin"

  /** Each path reports the first of its validators that fails: `required`
      first, then the others in declaration order. */
  function UsernameCheck(u: string): Option<string> {
    if |u| == 0 then Some(UsernameRequired)
    else if |u| < 3 then Some(UsernameTooShort)
    else if |u| > 30 then Some(UsernameTooLong)
    else if !AllChars(u, IsWordChar) then Some(UsernameCharset)
    else None
  }

  function EmailCheck(e: string): Option<string> {
    if |e| == 0 then Some(EmailRequired)
    else if !EmailShape(e) then Some(EmailInvalid)
    else None
  }

  function PasswordCheck(p: Secret): Option<string> {
    if |Render(p)| == 0 then Some(PasswordRequired)
    else if |Render(p)| < 8 then Some(PasswordTooShort)
    else None
  }

  function NameCheck(which: string, name: Option<string>): Option<string> {
    if name.Some? && |name.value| > 50 then Some(which + " name must not exceed 50 characters") else None
  }

  function RoleCheck(role: string): Option<string> {
    if role !in Roles then Some(RoleInvalid) else None
  }

  /** The message of a failing check, or nothing. */
  function Reported(check: Option<string>): (r: seq<string>)
    ensures r == [] <==> check.None?
  {
    if check.Some? then [check.value] else []
  }

  /** `doc.validate()`: one message per failing path, in schema order. */
  function ValidationMessages(f: UserFields): seq<string> {
    Reported(UsernameCheck(f.username)) + Reported(EmailCheck(f.email)) + Reported(PasswordCheck(f.password))
    + Reported(NameCheck("First", f.firstName)) + Reported(NameCheck("Last", f.lastName)) + Reported(RoleCheck(f.role))
  }

  /** The schema's constraints stated directly. */
  predicate SchemaValid(f: UserFields) {
    && 3 <= |f.username| <= 30 && AllChars(f.username, IsWordChar)
    && EmailShape(f.email)
    && |Render(f.password)| >= 8
    && (f.firstName.Some? ==> |f.firstName.value| <= 50)
    && (f.lastName.Some? ==> |f.lastName.value| <= 50)
    && f.role in Roles
  }

  /** Validation passes exactly the documents that meet the schema. */
  lemma ValidationMeansSchema(f: UserFields)
    ensures ValidationMessages(f) == [] <==> SchemaValid(f)
  {
    ChecksPass(f);
    UsernameCheckMeans(f.username);
  }

  /** No message exactly when every check passes. */
  lemma ChecksPass(f: UserFields)
    ensures ValidationMessages(f) == [] <==>
              && UsernameCheck(f.username).None? && EmailCheck(f.email).None? && PasswordCheck(f.password).None?
              && NameCheck("First", f.firstName).None? && NameCheck("Last", f.lastName).None? && RoleCheck(f.role).None?
  {
  }

  lemma UsernameCheckMeans(u: string)
    ensures UsernameCheck(u).None? <==> 3 <= |u| <= 30 && AllChars(u, IsWordChar)
  {
  }

  /** The password minimum applies to the text as assigned, before the
      hook hashes it. */
  lemma ShortPlaintextRejected(f: UserFields)
    requires f.password.Plain? && 0 < |f.password.text| < 8
    ensures PasswordTooShort in ValidationMessages(f)
  {
  }

  // ---------------------------------------------------------------- hook and toJSON

  /** The pre-save hook's new value: the hash of whatever text the path
      holds. */
  function Rehash(s: Secret, salt: string): (r: Secret)
    ensures r.Hashed? && r.hash.cost == NodePassword.SALT_ROUNDS
    ensures Matches(Render(s), r)
  {
    Hashed(NodePassword.HashPassword(Render(s), salt))
  }

  /** Rehashing text that is already a hash: a password matches exactly
      when its first 72 characters are those of the hash text, so the
      original plaintext stops matching (unless it is 72 characters or more
      and starts with the hash tag). */
  lemma RehashedHashRejectsPlaintext(p: string, salt1: string, salt2: string, q: string)
    ensures Bcrypt.ShortOrUntagged(p) ==> !Matches(p, Rehash(Hashed(NodePassword.HashPassword(p, salt1)), salt2))
    ensures Matches(q, Rehash(Hashed(NodePassword.HashPassword(p, salt1)), salt2))
            <==> Bcrypt.Significant(q) == Bcrypt.Significant(Bcrypt.Encode(NodePassword.HashPassword(p, salt1)))
  {
    var t := Bcrypt.Encode(NodePassword.HashPassword(p, salt1));
    Bcrypt.EncodedHashIsNotPlaintext(p, NodePassword.SALT_ROUNDS, salt1);
    NodePassword.CompareOwnHash(t, p, salt2);
    NodePassword.CompareOwnHash(t, q, salt2);
  }

  /** What `toJSON()` returns: every field but `password`. */
  datatype PublicUser = PublicUser(
    id: string, username: string, email: string,
    firstName: Option<string>, lastName: Option<string>, role: string,
    isActive: bool, createdAt: int, updatedAt: int)

  function PublicView(f: UserFields): (u: PublicUser) {
    PublicUser(f.id, f.username, f.email, f.firstName, f.lastName, f.role, f.isActive, f.createdAt, f.updatedAt)
  }

  /** `toJSON` forgets the password and nothing else: the output does not
      depend on the password, and together with it gives back the whole
      document. */
  lemma ToJSONDropsOnlyPassword(f: UserFields, s: Secret)
    ensures PublicView(f.(password := s)) == PublicView(f)
    ensures var u := PublicView(f);
            UserFields(u.id, u.username, u.email, f.password, u.firstName, u.lastName, u.role,
                       u.isActive, u.createdAt, u.updatedAt) == f
  {
  }

  /** A Mongoose document: its fields, whether it has been saved, and
      whether `password` was modified since it was loaded. */
  class UserDocument {
    var fields: UserFields
    var isNew: bool
    var passwordModified: bool

    /** A document that was never saved has every path modified. */
    ghost predicate Valid()
      reads this
    {
      isNew ==> passwordModified
    }

    /** `new User({...})`: every given path counts as modified. */
    constructor Create(f: UserFields)
      ensures fields == f && isNew && passwordModified && Valid()
    {
      fields := f;
      isNew := true;
      passwordModified := true;
    }

    /** A document read from the collection. */
    constructor Loaded(f: UserFields)
      ensures fields == f && !isNew && !passwordModified && Valid()
    {
      fields := f;
      isNew := false;
      passwordModified := false;
    }

    /** `doc.password = value`: marks the path modified unless the value is
        the one it already holds. */
    method SetPassword(s: Secret)
      modifies this
      ensures fields == old(fields).(password := s) && isNew == old(isNew)
      ensures old(Valid()) ==> Valid()
      ensures passwordModified == (old(passwordModified) || old(fields).password != s)
    {
      if fields.password != s {
        passwordModified := true;
      }
      fields := fields.(password := s);
    }

    /** `userSchema.pre('save')`: hashes the password when it was modified,
        and does nothing otherwise. */
    method PreSave(salt: string)
      modifies this
      ensures isNew == old(isNew) && passwordModified == old(passwordModified)
      ensures old(passwordModified) ==> fields == old(fields).(password := Rehash(old(fields).password, salt))
      ensures !old(passwordModified) ==> fields == old(fields)
    {
      if !passwordModified {
        return;
      }
      fields := fields.(password := Rehash(fields.password, salt));
    }

    function ToJSON(): (u: PublicUser)
      reads this
      ensures u == PublicView(fields)
    {
      PublicView(fields)
    }
  }
}
