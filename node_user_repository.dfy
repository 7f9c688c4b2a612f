/** The Node service's data access (`repositories/user.repository.js`) over
    the `User` collection, including what Mongoose does on `save`:
    validation, then the pre-save hook, then the write, which the unique
    indexes on `username` and `email` can refuse. */
module NodeUserRepository {
  import opened Common
  import opened NodeErrors
  import opened NodeUserModel

  predicate UsernameHeldByOther(users: map<string, UserFields>, username: string, id: string) {
    exists o :: o in users && o != id && users[o].username == username
  }

  predicate EmailHeldByOther(users: map<string, UserFields>, email: string, id: string) {
    exists o :: o in users && o != id && users[o].email == email
  }

  ghost predicate UniqueKeys(users: map<string, UserFields>) {
    forall a, b :: a in users && b in users && a != b ==>
      users[a].email != users[b].email && users[a].username != users[b].username
  }

  /** What every stored record satisfies: filed under its own canonical id,
      with a hashed password; `order` (the natural order) lists every id
      once; the unique indexes hold. */
  ghost predicate ValidStore(users: map<string, UserFields>, order: seq<string>) {
    && (forall id :: id in users ==> users[id].id == id && IsCanonicalObjectId(id))
    && (forall id :: id in users ==> users[id].password.Hashed?)
    && (forall i :: 0 <= i < |order| ==> order[i] in users)
    && (forall id :: id in users ==> id in order)
    && (forall i, j :: 0 <= i < j < |order| ==> order[i] != order[j])
    && UniqueKeys(users)
  }

  lemma InsertKeepsValid(users: map<string, UserFields>, order: seq<string>, f: UserFields)
    requires ValidStore(users, order) && f.id !in users && IsCanonicalObjectId(f.id)
    requires f.password.Hashed?
    requires !EmailHeldByOther(users, f.email, f.id) && !UsernameHeldByOther(users, f.username, f.id)
    ensures ValidStore(users[f.id := f], order + [f.id])
  {
    var users', order' := users[f.id := f], order + [f.id];
    forall id | id in users' ensures users'[id].id == id && IsCanonicalObjectId(id) && users'[id].password.Hashed? {
      if id != f.id { assert users'[id] == users[id]; }
    }
    forall i | 0 <= i < |order'| ensures order'[i] in users' {
      if i < |order| { assert order'[i] == order[i]; }
    }
    forall i, j | 0 <= i < j < |order'| ensures order'[i] != order'[j] {
      if j == |order| { assert order[i] in users; }
    }
    forall id | id in users' ensures id in order' {
      if id != f.id { assert id in order; }
    }
    UniqueAfterInsert(users, f);
  }

  lemma UniqueAfterInsert(users: map<string, UserFields>, f: UserFields)
    requires UniqueKeys(users) && f.id !in users
    requires !EmailHeldByOther(users, f.email, f.id) && !UsernameHeldByOther(users, f.username, f.id)
    ensures UniqueKeys(users[f.id := f])
  {
    var users' := users[f.id := f];
    forall a, b | a in users' && b in users' && a != b
      ensures users'[a].email != users'[b].email && users'[a].username != users'[b].username
    {
      if a == f.id {
        assert users'[b] == users[b];
      } else if b == f.id {
        assert users'[a] == users[a];
      }
    }
  }

  /** Replacing a record by one that keeps its id, username and email. */
  lemma ReplaceKeepsValid(users: map<string, UserFields>, order: seq<string>, f: UserFields)
    requires ValidStore(users, order) && f.id in users
    requires f.email == users[f.id].email && f.username == users[f.id].username
    requires f.password.Hashed?
    ensures ValidStore(users[f.id := f], order)
  {
    var users' := users[f.id := f];
    assert users'.Keys == users.Keys;
    forall id | id in users' ensures users'[id].id == id && IsCanonicalObjectId(id) && users'[id].password.Hashed? {
      if id != f.id { assert users'[id] == users[id]; }
    }
    UniqueAfterReplace(users, f);
  }

  lemma UniqueAfterReplace(users: map<string, UserFields>, f: UserFields)
    requires UniqueKeys(users) && f.id in users
    requires f.email == users[f.id].email && f.username == users[f.id].username
    ensures UniqueKeys(users[f.id := f])
  {
    var users' := users[f.id := f];
    forall a, b | a in users' && b in users' && a != b
      ensures users'[a].email != users'[b].email && users'[a].username != users'[b].username
    {
      if a == f.id {
        assert users'[b] == users[b];
      } else if b == f.id {
        assert users'[a] == users[a];
      }
    }
  }

  // ---------------------------------------------------------------- save

  /** The document after the pre-save hook. */
  function Hooked(f: UserFields, modified: bool, salt: string): (g: UserFields)
    ensures modified ==> g == f.(password := Rehash(f.password, salt))
    ensures !modified ==> g == f
  {
    if modified then f.(password := Rehash(f.password, salt)) else f
  }

  /** The collection and the document after a successful `save()`. */
  datatype Saved = Saved(users: map<string, UserFields>, doc: UserFields)

  /** The write of a validated, hooked document `g`: an insert, which the
      unique indexes on `_id`, `username` and `email` can refuse (checked in
      that order), or a `$set` of the modified path and `updatedAt`. A
      loaded document with nothing modified is not written. */
  function Write(users: map<string, UserFields>, g: UserFields, isNew: bool, modified: bool, now: int)
    : (r: Result<Saved, JsError>)
    ensures r.Ok? && isNew ==> r.value == Saved(users[g.id := g], g) && g.id !in users
    ensures r.Ok? && !isNew ==> r.value.users.Keys == users.Keys && r.value.doc.password == g.password
    ensures r.Err? ==> r.error.name in {"MongoServerError", "DocumentNotFoundError"}
  {
    if isNew then
      if g.id in users then Err(DuplicateKey("_id"))
      else if UsernameHeldByOther(users, g.username, g.id) then Err(DuplicateKey("username"))
      else if EmailHeldByOther(users, g.email, g.id) then Err(DuplicateKey("email"))
      else Ok(Saved(users[g.id := g], g))
    else if !modified then Ok(Saved(users, g))
    else if g.id !in users then Err(DocumentNotFound(g.id))
    else Ok(Saved(users[g.id := users[g.id].(password := g.password, updatedAt := now)], g.(updatedAt := now)))
  }

  /** `doc.save()`: validation, then the hook, then the write. A modified
      password is stored as a hash its text matches. */
  function SaveOutcome(users: map<string, UserFields>, f: UserFields, isNew: bool, modified: bool,
                       salt: string, now: int): (r: Result<Saved, JsError>)
    ensures r.Ok? && modified ==> Matches(Render(f.password), r.value.doc.password)
  {
    if ValidationMessages(f) != [] then Err(ValidationFailed("User validation failed: ", ValidationMessages(f)))
    else Write(users, Hooked(f, modified, salt), isNew, modified, now)
  }

  /** Only documents that meet the schema are saved; any other is refused
      with Mongoose's `ValidationError` before the hook runs. */
  lemma SaveChecksSchema(users: map<string, UserFields>, f: UserFields, isNew: bool, modified: bool,
                         salt: string, now: int)
    ensures SaveOutcome(users, f, isNew, modified, salt, now).Ok? ==> SchemaValid(f)
    ensures !SchemaValid(f) ==> SaveOutcome(users, f, isNew, modified, salt, now)
                                == Err(ValidationFailed("User validation failed: ", ValidationMessages(f)))
  {
    ValidationMeansSchema(f);
  }

  /** A successful save keeps the collection invariant. */
  lemma SaveKeepsValid(users: map<string, UserFields>, order: seq<string>, f: UserFields, isNew: bool,
                       modified: bool, salt: string, now: int, saved: Saved)
    requires ValidStore(users, order)
    requires isNew ==> modified && IsCanonicalObjectId(f.id)
    requires SaveOutcome(users, f, isNew, modified, salt, now) == Ok(saved)
    ensures ValidStore(saved.users, if isNew then order + [f.id] else order)
  {
    var g := Hooked(f, modified, salt);
    if isNew {
      InsertKeepsValid(users, order, g);
    } else if modified {
      ReplaceKeepsValid(users, order, users[g.id].(password := g.password, updatedAt := now));
    }
  }

  // ---------------------------------------------------------------- updates

  /** A value in an update document: a string or `null`. */
  datatype UpdateValue = Null | Text(text: string)

  /** The cast of a name in an update: the `trim` setter runs, `null`
      clears the field. */
  function CastName(v: UpdateValue): Option<string> {
    if v.Text? then Some(JsTrim(v.text)) else None
  }

  function NameUpdate(updates: map<string, UpdateValue>, key: string, current: Option<string>): Option<string> {
    if key in updates then CastName(updates[key]) else current
  }

  /** `runValidators: true`: only the paths being updated are validated. */
  function UpdateMessages(updates: map<string, UpdateValue>): seq<string> {
    Reported(if "firstName" in updates then NameCheck("First", CastName(updates["firstName"])) else None)
    + Reported(if "lastName" in updates then NameCheck("Last", CastName(updates["lastName"])) else None)
  }

  /** `findByIdAndUpdate(id, updates, { new: true, runValidators: true })`:
      the id is cast first, then the update is validated, then the record
      looked up; `timestamps` adds `updatedAt`. */
  function UpdateOutcome(users: map<string, UserFields>, id: string, updates: map<string, UpdateValue>, now: int)
    : (r: Result<UserFields, JsError>)
    ensures !IsObjectIdText(id) ==> r == Err(CastError(id))
    ensures IsObjectIdText(id) && UpdateMessages(updates) == [] && Lower(id) !in users ==> r == Err(NotFound("User", id))
    ensures r.Ok? <==> IsObjectIdText(id) && UpdateMessages(updates) == [] && Lower(id) in users
    ensures r.Ok? ==> var old_ := users[Lower(id)];
                      && r.value.(firstName := old_.firstName, lastName := old_.lastName, updatedAt := old_.updatedAt) == old_
                      && r.value.updatedAt == now
                      && ("firstName" !in updates ==> r.value.firstName == old_.firstName)
                      && ("lastName" !in updates ==> r.value.lastName == old_.lastName)
  {
    if !IsObjectIdText(id) then Err(CastError(id))
    else if UpdateMessages(updates) != [] then Err(ValidationFailed("Validation failed: ", UpdateMessages(updates)))
    else if Lower(id) !in users then Err(NotFound("User", id))
    else
      var f := users[Lower(id)];
      Ok(f.(firstName := NameUpdate(updates, "firstName", f.firstName),
            lastName := NameUpdate(updates, "lastName", f.lastName),
            updatedAt := now))
  }

  /** `findByIdAndUpdate(id, { isActive: false }, { new: true })`. */
  function DeleteOutcome(users: map<string, UserFields>, id: string, now: int): (r: Result<UserFields, JsError>)
    ensures !IsObjectIdText(id) ==> r == Err(CastError(id))
    ensures IsObjectIdText(id) && Lower(id) !in users ==> r == Err(NotFound("User", id))
    ensures r.Ok? <==> IsObjectIdText(id) && Lower(id) in users
    ensures r.Ok? ==> r.value == users[Lower(id)].(isActive := false, updatedAt := now)
  {
    if !IsObjectIdText(id) then Err(CastError(id))
    else if Lower(id) !in users then Err(NotFound("User", id))
    else Ok(users[Lower(id)].(isActive := false, updatedAt := now))
  }

  /** `User.find({ isActive: true })` in natural order. */
  function ActiveUsers(ids: seq<string>, users: map<string, UserFields>): (r: seq<UserFields>)
    requires forall i :: 0 <= i < |ids| ==> ids[i] in users
    ensures |r| <= |ids|
    ensures forall u :: u in r ==> u.isActive && exists i :: 0 <= i < |ids| && users[ids[i]] == u
    ensures forall i :: 0 <= i < |ids| && users[ids[i]].isActive ==> users[ids[i]] in r
  {
    if ids == [] then []
    else
      var rest := ActiveUsers(ids[1..], users);
      assert forall i :: 1 <= i < |ids| ==> ids[i] == ids[1..][i - 1];
      if users[ids[0]].isActive then [users[ids[0]]] + rest else rest
  }

  class UserStore {
    var users: map<string, UserFields>
    var order: seq<string>

    ghost predicate Valid()
      reads this
    {
      ValidStore(users, order)
    }

    constructor ()
      ensures Valid() && users == map[] && order == []
    {
      users := map[];
      order := [];
    }

    /** `User.findById(id)`, with the repository's `NotFound` for a missing
        record: the result is never empty. */
    function FindById(id: string): (r: Result<UserFields, JsError>)
      reads this
      requires Valid()
      ensures !IsObjectIdText(id) ==> r == Err(CastError(id))
      ensures IsObjectIdText(id) && Lower(id) !in users ==> r == Err(NotFound("User", id))
      ensures r.Ok? <==> IsObjectIdText(id) && Lower(id) in users
      ensures r.Ok? ==> r.value == users[Lower(id)] && r.value.id == Lower(id) && r.value.password.Hashed?
    {
      if !IsObjectIdText(id) then Err(CastError(id))
      else if Lower(id) !in users then Err(NotFound("User", id))
      else Ok(users[Lower(id)])
    }

    /** `getUserById`: the loaded document. */
    method GetUserById(id: string) returns (r: Result<UserDocument, JsError>)
      requires Valid()
      ensures FindById(id).Err? ==> r == Err(FindById(id).error)
      ensures FindById(id).Ok? ==> && r.Ok? && fresh(r.value) && r.value.fields == FindById(id).value
                                   && !r.value.isNew && !r.value.passwordModified && r.value.Valid()
    {
      var found := FindById(id);
      if found.Err? {
        return Err(found.error);
      }
      var doc := new UserDocument.Loaded(found.value);
      r := Ok(doc);
    }

    /** `getUserByEmail`: the address is lowercased, and the query value
        then passes through the path's `trim` and `lowercase` setters, so the
        match is against the address as it would be stored. */
    function GetUserByEmail(email: string): (r: Option<UserFields>)
      reads this
      requires Valid()
      ensures r.Some? <==> exists o :: o in users && users[o].email == Lower(JsTrim(email))
      ensures r.Some? ==> r.value.id in users && users[r.value.id] == r.value && r.value.email == Lower(JsTrim(email))
    {
      var e := Lower(JsTrim(Lower(email)));
      JsTrimLower(email);
      LowerIdempotent(JsTrim(email));
      var p := (u: UserFields) => u.email == e;
      var r := FirstMatch(order, users, p);
      if r.None? then NoMatchAnywhere(order, users, p); r else r
    }

    /** `getUserByUsername`: the query value passes through the `trim`
        setter. */
    function GetUserByUsername(username: string): (r: Option<UserFields>)
      reads this
      requires Valid()
      ensures r.Some? <==> exists o :: o in users && users[o].username == JsTrim(username)
      ensures r.Some? ==> r.value.id in users && users[r.value.id] == r.value && r.value.username == JsTrim(username)
    {
      var u := JsTrim(username);
      var p := (f: UserFields) => f.username == u;
      var r := FirstMatch(order, users, p);
      if r.None? then NoMatchAnywhere(order, users, p); r else r
    }

    /** `doc.save()`: see `SaveOutcome`. A failure after the hook leaves the
        hashed password in the document. */
    method Save(doc: UserDocument, salt: string, now: int) returns (err: Option<JsError>)
      requires Valid() && doc.Valid()
      requires doc.isNew ==> IsCanonicalObjectId(doc.fields.id)
      modifies this, doc
      ensures Valid() && doc.Valid()
      ensures var out := SaveOutcome(old(users), old(doc.fields), old(doc.isNew), old(doc.passwordModified), salt, now);
              && (out.Ok? ==> && err.None? && users == out.value.users && doc.fields == out.value.doc
                              && !doc.isNew && !doc.passwordModified
                              && order == (if old(doc.isNew) then old(order) + [old(doc.fields.id)] else old(order)))
              && (out.Err? ==> && err == Some(out.error) && users == old(users) && order == old(order)
                               && doc.isNew == old(doc.isNew) && doc.passwordModified == old(doc.passwordModified)
                               && doc.fields == (if ValidationMessages(old(doc.fields)) == [] then
                                                   Hooked(old(doc.fields), old(doc.passwordModified), salt)
                                                 else old(doc.fields)))
    {
      var f, isNew, modified := doc.fields, doc.isNew, doc.passwordModified;
      var out := SaveOutcome(users, f, isNew, modified, salt, now);
      if ValidationMessages(f) == [] {
        doc.PreSave(salt);
      }
      if out.Err? {
        return Some(out.error);
      }
      SaveKeepsValid(users, order, f, isNew, modified, salt, now, out.value);
      users, order := out.value.users, if isNew then order + [f.id] else order;
      doc.fields, doc.isNew, doc.passwordModified := out.value.doc, false, false;
      err := None;
    }

    /** `createUser`: `User.create` with `role` defaulting to `'user'`;
        `oid` is the id the driver assigns. */
    method CreateUser(data: UserData, now: int, oid: string, salt: string) returns (r: Result<UserDocument, JsError>)
      requires Valid() && IsCanonicalObjectId(oid)
      modifies this
      ensures Valid()
      ensures var out := SaveOutcome(old(users), NewFields(data, oid, now), true, true, salt, now);
              && (out.Ok? ==> && r.Ok? && fresh(r.value) && r.value.fields == out.value.doc && !r.value.isNew
                              && users == out.value.users && order == old(order) + [oid])
              && (out.Err? ==> r == Err(out.error) && users == old(users) && order == old(order))
    {
      var doc := new UserDocument.Create(NewFields(data, oid, now));
      var err := Save(doc, salt, now);
      if err.Some? {
        return Err(err.value);
      }
      r := Ok(doc);
    }

    /** `updateUser`. */
    method UpdateUser(id: string, updates: map<string, UpdateValue>, now: int) returns (r: Result<UserFields, JsError>)
      requires Valid()
      modifies this
      ensures Valid() && order == old(order)
      ensures r == UpdateOutcome(old(users), id, updates, now)
      ensures r.Ok? ==> users == old(users)[Lower(id) := r.value]
      ensures r.Err? ==> users == old(users)
    {
      r := UpdateOutcome(users, id, updates, now);
      if r.Err? {
        return;
      }
      ReplaceKeepsValid(users, order, r.value);
      users := users[Lower(id) := r.value];
    }

    /** `deleteUser`: a soft delete; the record stays and is still found. */
    method DeleteUser(id: string, now: int) returns (r: Result<UserFields, JsError>)
      requires Valid()
      modifies this
      ensures Valid() && order == old(order) && users.Keys == old(users).Keys
      ensures r == DeleteOutcome(old(users), id, now)
      ensures r.Ok? ==> users == old(users)[Lower(id) := r.value] && FindById(id) == Ok(r.value) && !r.value.isActive
      ensures r.Err? ==> users == old(users)
    {
      r := DeleteOutcome(users, id, now);
      if r.Err? {
        return;
      }
      ReplaceKeepsValid(users, order, r.value);
      users := users[Lower(id) := r.value];
    }

    /** `getAllUsers`: active records only. */
    function GetAllUsers(): (r: seq<UserFields>)
      reads this
      requires Valid()
      ensures forall u :: u in r ==> u.isActive && u.id in users && users[u.id] == u
      ensures forall id :: id in users && users[id].isActive ==> users[id] in r
    {
      ActiveUsers(order, users)
    }
  }
}
