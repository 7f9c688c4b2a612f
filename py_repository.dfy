/** The Python user repository (`repositories/user_repository.py`) over an
    in-memory users collection. Documents are keyed by their `_id` (the
    lower-case hex text of an ObjectId, as `str(ObjectId)` gives it) and kept
    in insertion order, which is the collection's natural order. The unique
    indexes on `email` and `username` are part of the object invariant. */
module PyRepository {
  import opened Common
  import opened PyExceptions
  import opened PyUserModel
  import Bcrypt

  /** A stored user document. `isActive` is optional because the services
      read it as `user.get("is_active", True)`. */
  datatype UserDoc = UserDoc(
    id: string,
    email: string,
    username: string,
    fullName: Option<string>,
    passwordHash: Bcrypt.Hash,
    role: UserRole,
    isActive: Option<bool>,
    isVerified: bool,
    createdAt: int,
    updatedAt: int,
    lastLogin: Option<int>)

  /** `user.get("is_active", True)`: a missing flag counts as active. */
  predicate IsActive(u: UserDoc) {
    u.isActive.GetOr(true)
  }

  /** The dictionary a caller hands to `create_user`. */
  datatype NewUser = NewUser(email: string, username: string, fullName: Option<string>,
                             passwordHash: Bcrypt.Hash, role: Option<UserRole>)

  /** A `$set` document: `None` means the field is not set. */
  datatype Patch = Patch(fullName: Option<Option<string>>, email: Option<string>,
                         username: Option<string>, passwordHash: Option<Bcrypt.Hash>)

  /** The document `create_user` inserts: the caller's fields plus the
      defaults it always sets. */
  function NewDoc(data: NewUser, now: int, oid: string): (d: UserDoc)
    ensures d.id == oid && d.email == data.email && d.username == data.username
    ensures d.fullName == data.fullName && d.passwordHash == data.passwordHash
    ensures d.role == data.role.GetOr(DefaultRole)
    ensures d.isActive == Some(DefaultIsActive) && d.isVerified == DefaultIsVerified
    ensures d.createdAt == now && d.updatedAt == now && d.lastLogin == None
  {
    UserDoc(oid, data.email, data.username, data.fullName, data.passwordHash,
            data.role.GetOr(User), Some(true), false, now, now, None)
  }

  /** `$set` of the patch plus `updated_at`. */
  function ApplyPatch(d: UserDoc, p: Patch, now: int): (e: UserDoc)
    ensures e.fullName == (if p.fullName.Some? then p.fullName.value else d.fullName)
    ensures e.email == p.email.GetOr(d.email) && e.username == p.username.GetOr(d.username)
    ensures e.passwordHash == p.passwordHash.GetOr(d.passwordHash)
    ensures e.updatedAt == now
    ensures e.(fullName := d.fullName, email := d.email, username := d.username,
               passwordHash := d.passwordHash, updatedAt := d.updatedAt) == d
  {
    d.(fullName := if p.fullName.Some? then p.fullName.value else d.fullName,
       email := p.email.GetOr(d.email),
       username := p.username.GetOr(d.username),
       passwordHash := p.passwordHash.GetOr(d.passwordHash),
       updatedAt := now)
  }

  ghost predicate EmailTaken(docs: map<string, UserDoc>, email: string) {
    exists id :: id in docs && docs[id].email == email
  }

  ghost predicate UsernameTaken(docs: map<string, UserDoc>, username: string) {
    exists id :: id in docs && docs[id].username == username
  }

  predicate EmailHeldByOther(docs: map<string, UserDoc>, email: string, id: string) {
    exists other :: other in docs && other != id && docs[other].email == email
  }

  predicate UsernameHeldByOther(docs: map<string, UserDoc>, username: string, id: string) {
    exists other :: other in docs && other != id && docs[other].username == username
  }

  ghost predicate UniqueKeys(docs: map<string, UserDoc>) {
    forall a, b :: a in docs && b in docs && a != b ==>
      docs[a].email != docs[b].email && docs[a].username != docs[b].username
  }

  /** The collection invariant: each document is filed under its own
      canonical id, `order` lists every id exactly once, and the unique
      indexes hold. */
  ghost predicate ValidStore(docs: map<string, UserDoc>, order: seq<string>) {
    && (forall id :: id in docs ==> docs[id].id == id && IsCanonicalObjectId(id))
    && (forall i :: 0 <= i < |order| ==> order[i] in docs)
    && (forall id :: id in docs ==> id in order)
    && (forall i, j :: 0 <= i < j < |order| ==> order[i] != order[j])
    && UniqueKeys(docs)
  }

  /** Inserting a document under a new id that collides with no other
      document keeps the invariant. */
  lemma InsertKeepsValid(docs: map<string, UserDoc>, order: seq<string>, d: UserDoc)
    requires ValidStore(docs, order) && d.id !in docs && IsCanonicalObjectId(d.id)
    requires !EmailHeldByOther(docs, d.email, d.id) && !UsernameHeldByOther(docs, d.username, d.id)
    ensures ValidStore(docs[d.id := d], order + [d.id])
  {
    var docs', order' := docs[d.id := d], order + [d.id];
    forall id | id in docs' ensures docs'[id].id == id && IsCanonicalObjectId(id) {
      if id != d.id { assert docs'[id] == docs[id]; }
    }
    forall i | 0 <= i < |order'| ensures order'[i] in docs' {
      if i < |order| { assert order'[i] == order[i]; }
    }
    forall id | id in docs' ensures id in order' {
      if id != d.id { assert id in order; }
    }
    forall i, j | 0 <= i < j < |order'| ensures order'[i] != order'[j] {
      if j == |order| { assert order[i] in docs; } else { assert order'[i] == order[i] && order'[j] == order[j]; }
    }
    UpdateKeepsUnique(docs, d);
  }

  /** Filing a document that collides with no other keeps the unique
      indexes. */
  lemma UpdateKeepsUnique(docs: map<string, UserDoc>, d: UserDoc)
    requires UniqueKeys(docs)
    requires !EmailHeldByOther(docs, d.email, d.id) && !UsernameHeldByOther(docs, d.username, d.id)
    ensures UniqueKeys(docs[d.id := d])
  {
    var docs' := docs[d.id := d];
    forall a, b | a in docs' && b in docs' && a != b
      ensures docs'[a].email != docs'[b].email && docs'[a].username != docs'[b].username
    {
      if a == d.id {
        assert docs'[b] == docs[b];
      } else if b == d.id {
        assert docs'[a] == docs[a];
      } else {
        assert docs'[a] == docs[a] && docs'[b] == docs[b];
      }
    }
  }

  /** Replacing the document under an existing id by one with the same id
      that collides with no other document keeps the invariant. */
  lemma ReplaceKeepsValid(docs: map<string, UserDoc>, order: seq<string>, d: UserDoc)
    requires ValidStore(docs, order) && d.id in docs
    requires !EmailHeldByOther(docs, d.email, d.id) && !UsernameHeldByOther(docs, d.username, d.id)
    ensures ValidStore(docs[d.id := d], order)
  {
    var docs' := docs[d.id := d];
    assert docs'.Keys == docs.Keys;
    UpdateKeepsUnique(docs, d);
    forall id | id in docs' ensures docs'[id].id == id && IsCanonicalObjectId(id) {
      if id != d.id { assert docs'[id] == docs[id]; }
    }
  }

  /** A replacement that keeps email and username collides with nothing. */
  lemma SameKeysDoNotCollide(docs: map<string, UserDoc>, order: seq<string>, d: UserDoc)
    requires ValidStore(docs, order) && d.id in docs
    requires d.email == docs[d.id].email && d.username == docs[d.id].username
    ensures !EmailHeldByOther(docs, d.email, d.id) && !UsernameHeldByOther(docs, d.username, d.id)
  {
  }

  class UserRepository {
    var docs: map<string, UserDoc>
    var order: seq<string>

    ghost predicate Valid()
      reads this
    {
      ValidStore(docs, order)
    }

    constructor ()
      ensures Valid() && docs == map[] && order == []
    {
      docs := map[];
      order := [];
    }

    /** `get_user_by_email`: exact (case-sensitive) match. */
    function GetUserByEmail(email: string): (r: Option<UserDoc>)
      reads this
      requires Valid()
      ensures r.Some? <==> EmailTaken(docs, email)
      ensures r.Some? ==> r.value.id in docs && docs[r.value.id] == r.value && r.value.email == email
    {
      var p := (u: UserDoc) => u.email == email;
      var r := FirstMatch(order, docs, p);
      if r.None? then NoMatchAnywhere(order, docs, p); r else r
    }

    /** `get_user_by_username`: exact (case-sensitive) match. */
    function GetUserByUsername(username: string): (r: Option<UserDoc>)
      reads this
      requires Valid()
      ensures r.Some? <==> UsernameTaken(docs, username)
      ensures r.Some? ==> r.value.id in docs && docs[r.value.id] == r.value && r.value.username == username
    {
      var p := (u: UserDoc) => u.username == username;
      var r := FirstMatch(order, docs, p);
      if r.None? then NoMatchAnywhere(order, docs, p); r else r
    }

    /** `get_user_by_id`: `ObjectId(user_id)` rejects text that is not 24
        hex digits; otherwise the lookup is by the canonical id. */
    function GetUserById(userId: string): (r: Result<Option<UserDoc>, Raised>)
      reads this
      requires Valid()
      ensures !IsObjectIdText(userId) <==> r == Err(Other("InvalidId"))
      ensures r.Ok? && r.value.Some? ==> r.value.value.id == Lower(userId) && r.value.value.id in docs
                                         && docs[Lower(userId)] == r.value.value
      ensures r.Ok? && r.value.None? ==> Lower(userId) !in docs
    {
      if !IsObjectIdText(userId) then Err(Other("InvalidId"))
      else if Lower(userId) in docs then Ok(Some(docs[Lower(userId)]))
      else Ok(None)
    }

    /** `create_user`: sets the defaults and a fresh `_id` (`oid`, chosen by
        the driver) and inserts; a unique index that would be violated
        raises a duplicate-key error and nothing is stored. */
    method CreateUser(data: NewUser, now: int, oid: string) returns (r: Result<UserDoc, Raised>)
      requires Valid() && IsCanonicalObjectId(oid)
      modifies this
      ensures Valid()
      ensures r == (if oid in old(docs) then Err(DuplicateKey("_id"))
                    else if EmailHeldByOther(old(docs), data.email, oid) then Err(DuplicateKey("email"))
                    else if UsernameHeldByOther(old(docs), data.username, oid) then Err(DuplicateKey("username"))
                    else Ok(NewDoc(data, now, oid)))
      ensures r.Ok? ==> docs == old(docs)[oid := r.value] && order == old(order) + [oid]
      ensures r.Err? ==> docs == old(docs) && order == old(order)
    {
      if oid in docs {
        return Err(DuplicateKey("_id"));
      }
      if EmailHeldByOther(docs, data.email, oid) {
        return Err(DuplicateKey("email"));
      }
      if UsernameHeldByOther(docs, data.username, oid) {
        return Err(DuplicateKey("username"));
      }
      var d := NewDoc(data, now, oid);
      InsertKeepsValid(docs, order, d);
      docs := docs[oid := d];
      order := order + [oid];
      r := Ok(d);
    }

    /** `update_user`: `$set` of the patch and `updated_at`; `None` when no
        document has the id. */
    method UpdateUser(userId: string, patch: Patch, now: int) returns (r: Result<Option<UserDoc>, Raised>)
      requires Valid()
      modifies this
      ensures Valid() && order == old(order)
      ensures !IsObjectIdText(userId) ==> r == Err(Other("InvalidId")) && docs == old(docs)
      ensures IsObjectIdText(userId) && Lower(userId) !in old(docs) ==> r == Ok(None) && docs == old(docs)
      ensures IsObjectIdText(userId) && Lower(userId) in old(docs) ==>
                var id := Lower(userId);
                var e := ApplyPatch(old(docs)[id], patch, now);
                if EmailHeldByOther(old(docs), e.email, id) then r == Err(DuplicateKey("email")) && docs == old(docs)
                else if UsernameHeldByOther(old(docs), e.username, id) then r == Err(DuplicateKey("username")) && docs == old(docs)
                else r == Ok(Some(e)) && docs == old(docs)[id := e]
    {
      if !IsObjectIdText(userId) {
        return Err(Other("InvalidId"));
      }
      var id := Lower(userId);
      if id !in docs {
        return Ok(None);
      }
      LowerIsCanonical(userId);
      var e := ApplyPatch(docs[id], patch, now);
      if EmailHeldByOther(docs, e.email, id) {
        return Err(DuplicateKey("email"));
      }
      if UsernameHeldByOther(docs, e.username, id) {
        return Err(DuplicateKey("username"));
      }
      ReplaceKeepsValid(docs, order, e);
      docs := docs[id := e];
      r := Ok(Some(e));
    }

    /** `update_last_login`: sets only `last_login`; true iff a document was
        modified (setting the value it already has modifies nothing). */
    method UpdateLastLogin(userId: string, now: int) returns (r: Result<bool, Raised>)
      requires Valid()
      modifies this
      ensures Valid() && order == old(order)
      ensures !IsObjectIdText(userId) ==> r == Err(Other("InvalidId")) && docs == old(docs)
      ensures IsObjectIdText(userId) ==>
                var id := Lower(userId);
                r == Ok(id in old(docs) && old(docs)[id].lastLogin != Some(now))
                && docs == (if id in old(docs) then old(docs)[id := old(docs)[id].(lastLogin := Some(now))] else old(docs))
    {
      if !IsObjectIdText(userId) {
        return Err(Other("InvalidId"));
      }
      var id := Lower(userId);
      if id !in docs {
        return Ok(false);
      }
      var d := docs[id].(lastLogin := Some(now));
      var modified := docs[id].lastLogin != Some(now);
      SameKeysDoNotCollide(docs, order, d);
      ReplaceKeepsValid(docs, order, d);
      docs := docs[id := d];
      r := Ok(modified);
    }

    /** `delete_user`: a soft delete. Sets `is_active` to false and bumps
        `updated_at`; the document stays. True iff it was modified. */
    method DeleteUser(userId: string, now: int) returns (r: Result<bool, Raised>)
      requires Valid()
      modifies this
      ensures Valid() && order == old(order) && docs.Keys == old(docs).Keys
      ensures !IsObjectIdText(userId) ==> r == Err(Other("InvalidId")) && docs == old(docs)
      ensures IsObjectIdText(userId) ==>
                var id := Lower(userId);
                r == Ok(id in old(docs) && (old(docs)[id].isActive != Some(false) || old(docs)[id].updatedAt != now))
                && docs == (if id in old(docs) then old(docs)[id := old(docs)[id].(isActive := Some(false), updatedAt := now)]
                            else old(docs))
    {
      if !IsObjectIdText(userId) {
        return Err(Other("InvalidId"));
      }
      var id := Lower(userId);
      if id !in docs {
        return Ok(false);
      }
      var d := docs[id];
      var e := d.(isActive := Some(false), updatedAt := now);
      var modified := d.isActive != Some(false) || d.updatedAt != now;
      SameKeysDoNotCollide(docs, order, e);
      ReplaceKeepsValid(docs, order, e);
      docs := docs[id := e];
      r := Ok(modified);
    }

    /** `get_all_users(skip, limit)`: at most `limit` documents of the
        natural order, after skipping `skip`. */
    function GetAllUsers(skip: nat, limit: nat): (r: seq<UserDoc>)
      reads this
      requires Valid() && limit >= 1
      ensures |r| <= limit
      ensures |r| == if skip >= |order| then 0 else if |order| - skip < limit then |order| - skip else limit
      ensures forall i :: 0 <= i < |r| ==> r[i] == docs[order[skip + i]]
    {
      var page := if skip >= |order| then [] else order[skip..];
      var ids := if |page| <= limit then page else page[..limit];
      var store := docs;
      seq(|ids|, i requires 0 <= i < |ids| => store[ids[i]])
    }
  }
}
