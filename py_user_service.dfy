/** The Python profile service (`services/user_service.py`): lookups mapped
    to the public `UserResponse` (which has no password field), the profile
    update with its conflict checks, listing and deactivation. */
module PyUserService {
  import opened Common
  import opened PyExceptions
  import opened PyUserModel
  import opened PyRepository

  /** `UserResponse`: the stored record without `password_hash`. */
  datatype UserResponse = UserResponse(
    id: string, email: string, username: string, fullName: Option<string>, role: UserRole,
    isActive: bool, isVerified: bool, createdAt: int, lastLogin: Option<int>)

  /** Building a `UserResponse` from a record: `user["is_active"]` raises
      `KeyError` when the flag is missing. */
  function ToResponse(u: UserDoc): (r: Result<UserResponse, Raised>)
    ensures u.isActive.None? <==> r == Err(Other("KeyError"))
    ensures r.Ok? ==> && r.value.id == u.id && r.value.email == u.email && r.value.username == u.username
                      && r.value.fullName == u.fullName && r.value.role == u.role
                      && r.value.isActive == u.isActive.value && r.value.isVerified == u.isVerified
                      && r.value.createdAt == u.createdAt && r.value.lastLogin == u.lastLogin
  {
    if u.isActive.None? then Err(Other("KeyError"))
    else Ok(UserResponse(u.id, u.email, u.username, u.fullName, u.role, u.isActive.value,
                         u.isVerified, u.createdAt, u.lastLogin))
  }

  function NotFoundMessage(userId: string): string {
    "User with ID " + userId + " not found"
  }

  /** The list comprehension of `get_all_users`: one response per record, in
      order; the first failing record aborts the whole list. */
  function ToResponses(users: seq<UserDoc>): (r: Result<seq<UserResponse>, Raised>)
    ensures r.Ok? <==> forall i :: 0 <= i < |users| ==> users[i].isActive.Some?
    ensures r.Ok? ==> |r.value| == |users| && forall i :: 0 <= i < |users| ==> ToResponse(users[i]) == Ok(r.value[i])
    ensures r.Err? ==> r.error == Other("KeyError")
  {
    if users == [] then Ok([])
    else
      var head := ToResponse(users[0]);
      var tail := ToResponses(users[1..]);
      if head.Err? then Err(head.error)
      else if tail.Err? then Err(tail.error)
      else Ok([head.value] + tail.value)
  }

  /** `existing_user["_id"] != user_id`: the comparison is against the id
      text as the caller passed it. */
  ghost predicate EmailConflict(docs: map<string, UserDoc>, email: string, userId: string) {
    exists o :: o in docs && docs[o].email == email && o != userId
  }

  ghost predicate UsernameConflict(docs: map<string, UserDoc>, username: string, userId: string) {
    exists o :: o in docs && docs[o].username == username && o != userId
  }

  /** The `$set` document of `update_data.dict(exclude_unset=True)`: only
      the fields the client sent. */
  function PatchOf(u: UserUpdate): (p: Patch)
    ensures p.fullName == u.fullName && p.email == u.email && p.username == u.username
    ensures p.passwordHash.None?
  {
    Patch(u.fullName, u.email, u.username, None)
  }

  /** With the stored (canonical) id, as the controllers pass it, a conflict
      is exactly a value held by a different record. */
  lemma ConflictOnlyWithOthers(docs: map<string, UserDoc>, email: string, userId: string)
    requires IsCanonicalObjectId(userId)
    ensures EmailConflict(docs, email, userId) <==> EmailHeldByOther(docs, email, Lower(userId))
    ensures UsernameConflict(docs, email, userId) <==> UsernameHeldByOther(docs, email, Lower(userId))
  {
  }

  /** The email check of `update_user_profile` (`existing_user["_id"] !=
      user_id` on what `get_user_by_email` found) fires exactly on a
      conflict. */
  lemma EmailLookupDecides(docs: map<string, UserDoc>, order: seq<string>, email: string, userId: string,
                           found: Option<UserDoc>)
    requires ValidStore(docs, order)
    requires found.Some? <==> EmailTaken(docs, email)
    requires found.Some? ==> found.value.id in docs && docs[found.value.id] == found.value && found.value.email == email
    ensures (found.Some? && found.value.id != userId) <==> EmailConflict(docs, email, userId)
  {
    if found.Some? && found.value.id == userId {
      forall o | o in docs && docs[o].email == email
        ensures o == userId
      {
        assert o == found.value.id;
      }
    }
  }

  /** The same for the username check. */
  lemma UsernameLookupDecides(docs: map<string, UserDoc>, order: seq<string>, username: string, userId: string,
                              found: Option<UserDoc>)
    requires ValidStore(docs, order)
    requires found.Some? <==> UsernameTaken(docs, username)
    requires found.Some? ==> found.value.id in docs && docs[found.value.id] == found.value
                             && found.value.username == username
    ensures (found.Some? && found.value.id != userId) <==> UsernameConflict(docs, username, userId)
  {
    if found.Some? && found.value.id == userId {
      forall o | o in docs && docs[o].username == username
        ensures o == userId
      {
        assert o == found.value.id;
      }
    }
  }

  class UserService {
    const repo: UserRepository

    constructor (repo: UserRepository)
      ensures this.repo == repo
    {
      this.repo := repo;
    }

    /** `get_user_by_id`. */
    function GetUserById(userId: string): (r: Result<UserResponse, Raised>)
      reads repo
      requires repo.Valid()
      ensures !IsObjectIdText(userId) ==> r == Err(Other("InvalidId"))
      ensures IsObjectIdText(userId) && Lower(userId) !in repo.docs ==> r == Err(NotFoundFailure(NotFoundMessage(userId)))
      ensures IsObjectIdText(userId) && Lower(userId) in repo.docs ==> r == ToResponse(repo.docs[Lower(userId)])
    {
      var found := repo.GetUserById(userId);
      if found.Err? then Err(found.error)
      else if found.value.None? then Err(NotFoundFailure(NotFoundMessage(userId)))
      else ToResponse(found.value.value)
    }

    /** `get_all_users(skip, limit)`. */
    function GetAllUsers(skip: nat, limit: nat): (r: Result<seq<UserResponse>, Raised>)
      reads repo
      requires repo.Valid() && limit >= 1
      ensures r.Ok? ==> |r.value| == |repo.GetAllUsers(skip, limit)| <= limit
      ensures r.Ok? ==> forall i :: 0 <= i < |r.value| ==> r.value[i].id == repo.order[skip + i]
    {
      ToResponses(repo.GetAllUsers(skip, limit))
    }

    /** `update_user_profile`: the user must exist before any conflict is
        looked at; then the email, then the username, is checked against
        other records; only the sent fields are written. */
    method UpdateUserProfile(userId: string, updateData: UserUpdate, now: int) returns (r: Result<UserResponse, Raised>)
      requires repo.Valid()
      modifies repo
      ensures repo.Valid() && repo.order == old(repo.order)
      ensures !IsObjectIdText(userId) ==> r == Err(Other("InvalidId")) && repo.docs == old(repo.docs)
      ensures IsObjectIdText(userId) && Lower(userId) !in old(repo.docs) ==>
                r == Err(NotFoundFailure(NotFoundMessage(userId))) && repo.docs == old(repo.docs)
      ensures IsObjectIdText(userId) && Lower(userId) in old(repo.docs) ==>
                var emailClash := updateData.email.Some? && EmailConflict(old(repo.docs), updateData.email.value, userId);
                var usernameClash := updateData.username.Some?
                                     && UsernameConflict(old(repo.docs), updateData.username.value, userId);
                var e := ApplyPatch(old(repo.docs)[Lower(userId)], PatchOf(updateData), now);
                if emailClash then r == Err(ConflictFailure("Email already in use")) && repo.docs == old(repo.docs)
                else if usernameClash then r == Err(ConflictFailure("Username already in use")) && repo.docs == old(repo.docs)
                else repo.docs == old(repo.docs)[Lower(userId) := e] && r == ToResponse(e)
    {
      var user := repo.GetUserById(userId);
      if user.Err? {
        return Err(user.error);
      }
      if user.value.None? {
        return Err(NotFoundFailure(NotFoundMessage(userId)));
      }
      var updateDict := PatchOf(updateData);
      if updateDict.email.Some? {
        var existing := repo.GetUserByEmail(updateDict.email.value);
        EmailLookupDecides(repo.docs, repo.order, updateDict.email.value, userId, existing);
        if existing.Some? && existing.value.id != userId {
          return Err(ConflictFailure("Email already in use"));
        }
      }
      if updateDict.username.Some? {
        var existing := repo.GetUserByUsername(updateDict.username.value);
        UsernameLookupDecides(repo.docs, repo.order, updateDict.username.value, userId, existing);
        if existing.Some? && existing.value.id != userId {
          return Err(ConflictFailure("Username already in use"));
        }
      }
      NoConflictMeansNoCollision(userId, updateData, now);
      ghost var e := ApplyPatch(repo.docs[Lower(userId)], updateDict, now);
      var updated := repo.UpdateUser(userId, updateDict, now);
      assert updated == Ok(Some(e));
      r := ToResponse(updated.value.value);
    }

    /** When neither check of `update_user_profile` fired, the unique
        indexes accept the update. */
    lemma NoConflictMeansNoCollision(userId: string, updateData: UserUpdate, now: int)
      requires repo.Valid() && IsObjectIdText(userId) && Lower(userId) in repo.docs
      requires updateData.email.Some? ==> !EmailConflict(repo.docs, updateData.email.value, userId)
      requires updateData.username.Some? ==> !UsernameConflict(repo.docs, updateData.username.value, userId)
      ensures var id := Lower(userId);
              var e := ApplyPatch(repo.docs[id], PatchOf(updateData), now);
              !EmailHeldByOther(repo.docs, e.email, id) && !UsernameHeldByOther(repo.docs, e.username, id)
    {
      var id := Lower(userId);
      var e := ApplyPatch(repo.docs[id], PatchOf(updateData), now);
      forall o | o in repo.docs && o != id
        ensures repo.docs[o].email != e.email && repo.docs[o].username != e.username
      {
        assert repo.docs[o].id == o && Lower(o) == o;
      }
    }

    /** `deactivate_user`: NotFound for a missing record, otherwise the
        soft-delete result. */
    method DeactivateUser(userId: string, now: int) returns (r: Result<bool, Raised>)
      requires repo.Valid()
      modifies repo
      ensures repo.Valid() && repo.order == old(repo.order) && repo.docs.Keys == old(repo.docs).Keys
      ensures !IsObjectIdText(userId) ==> r == Err(Other("InvalidId")) && repo.docs == old(repo.docs)
      ensures IsObjectIdText(userId) && Lower(userId) !in old(repo.docs) ==>
                r == Err(NotFoundFailure(NotFoundMessage(userId))) && repo.docs == old(repo.docs)
      ensures IsObjectIdText(userId) && Lower(userId) in old(repo.docs) ==>
                var id := Lower(userId);
                var d := old(repo.docs)[id];
                && r == Ok(d.isActive != Some(false) || d.updatedAt != now)
                && repo.docs == old(repo.docs)[id := d.(isActive := Some(false), updatedAt := now)]
                && !IsActive(repo.docs[id])
    {
      var user := repo.GetUserById(userId);
      if user.Err? {
        return Err(user.error);
      }
      if user.value.None? {
        return Err(NotFoundFailure(NotFoundMessage(userId)));
      }
      r := repo.DeleteUser(userId, now);
    }
  }
}
