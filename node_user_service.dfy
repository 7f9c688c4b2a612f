/** The Node user service (`services/user.service.js`): registration,
    login, token refresh, profile reads and updates, and password changes,
    over the repository. */
module NodeUserService {
  import opened Common
  import opened NodeErrors
  import opened NodeUserModel
  import opened NodeUserRepository
  import opened NodeJwt
  import NodePassword

  const InvalidCredentials: string := "Invalid email or password"
  const Deactivated: string := "Account is deactivated"
  const WrongCurrentPassword: string := "Current password is incorrect"
  const PasswordChanged: string := "Password changed successfully"

  /** The token payload built from a record. */
  function PayloadOf(f: UserFields): Payload {
    Payload(f.id, f.email, f.username, f.role)
  }

  /** What `loginUser` returns. */
  datatype LoginResult = LoginResult(accessToken: NodeToken, refreshToken: NodeToken, user: PublicUser)

  /** The checks `loginUser` makes on the record found by email: a missing
      record, then a deactivated account, then the password. */
  function LoginCheck(found: Option<UserFields>, password: string): (r: Result<UserFields, JsError>)
    ensures r.Ok? <==> found.Some? && found.value.isActive && Matches(password, found.value.password)
    ensures r.Ok? ==> r.value == found.value
    ensures r.Err? ==> r.error == Unauthorized(Some(InvalidCredentials)) || r.error == Unauthorized(Some(Deactivated))
    ensures r == Err(Unauthorized(Some(Deactivated))) <==> found.Some? && !found.value.isActive
  {
    if found.None? then Err(Unauthorized(Some(InvalidCredentials)))
    else if !found.value.isActive then Err(Unauthorized(Some(Deactivated)))
    else if !Matches(password, found.value.password) then Err(Unauthorized(Some(InvalidCredentials)))
    else Ok(found.value)
  }

  /** An unknown email and a wrong password for an active account are
      answered alike. */
  lemma LoginFailuresIndistinguishable(u: UserFields, password: string)
    requires u.isActive && !Matches(password, u.password)
    ensures LoginCheck(None, password) == LoginCheck(Some(u), password) == Err(Unauthorized(Some(InvalidCredentials)))
  {
  }

  /** The account status is checked before the password, so a deactivated
      account is reported as such whatever password is given. */
  lemma DeactivationReportedWithoutPassword(u: UserFields, p: string, q: string)
    requires !u.isActive
    ensures LoginCheck(Some(u), p) == LoginCheck(Some(u), q) == Err(Unauthorized(Some(Deactivated)))
  {
  }

  // ---------------------------------------------------------------- registration

  /** Some record holds the address the lookup by email matches. */
  predicate EmailTaken(users: map<string, UserFields>, email: string) {
    exists o :: o in users && users[o].email == Lower(JsTrim(email))
  }

  predicate UsernameTaken(users: map<string, UserFields>, username: string) {
    exists o :: o in users && users[o].username == JsTrim(username)
  }

  /** The document `registerUser` creates: the role is left to the default. */
  function Registration(username: string, email: string, password: string, firstName: Option<string>,
                        lastName: Option<string>, oid: string, now: int): (f: UserFields)
    ensures f == NewFields(UserData(username, email, password, firstName, lastName, None), oid, now)
    ensures f.role == DefaultRole && f.password == Plain(password)
  {
    NewFields(UserData(username, email, password, firstName, lastName, None), oid, now)
  }

  /** The service's own lookups normalise the way the setters do, so once
      they find nothing the unique indexes on `username` and `email` cannot
      refuse the insert: the save fails only on validation or on an `_id`
      already in use. */
  lemma ChecksAgreeWithIndexes(users: map<string, UserFields>, username: string, email: string, password: string,
                               firstName: Option<string>, lastName: Option<string>, oid: string, now: int, salt: string)
    requires !EmailTaken(users, email) && !UsernameTaken(users, username)
    ensures var f := Registration(username, email, password, firstName, lastName, oid, now);
            ValidationMessages(f) == [] && SaveOutcome(users, f, true, true, salt, now).Err? ==>
              SaveOutcome(users, f, true, true, salt, now).error == DuplicateKey("_id")
  {
    var f := Registration(username, email, password, firstName, lastName, oid, now);
    var g := Hooked(f, true, salt);
    assert g.username == JsTrim(username) && g.email == Lower(JsTrim(email));
    assert !UsernameHeldByOther(users, g.username, g.id);
    assert !EmailHeldByOther(users, g.email, g.id);
    NewInsertRefusedOnlyById(users, g, now);
  }

  lemma NewInsertRefusedOnlyById(users: map<string, UserFields>, g: UserFields, now: int)
    requires !UsernameHeldByOther(users, g.username, g.id) && !EmailHeldByOther(users, g.email, g.id)
    ensures Write(users, g, true, true, now).Err? ==> Write(users, g, true, true, now).error == DuplicateKey("_id")
  {
  }

  /** A registered account can log in at once with its password, and with
      exactly the passwords that agree with it on the first 72 characters. */
  lemma RegisteredUserLogsIn(users: map<string, UserFields>, username: string, email: string, password: string,
                             firstName: Option<string>, lastName: Option<string>, oid: string, now: int, salt: string,
                             other: string)
    requires SaveOutcome(users, Registration(username, email, password, firstName, lastName, oid, now),
                         true, true, salt, now).Ok?
    ensures var stored := SaveOutcome(users, Registration(username, email, password, firstName, lastName, oid, now),
                                      true, true, salt, now).value.users[oid];
            && stored.email == Lower(JsTrim(email))
            && LoginCheck(Some(stored), password) == Ok(stored)
            && (LoginCheck(Some(stored), other).Ok? <==> Bcrypt.Significant(other) == Bcrypt.Significant(password))
  {
    var f := Registration(username, email, password, firstName, lastName, oid, now);
    assert SaveOutcome(users, f, true, true, salt, now).value.users[oid] == Hooked(f, true, salt);
    HookedPasswordLogsIn(f, password, salt, other);
  }

  /** How the hooked record of a new active account answers a login. */
  lemma HookedPasswordLogsIn(f: UserFields, password: string, salt: string, other: string)
    requires f.isActive && f.password == Plain(password)
    ensures LoginCheck(Some(Hooked(f, true, salt)), password) == Ok(Hooked(f, true, salt))
    ensures LoginCheck(Some(Hooked(f, true, salt)), other).Ok?
            <==> Bcrypt.Significant(other) == Bcrypt.Significant(password)
  {
    assert Hooked(f, true, salt).password == Hashed(NodePassword.HashPassword(password, salt));
    NodePassword.CompareOwnHash(password, other, salt);
  }

  // ---------------------------------------------------------------- profile updates

  /** The paths `updateUserProfile` lets through. */
  const AllowedKeys: seq<string> := ["firstName", "lastName"]

  /** The update document built from `updateData`: the allowed keys that
      are present (`null` included), with their values. */
  function AllowedUpdates(updateData: map<string, UpdateValue>): (r: map<string, UpdateValue>)
    ensures forall k :: k in r <==> k in updateData && (k == "firstName" || k == "lastName")
    ensures forall k :: k in r ==> r[k] == updateData[k]
  {
    map k | k in updateData && k in AllowedKeys :: updateData[k]
  }

  /** The loop over the allowed keys. */
  method SelectUpdates(updateData: map<string, UpdateValue>) returns (updates: map<string, UpdateValue>)
    ensures updates == AllowedUpdates(updateData)
  {
    updates := map[];
    var i := 0;
    while i < |AllowedKeys|
      invariant 0 <= i <= |AllowedKeys|
      invariant updates == map k | k in updateData && k in AllowedKeys[..i] :: updateData[k]
    {
      var key := AllowedKeys[i];
      assert AllowedKeys[..i + 1] == AllowedKeys[..i] + [key];
      if key in updateData {
        updates := updates[key := updateData[key]];
      }
      i := i + 1;
    }
    assert AllowedKeys[..i] == AllowedKeys;
  }

  /** The update can change the names and `updatedAt` and nothing else, and
      a key absent from `updateData` leaves its name as it was. */
  lemma ProfileUpdateTouchesOnlyNames(users: map<string, UserFields>, id: string,
                                      updateData: map<string, UpdateValue>, now: int)
    requires UpdateOutcome(users, id, AllowedUpdates(updateData), now).Ok?
    ensures var f := UpdateOutcome(users, id, AllowedUpdates(updateData), now).value;
            var before := users[Lower(id)];
            && f.(firstName := before.firstName, lastName := before.lastName, updatedAt := before.updatedAt) == before
            && ("firstName" !in updateData ==> f.firstName == before.firstName)
            && ("lastName" !in updateData ==> f.lastName == before.lastName)
  {
    var u := AllowedUpdates(updateData);
    assert "firstName" in u <==> "firstName" in updateData;
    assert "lastName" in u <==> "lastName" in updateData;
  }

  // ---------------------------------------------------------------- password change

  /** The stored password after `changePassword` as written: the new text is
      hashed by the service, and the hook then hashes that hash. */
  function ChangedSecretAsWritten(newPassword: string, hashSalt: string, hookSalt: string): Secret {
    Hooked(UserFields("", "", "", Hashed(NodePassword.HashPassword(newPassword, hashSalt)), None, None, "", true, 0, 0),
           true, hookSalt).password
  }

  /** After a password change as written a password matches the stored
      secret exactly when its first 72 characters are those of the
      intermediate hash text, so the new password does not match (unless it
      is 72 characters or more and starts with the hash tag). */
  lemma ChangedPasswordRejected(newPassword: string, hashSalt: string, hookSalt: string, q: string)
    ensures Bcrypt.ShortOrUntagged(newPassword)
            ==> !Matches(newPassword, ChangedSecretAsWritten(newPassword, hashSalt, hookSalt))
    ensures Matches(q, ChangedSecretAsWritten(newPassword, hashSalt, hookSalt))
            <==> Bcrypt.Significant(q) == Bcrypt.Significant(Bcrypt.Encode(NodePassword.HashPassword(newPassword, hashSalt)))
  {
    RehashedHashRejectsPlaintext(newPassword, hashSalt, hookSalt, q);
  }

  /** What a successful save of the changed document stores: the hook's
      hash of the assigned value, under the document's id. */
  lemma ChangedPasswordStored(users: map<string, UserFields>, f: UserFields, newPassword: string,
                              hashSalt: string, hookSalt: string, now: int)
    requires SaveOutcome(users, f.(password := Hashed(NodePassword.HashPassword(newPassword, hashSalt))), false, true,
                         hookSalt, now).Ok?
    ensures var out := SaveOutcome(users, f.(password := Hashed(NodePassword.HashPassword(newPassword, hashSalt))),
                                   false, true, hookSalt, now).value;
            && f.id in out.users
            && out.users[f.id].password == ChangedSecretAsWritten(newPassword, hashSalt, hookSalt)
            && (Bcrypt.ShortOrUntagged(newPassword) ==> !Matches(newPassword, out.users[f.id].password))
  {
    ChangedPasswordRejected(newPassword, hashSalt, hookSalt, newPassword);
  }

  /** The evident intent: assign the plaintext and let the hook hash it
      once. */
  function ChangedSecretIntended(newPassword: string, hookSalt: string): Secret {
    Hooked(UserFields("", "", "", Plain(newPassword), None, None, "", true, 0, 0), true, hookSalt).password
  }

  /** With one hash the new password matches, and so does exactly every
      password that agrees with it on the first 72 characters. */
  lemma IntendedChangeAccepted(newPassword: string, hookSalt: string, q: string)
    ensures Matches(newPassword, ChangedSecretIntended(newPassword, hookSalt))
    ensures Matches(q, ChangedSecretIntended(newPassword, hookSalt))
            <==> Bcrypt.Significant(q) == Bcrypt.Significant(newPassword)
  {
    NodePassword.CompareOwnHash(newPassword, q, hookSalt);
  }

  /** A user service over one store, with the token settings. */
  class UserService {
    const repo: UserStore
    const cfg: JwtConfig

    constructor (repo: UserStore, cfg: JwtConfig)
      ensures this.repo == repo && this.cfg == cfg
    {
      this.repo := repo;
      this.cfg := cfg;
    }

    /** `registerUser`: the strength rules, then the email and username
        checks, then `createUser` with the default role. */
    method RegisterUser(username: string, email: string, password: string, firstName: Option<string>,
                        lastName: Option<string>, now: int, oid: string, salt: string)
      returns (r: Result<PublicUser, JsError>)
      requires repo.Valid() && IsCanonicalObjectId(oid)
      modifies repo
      ensures repo.Valid()
      ensures var errors := NodePassword.BrokenAmong(Some(password), 5);
              && (errors != [] ==> r == Err(BadRequest("password", JoinText(errors, ", "))))
              && (errors == [] && EmailTaken(old(repo.users), email) ==>
                    r == Err(BadRequest("email", "Email already registered")))
              && (errors == [] && !EmailTaken(old(repo.users), email) && UsernameTaken(old(repo.users), username) ==>
                    r == Err(BadRequest("username", "Username already taken")))
      ensures var out := SaveOutcome(old(repo.users), Registration(username, email, password, firstName, lastName, oid, now),
                                     true, true, salt, now);
              (NodePassword.BrokenAmong(Some(password), 5) == [] && !EmailTaken(old(repo.users), email)
               && !UsernameTaken(old(repo.users), username)) ==>
                && (out.Ok? ==> r == Ok(PublicView(out.value.doc)) && repo.users == out.value.users
                                && repo.order == old(repo.order) + [oid])
                && (out.Err? ==> r == Err(out.error))
      ensures r.Err? ==> repo.users == old(repo.users) && repo.order == old(repo.order)
    {
      var strength := NodePassword.ValidatePasswordStrength(Some(password));
      if !strength.isValid {
        return Err(BadRequest("password", JoinText(strength.errors, ", ")));
      }
      if repo.GetUserByEmail(email).Some? {
        return Err(BadRequest("email", "Email already registered"));
      }
      if repo.GetUserByUsername(username).Some? {
        return Err(BadRequest("username", "Username already taken"));
      }
      var created := repo.CreateUser(UserData(username, email, password, firstName, lastName, None), now, oid, salt);
      if created.Err? {
        return Err(created.error);
      }
      r := Ok(created.value.ToJSON());
    }

    /** `loginUser`: two tokens with the same payload and the public view of
        the record. */
    function LoginUser(email: string, password: string, now: int): (r: Result<LoginResult, JsError>)
      reads repo
      requires repo.Valid()
      ensures var check := LoginCheck(repo.GetUserByEmail(email), password);
              && (check.Err? ==> r == Err(check.error))
              && (check.Ok? ==> && r.Ok? && r.value.user == PublicView(check.value)
                                && r.value.accessToken == Signed(Decoded(PayloadOf(check.value), At(now), At(now + cfg.accessLifetime), Unset),
                                                                 cfg.accessSecret)
                                && r.value.refreshToken == Signed(Decoded(PayloadOf(check.value), At(now), At(now + cfg.refreshLifetime), Unset),
                                                                  cfg.refreshSecret))
    {
      var check := LoginCheck(repo.GetUserByEmail(email), password);
      if check.Err? then Err(check.error)
      else
        var payload := PayloadOf(check.value);
        Ok(LoginResult(GenerateAccessToken(payload, cfg, now), GenerateRefreshToken(payload, cfg, now),
                       PublicView(check.value)))
    }

    /** `refreshAccessToken`: the refresh token's errors, then those of
        `getUserById`, then a deactivated account, propagate. */
    function RefreshAccessToken(refreshToken: NodeToken, now: int): (r: Result<NodeToken, JsError>)
      reads repo
      requires repo.Valid()
      ensures VerifyRefreshToken(refreshToken, cfg, now).Err? ==> r == Err(VerifyRefreshToken(refreshToken, cfg, now).error)
      ensures VerifyRefreshToken(refreshToken, cfg, now).Ok? ==>
                var found := repo.FindById(VerifyRefreshToken(refreshToken, cfg, now).value.payload.id);
                && (found.Err? ==> r == Err(found.error))
                && (found.Ok? && !found.value.isActive ==> r == Err(Unauthorized(Some(Deactivated))))
                && (found.Ok? && found.value.isActive ==>
                      r == Ok(Sign(PayloadOf(found.value), cfg.accessSecret, cfg.accessLifetime, now)))
    {
      var decoded := VerifyRefreshToken(refreshToken, cfg, now);
      if decoded.Err? then Err(decoded.error)
      else
        var found := repo.FindById(decoded.value.payload.id);
        if found.Err? then Err(found.error)
        else if !found.value.isActive then Err(Unauthorized(Some(Deactivated)))
        else Ok(GenerateAccessToken(PayloadOf(found.value), cfg, now))
    }

    /** A refresh token issued for an active account yields a new access
        token for the same payload until it expires, and is refused once the
        account is deactivated. */
    lemma RefreshWhileActive(id: string, issuedAt: int, now: int)
      requires repo.Valid() && id in repo.users
      requires issuedAt <= now < issuedAt + cfg.refreshLifetime
      ensures var t := GenerateRefreshToken(PayloadOf(repo.users[id]), cfg, issuedAt);
              && (repo.users[id].isActive ==>
                    RefreshAccessToken(t, now) == Ok(GenerateAccessToken(PayloadOf(repo.users[id]), cfg, now)))
              && (!repo.users[id].isActive ==> RefreshAccessToken(t, now) == Err(Unauthorized(Some(Deactivated))))
    {
      LowerIsCanonical(id);
    }

    /** `getUserProfile`. */
    function GetUserProfile(userId: string): (r: Result<PublicUser, JsError>)
      reads repo
      requires repo.Valid()
      ensures repo.FindById(userId).Err? ==> r == Err(repo.FindById(userId).error)
      ensures repo.FindById(userId).Ok? ==> r == Ok(PublicView(repo.users[Lower(userId)]))
    {
      var found := repo.FindById(userId);
      if found.Err? then Err(found.error) else Ok(PublicView(found.value))
    }

    /** `updateUserProfile`: only `firstName` and `lastName` pass; an update
        with neither is refused before the store is touched. */
    method UpdateUserProfile(userId: string, updateData: map<string, UpdateValue>, now: int)
      returns (r: Result<PublicUser, JsError>)
      requires repo.Valid()
      modifies repo
      ensures repo.Valid() && repo.order == old(repo.order)
      ensures AllowedUpdates(updateData) == map[] ==>
                r == Err(BadRequest("updateData", "No valid fields to update")) && repo.users == old(repo.users)
      ensures AllowedUpdates(updateData) != map[] ==>
                var out := UpdateOutcome(old(repo.users), userId, AllowedUpdates(updateData), now);
                && (out.Err? ==> r == Err(out.error) && repo.users == old(repo.users))
                && (out.Ok? ==> r == Ok(PublicView(out.value)) && repo.users == old(repo.users)[Lower(userId) := out.value])
    {
      var updates := SelectUpdates(updateData);
      if |updates| == 0 {
        return Err(BadRequest("updateData", "No valid fields to update"));
      }
      var updated := repo.UpdateUser(userId, updates, now);
      if updated.Err? {
        return Err(updated.error);
      }
      r := Ok(PublicView(updated.value));
    }

    /** `changePassword`: the current password is checked, then the new
        one's strength; the new hash is assigned and the document saved, so
        the hook hashes it again. */
    method ChangePassword(userId: string, oldPassword: string, newPassword: string, now: int,
                          hashSalt: string, hookSalt: string)
      returns (r: Result<string, JsError>)
      requires repo.Valid()
      modifies repo
      ensures repo.Valid()
      ensures var found := old(repo.FindById(userId));
              && (found.Err? ==> r == Err(found.error))
              && (found.Ok? && !Matches(oldPassword, found.value.password) ==>
                    r == Err(Unauthorized(Some(WrongCurrentPassword))))
              && (found.Ok? && Matches(oldPassword, found.value.password)
                  && NodePassword.BrokenAmong(Some(newPassword), 5) != [] ==>
                    r == Err(BadRequest("newPassword", JoinText(NodePassword.BrokenAmong(Some(newPassword), 5), ", "))))
      ensures var found := old(repo.FindById(userId));
              found.Ok? && Matches(oldPassword, found.value.password)
              && NodePassword.BrokenAmong(Some(newPassword), 5) == [] ==>
                var s := Hashed(NodePassword.HashPassword(newPassword, hashSalt));
                var out := SaveOutcome(old(repo.users), found.value.(password := s), false,
                                       found.value.password != s, hookSalt, now);
                && (out.Ok? ==> r == Ok(PasswordChanged) && repo.users == out.value.users)
                && (out.Err? ==> r == Err(out.error))
      ensures var found := old(repo.FindById(userId));
              var s := Hashed(NodePassword.HashPassword(newPassword, hashSalt));
              found.Ok? && r.Ok? && found.value.password != s ==>
                && Lower(userId) in repo.users
                && repo.users[Lower(userId)].password == ChangedSecretAsWritten(newPassword, hashSalt, hookSalt)
                && (Bcrypt.ShortOrUntagged(newPassword) ==> !Matches(newPassword, repo.users[Lower(userId)].password))
      ensures r.Err? ==> repo.users == old(repo.users)
      ensures repo.order == old(repo.order)
    {
      ghost var found := repo.FindById(userId);
      ghost var users0 := repo.users;
      var loaded := repo.GetUserById(userId);
      if loaded.Err? {
        return Err(loaded.error);
      }
      var doc := loaded.value;
      if !Matches(oldPassword, doc.fields.password) {
        return Err(Unauthorized(Some(WrongCurrentPassword)));
      }
      var strength := NodePassword.ValidatePasswordStrength(Some(newPassword));
      if !strength.isValid {
        return Err(BadRequest("newPassword", JoinText(strength.errors, ", ")));
      }
      doc.SetPassword(Hashed(NodePassword.HashPassword(newPassword, hashSalt)));
      var err := repo.Save(doc, hookSalt, now);
      if err.Some? {
        return Err(err.value);
      }
      r := Ok(PasswordChanged);
      if found.value.password != Hashed(NodePassword.HashPassword(newPassword, hashSalt)) {
        ChangedPasswordStored(users0, found.value, newPassword, hashSalt, hookSalt, now);
      }
    }
  }
}
