# A verified model of the code-submission platform's core

The platform is a set of micro-services:

- a **user service**, written twice: once in Node/Express/Mongoose and once in Python/FastAPI/Motor. It handles registration, login, JWT access and refresh tokens, profiles, password changes and soft deletion.
- a **problem service**, whose request bodies are checked with Zod.
- a **submission service**. It declares Joi schemas for its request bodies and queries, although its controller applies none of them and hands `req.body` to the service as it is. It builds the code to run from a problem's code stub, queues it, and retries failed evaluation webhooks with exponential back-off.
- an **evaluator service**. It picks an executor by language, runs every test case and posts the evaluation back.
- a **React front end**. It keeps tokens in local storage, turns HTTP errors into messages and groups problems into topics.

Each core source file is one Dafny module, and the dependencies between modules follow the imports of the source:

- Pure code (validators, token helpers, error mapping, message builders) becomes datatypes, functions and lemmas.
- Code that changes state becomes classes with `modifies` clauses. This covers the repositories over a collection, the services that own a repository, the Mongoose document with its pre-save hook, the local-storage token store, the submission store updated by the webhook retry, and the submission payload the submission service rewrites.
- Loops in the source (the test-case loop, the retry loop, the grouping loop, the allowed-keys loop) are `method`s with loop invariants. Each is proved equal to a specification function, and that function's properties are proved as lemmas.
- The password rules of `validatePasswordStrength`, five successive `if … push` statements, are a straight-line `method` that appends to a local list. It is proved equal to the function that lists the broken rules.

What the model takes as parameters instead of doing itself:

- The clock (`now`).
- Random salts and generated object ids (`salt`, `oid`).
- The outcome of running code in a container (`Runner`).
- HTTP posts (`Poster`) and the problem-service fetch (`Fetch`).
- The database's answer to a submission insert that passed validation (`Insert`): the assigned id, or a rejection.
- `JSON.parse`/`JSON.stringify` and the JWT decoder of the front end.

The bcrypt hash is a stand-in. Like bcrypt, it reads only the first 72 bytes of a password (characters, since the model's text is ASCII), so two passwords that agree there have the same hash. For a fixed salt it is injective in those 72 characters.

Module map:

- common.dfy: Option/Result, ASCII character classes, trim/lower/split, JavaScript values.
- bcrypt.dfy, node_password.dfy, node_jwt.dfy, node_errors.dfy, node_user_model.dfy, node_user_repository.dfy, node_user_service.dfy, node_auth_middleware.dfy: the Node user service.
- py_exceptions.dfy, py_jwt.dfy, py_user_model.dfy, py_repository.dfy, py_auth_service.dfy, py_user_service.dfy, py_auth_middleware.dfy, server_config.dfy: the Python user service.
- api_response.dfy, code_creator.dfy, submission_validator.dfy, submission_service.dfy, webhook_retry.dfy: the submission service.
- executor_factory.dfy, submission_job.dfy: the evaluator service.
- problem_validator.dfy: the problem service's request schemas.
- token_manager.dfy, frontend_error_handler.dfy, problem_list.dfy: the front end.

## Model

| member | source | states |
|---|---|---|
| Bcrypt.Significant | User-Service/src/utils/password.utils.js:8-11 | the part of a password bcrypt reads: the whole of it up to 72 characters, else its first 72 |
| Bcrypt.HashPassword | User-Service/src/utils/password.utils.js:8-11 | the hash records the cost and the salt it was made with, and its digest covers exactly the significant part |
| Bcrypt.CompareOwnHash | User-Service/src/utils/password.utils.js:19-21 | a password compares true against its own hash, for every salt and cost |
| Bcrypt.CompareOnlyOwnHash | User-Service/src/utils/password.utils.js:19-21 | a password compares true against the hash of `p` iff its first 72 characters are those of `p` |
| Bcrypt.TailIgnored | User-Service/src/utils/password.utils.js:19-21 | whatever follows the first 72 characters of a long password is ignored |
| Bcrypt.EncodedHashIsNotPlaintext | User-Service/src/models/user.model.js:56-61 | the stored text of a hash differs from its plaintext in the first 72 characters whenever the plaintext is shorter than 72 characters or does not start with `$2b$` |
| NodePassword.HashPassword | User-Service/src/utils/password.utils.js:8-11 | cost 10 (`genSalt(10)`), and the password matches its hash |
| NodePassword.CompareOwnHash | User-Service/src/utils/password.utils.js:19-21 | `comparePassword` (NodePassword.ComparePassword) accepts the hashed password, and another password iff it agrees with it on the first 72 characters |
| NodePassword.ValidatePasswordStrength | User-Service/src/utils/password.utils.js:28-55 | the pushed messages are those of the broken rules, in rule order; isValid holds iff no message was pushed |
| NodePassword.StrengthMeansPolicy | User-Service/src/utils/password.utils.js:28-55 | no message iff the password exists, has at least 8 characters, and has an upper-case letter, a lower-case letter, a digit and a special character; at most 5 messages; each broken rule reported exactly once |
| NodePassword.BrokenAmongExact | User-Service/src/utils/password.utils.js:31-49 | a rule's message appears iff that rule is broken |
| NodePassword.BrokenAmongOnce | User-Service/src/utils/password.utils.js:31-49 | each message appears at most once |
| NodePassword.MessageNotAmongEarlier | User-Service/src/utils/password.utils.js:31-49 | the earlier checks never push a later rule's message |
| NodePassword.BrokenAmongEmpty | User-Service/src/utils/password.utils.js:51-54 | the error list is empty iff none of the checks fails |
| NodePassword.MessagesDistinct | User-Service/src/utils/password.utils.js:32-48 | the five rule messages are pairwise different |
| NodePassword.MissingPasswordErrors | User-Service/src/utils/password.utils.js:31-49 | a missing password is tested by the regexes as "undefined", so every rule but the lower-case one is reported |
| NodeJwt.Sign | User-Service/src/utils/jwt.utils.js:9-24 | the token carries the payload, iat = now, exp = now + expiresIn, and the signing key |
| NodeJwt.Verify | User-Service/src/utils/jwt.utils.js:31-50 | ok iff the token is signed with that key, any nbf is a number not after now and any exp a number after now; otherwise a JsonWebTokenError, a TokenExpiredError, or a NotBeforeError exactly while now is before nbf |
| NodeJwt.GenerateAccessToken | User-Service/src/utils/jwt.utils.js:9-13 | the token carries the payload, and verifying it at once gives it back iff the access lifetime is positive, TokenExpiredError otherwise |
| NodeJwt.GenerateRefreshToken | User-Service/src/utils/jwt.utils.js:20-24 | the same with the refresh secret and lifetime |
| NodeJwt.VerifyAccessToken | User-Service/src/utils/jwt.utils.js:31-37 | ok iff signed with JWT_SECRET and current; the decoded token is returned unchanged |
| NodeJwt.VerifyRefreshToken | User-Service/src/utils/jwt.utils.js:44-50 | ok iff signed with JWT_REFRESH_SECRET and current; the decoded token is returned unchanged |
| NodeJwt.SignVerifyRoundTrip | User-Service/src/utils/jwt.utils.js:9-50 | a generated token verifies to its own payload until its lifetime ends, then fails as expired |
| NodeJwt.KindsSeparatedOnlyBySecret | User-Service/src/utils/jwt.utils.js:9-50 | with distinct secrets each kind of token is refused where the other is expected; with equal secrets a refresh token passes as an access token |
| NodeErrors.ErrorHandler | User-Service/src/utils/errorHandler.js:5-64 | a BaseError keeps its status, message and details; a ValidationError gives 400, duplicate key 11000 gives 409 "&lt;field&gt; already exists", JsonWebTokenError gives 401 "Invalid token", TokenExpiredError 401 "Token expired", anything else 500 "Something went wrong"; library errors carry their message as `error` |
| NodeErrors.HandlerMapsLibraryErrors | User-Service/src/utils/errorHandler.js:17-63 | the response for each library error the services raise |
| NodeErrors.BaseErrorCheckedFirst | User-Service/src/utils/errorHandler.js:8-15 | the BaseError rule wins even when the error's name or code would match a later rule |
| NodeAuthMiddleware.ExtractToken | User-Service/src/middleware/auth.middleware.js:11-18 | ok iff the header is present and starts with "Bearer "; the token is the rest of the header; otherwise Unauthorized "No token provided" |
| NodeAuthMiddleware.RefusalFor | User-Service/src/middleware/auth.middleware.js:27-57 | always 401; Unauthorized keeps its message; fixed messages for the JWT errors and the catch-all |
| NodeAuthMiddleware.Verdict | User-Service/src/middleware/auth.middleware.js:8-58 | accepted iff the header has a Bearer token that verifies as an access token; the result is the decoded payload; every refusal is 401 |
| NodeAuthMiddleware.CatchAllOnlyBeforeNotBefore | User-Service/src/middleware/auth.middleware.js:27-57 | every refusal is "No token provided", "Invalid token", "Token expired" or "Authentication failed", and the last is sent exactly for a Bearer token whose nbf lies in the future |
| NodeAuthMiddleware.AccessTokensAccepted | User-Service/src/middleware/auth.middleware.js:8-26 | an access token is accepted until it expires and refused as expired afterwards |
| NodeAuthMiddleware.RefreshTokensRefused | User-Service/src/middleware/auth.middleware.js:37-43 | a refresh token signed with a different secret is refused as invalid |
| NodeAuthMiddleware.Authenticate | User-Service/src/middleware/auth.middleware.js:8-58 | on success `req.user` is the decoded payload and no refusal is sent; on failure the refusal is sent and the request is unchanged |
| NodeUserModel.NewFields | User-Service/src/models/user.model.js:4-52 | the trim and lowercase setters, the role default for a missing or empty role, isActive true, both timestamps now |
| NodeUserModel.SettersIdempotent | User-Service/src/models/user.model.js:9-19 | stored values are fixed points of their setters |
| NodeUserModel.ValidationMeansSchema | User-Service/src/models/user.model.js:5-44 | no validation message iff the username is 3..30 word characters, the email matches `\S+@\S+\.\S+`, the password has at least 8 characters, the names have at most 50, and the role is user or admin |
| NodeUserModel.ChecksPass | User-Service/src/models/user.model.js:5-44 | the message list is empty iff every path's check passes |
| NodeUserModel.UsernameCheckMeans | User-Service/src/models/user.model.js:5-13 | the username check passes iff the length is 3..30 and every character is a word character |
| NodeUserModel.ShortPlaintextRejected | User-Service/src/models/user.model.js:22-26 | the password minimum applies to the text as assigned, before hashing |
| NodeUserModel.Rehash | User-Service/src/models/user.model.js:56-61 | the hook stores a cost-10 hash that the previous text of the path matches |
| NodeUserModel.RehashedHashRejectsPlaintext | User-Service/src/models/user.model.js:56-61 | after re-hashing a stored hash, a password matches iff it agrees with the hash text on the first 72 characters, so the original plaintext stops matching when it is shorter than 72 characters or does not start with `$2b$` |
| NodeUserModel.ToJSONDropsOnlyPassword | User-Service/src/models/user.model.js:63-67 | toJSON does not depend on the password, and together with the password it gives back the whole document |
| NodeUserModel.UserDocument.SetPassword | User-Service/src/models/user.model.js:56-58 | assigning marks the path modified iff the value changes |
| NodeUserModel.UserDocument.PreSave | User-Service/src/models/user.model.js:56-61 | a modified password is re-hashed; otherwise the document is unchanged |
| NodeUserModel.UserDocument.ToJSON | User-Service/src/models/user.model.js:63-67 | the public view of the document |
| NodeUserRepository.InsertKeepsValid | User-Service/src/models/user.model.js:5-21 | an insert that collides with no unique key keeps the collection invariant |
| NodeUserRepository.UniqueAfterInsert | User-Service/src/models/user.model.js:8-17 | the unique email and username indexes still hold after such an insert |
| NodeUserRepository.ReplaceKeepsValid | User-Service/src/repositories/user.repository.js:83-120 | replacing a record while keeping its keys keeps the invariant |
| NodeUserRepository.UniqueAfterReplace | User-Service/src/repositories/user.repository.js:83-120 | the indexes still hold after such a replacement |
| NodeUserRepository.Hooked | User-Service/src/models/user.model.js:56-61 | the document after the pre-save hook |
| NodeUserRepository.Write | User-Service/src/repositories/user.repository.js:12-27 | an insert adds exactly the new record under a fresh id; an update keeps the ids; failures are duplicate-key or document-not-found errors |
| NodeUserRepository.SaveOutcome | User-Service/src/models/user.model.js:4-61 | after a successful save, a modified password's text matches the stored hash |
| NodeUserRepository.SaveChecksSchema | User-Service/src/models/user.model.js:4-46 | a successful save wrote a document that meets the schema; a document that does not is refused with the ValidationError of its failing paths |
| NodeUserRepository.SaveKeepsValid | User-Service/src/repositories/user.repository.js:12-27 | a successful save keeps the collection invariant |
| NodeUserRepository.UpdateOutcome | User-Service/src/repositories/user.repository.js:83-98 | a cast error for a malformed id; NotFound for a missing record; only the updated names plus updatedAt change |
| NodeUserRepository.DeleteOutcome | User-Service/src/repositories/user.repository.js:105-120 | the soft delete sets isActive false; a missing record gives NotFound |
| NodeUserRepository.ActiveUsers | User-Service/src/repositories/user.repository.js:126-134 | exactly the active stored records |
| NodeUserRepository.UserStore.FindById | User-Service/src/repositories/user.repository.js:34-45 | the record under the id, a cast error for malformed ids, NotFound otherwise |
| NodeUserRepository.UserStore.GetUserById | User-Service/src/repositories/user.repository.js:34-45 | a loaded, unmodified document with the stored fields |
| NodeUserRepository.UserStore.GetUserByEmail | User-Service/src/repositories/user.repository.js:52-60 | found iff some record holds the trimmed, lower-cased address |
| NodeUserRepository.UserStore.GetUserByUsername | User-Service/src/repositories/user.repository.js:67-75 | found iff some record holds the trimmed username |
| NodeUserRepository.UserStore.Save | User-Service/src/models/user.model.js:56-61 | validation, then the hook, then the write; on failure the collection is unchanged |
| NodeUserRepository.UserStore.CreateUser | User-Service/src/repositories/user.repository.js:12-27 | User.create with a role defaulting to "user"; the id is appended to the natural order on success |
| NodeUserRepository.UserStore.UpdateUser | User-Service/src/repositories/user.repository.js:83-98 | the store afterwards is the old store with the updated record |
| NodeUserRepository.UserStore.DeleteUser | User-Service/src/repositories/user.repository.js:105-120 | the record stays, deactivated, and is still found by id |
| NodeUserRepository.UserStore.GetAllUsers | User-Service/src/repositories/user.repository.js:126-134 | every active record and nothing else |
| NodeUserService.LoginCheck | User-Service/src/services/user.service.js:61-75 | ok iff the record exists, is active and the password matches; "Account is deactivated" iff the record exists and is inactive |
| NodeUserService.LoginFailuresIndistinguishable | User-Service/src/services/user.service.js:62-75 | an unknown email and a wrong password get the same error |
| NodeUserService.DeactivationReportedWithoutPassword | User-Service/src/services/user.service.js:66-69 | the account status is checked before the password |
| NodeUserService.Registration | User-Service/src/services/user.service.js:40 | the created document leaves the role to its default |
| NodeUserService.ChecksAgreeWithIndexes | User-Service/src/services/user.service.js:27-40 | when the service's lookups find no clash, the insert cannot clash on email or username |
| NodeUserService.NewInsertRefusedOnlyById | User-Service/src/services/user.service.js:40 | the only duplicate-key failure left is the `_id` |
| NodeUserService.RegisteredUserLogsIn | User-Service/src/services/user.service.js:19-99 | a registered account logs in with its password, and with another password iff it agrees with it on the first 72 characters |
| NodeUserService.AllowedUpdates | User-Service/src/services/user.service.js:161-168 | exactly the present firstName/lastName keys, with their values |
| NodeUserService.SelectUpdates | User-Service/src/services/user.service.js:161-168 | the loop builds AllowedUpdates |
| NodeUserService.ProfileUpdateTouchesOnlyNames | User-Service/src/services/user.service.js:158-183 | the update changes only the names and updatedAt, and an absent key leaves its name as it was |
| NodeUserService.ChangedPasswordRejected | User-Service/src/services/user.service.js:209-214 | as written, a password matches the doubly hashed secret iff it agrees with the intermediate hash text on the first 72 characters, so the new password does not match when it is shorter than 72 characters or does not start with `$2b$` |
| NodeUserService.ChangedPasswordStored | User-Service/src/services/user.service.js:209-214 | when the save of the assigned hash succeeds, the record holds the doubly hashed secret, which the new password does not match when it is shorter than 72 characters or does not start with `$2b$` |
| NodeUserService.IntendedChangeAccepted | User-Service/src/services/user.service.js:209-214 | with a single hash the new password matches, and another password iff it agrees with it on the first 72 characters |
| NodeUserService.UserService.RegisterUser | User-Service/src/services/user.service.js:19-50 | the strength errors, then "Email already registered", then "Username already taken", then the create; the store is unchanged on every error |
| NodeUserService.UserService.LoginUser | User-Service/src/services/user.service.js:58-99 | on success, two tokens with the same payload and lifetimes from the configuration, plus the public view |
| NodeUserService.UserService.RefreshAccessToken | User-Service/src/services/user.service.js:106-135 | the refresh token's error, then getUserById's, then "Account is deactivated"; otherwise a fresh access token for the record |
| NodeUserService.UserService.RefreshWhileActive | User-Service/src/services/user.service.js:106-135 | a refresh token of an active account yields an access token, and is refused once the account is deactivated |
| NodeUserService.UserService.GetUserProfile | User-Service/src/services/user.service.js:142-150 | the public view of the record, or getUserById's error |
| NodeUserService.UserService.UpdateUserProfile | User-Service/src/services/user.service.js:158-183 | "No valid fields to update" before the store is touched; otherwise the repository update |
| NodeUserService.UserService.ChangePassword | User-Service/src/services/user.service.js:192-225 | the lookup error, "Current password is incorrect", the strength errors in turn; then the hashed new password is assigned and saved, and after a successful change that replaced the password the stored secret is the double hash, which the new password does not match |
| PyExceptions.NewBase | User-Service/src/utils/exceptions.py:7-13 | the message is kept and the status code defaults to 400 |
| PyExceptions.New | User-Service/src/utils/exceptions.py:16-55 | each subclass has its fixed status and default message |
| PyExceptions.StatusIdentifiesKind | User-Service/src/utils/exceptions.py:16-55 | the status code determines the subclass |
| PyExceptions.StatusCodesAreFixed | User-Service/src/utils/exceptions.py:16-55 | the status codes are 400, 401, 403, 404, 409 and 500 |
| PyServerConfig.GetCorsOrigins | User-Service/src/config/server_config.py:20-24 | "*" gives ["*"]; otherwise one stripped origin per comma-separated piece |
| PyServerConfig.CorsPiecesCoverSetting | User-Service/src/config/server_config.py:24 | the pieces joined with commas give back the setting |
| PyServerConfig.CorsOriginsAreStripped | User-Service/src/config/server_config.py:24 | every origin is stripped and contains no comma |
| PyServerConfig.DefaultsAllowEveryOrigin | User-Service/src/config/server_config.py:12-14 | port 8001, host 0.0.0.0, every origin allowed |
| PyJwt.Lifetime | User-Service/src/utils/jwt_utils.py:24-27 | a given non-zero delta wins; an absent or zero delta (falsy) gives the default |
| PyJwt.Issue | User-Service/src/utils/jwt_utils.py:22-30 | the claims are the data plus exp and type, and nothing else changes |
| PyJwt.CreateAccessToken | User-Service/src/utils/jwt_utils.py:11-32 | type "access", exp = now + lifetime (15 minutes by default) |
| PyJwt.CreateRefreshToken | User-Service/src/utils/jwt_utils.py:35-56 | type "refresh", exp = now + lifetime (7 days by default) |
| PyJwt.IntOf | User-Service/src/utils/jwt_utils.py:73 | a time claim is read as an integer: a number as itself, text that strips to an optionally signed integer as its value |
| PyJwt.DecodeToken | User-Service/src/utils/jwt_utils.py:59-76 | ok iff signed with the secret and the claims pass the library's checks (iat an integer, nbf an integer not after now, exp an integer not before now, no aud, sub and jti strings, no at_hash); the claims come back unchanged; the expiry error only for an integer exp before now |
| PyJwt.RegisteredClaimsChecked | User-Service/src/utils/jwt_utils.py:72-76 | a non-string sub, any aud, and an nbf after now are refused |
| PyJwt.ExpTextRead | User-Service/src/utils/jwt_utils.py:73 | an exp given as the text "123" counts as 123 |
| PyJwt.IssuedClaimsValid | User-Service/src/utils/jwt_utils.py:22-76 | an issued token's claims pass iff the caller's data passes and now is not past exp |
| PyJwt.TokenTypesExclusive | User-Service/src/utils/jwt_utils.py:79-90 | `verify_token_type` (PyJwt.VerifyTokenType) accepts a payload for at most one expected type |
| PyJwt.VerifyTokenTypeMissing | User-Service/src/utils/jwt_utils.py:79-90 | a payload without "type" matches no expected type |
| PyJwt.AccessTokenRoundTrip | User-Service/src/utils/jwt_utils.py:11-76 | an access token whose data passes the claim checks decodes to its own claims, with type access, until it expires |
| PyJwt.RefreshTokenRoundTrip | User-Service/src/utils/jwt_utils.py:35-76 | the same for refresh tokens |
| PyJwt.DecodeRejects | User-Service/src/utils/jwt_utils.py:72-76 | a wrong key or a past exp is refused |
| PyJwt.DefaultLifetimes | User-Service/src/config/auth_config.py:13-14 | 900 seconds and 604800 seconds; a zero delta counts as absent |
| PyUserModel.ParseRole | User-Service/src/models/user_model.py:11-14 | parsing inverts the enum value |
| PyUserModel.RoleRoundTrip | User-Service/src/models/user_model.py:11-14 | only "user" and "admin" parse, and each role round-trips |
| PyUserModel.LengthRule | User-Service/src/models/user_model.py:20-26 | passes iff the length is within the bounds |
| PyUserModel.PasswordRule | User-Service/src/models/user_model.py:26-37 | passes iff the password is strong; a length error first, then digit, upper and lower in that order |
| PyUserModel.RemoveSeparators | User-Service/src/models/user_model.py:42 | no '_' or '-' is left |
| PyUserModel.RemoveSeparatorsAllAlnum | User-Service/src/models/user_model.py:42 | the stripped text is all alphanumeric iff every character is alphanumeric or a separator |
| PyUserModel.RemoveSeparatorsNonEmpty | User-Service/src/models/user_model.py:42 | the stripped text is non-empty iff some character is not a separator |
| PyUserModel.UsernameRule | User-Service/src/models/user_model.py:20-44 | the length bounds are checked before the character set |
| PyUserModel.UsernameRuleMeansPolicy | User-Service/src/models/user_model.py:20-44 | passes iff 3..50 characters, all alphanumeric, '_' or '-', and at least one alphanumeric |
| PyUserModel.OnlySeparatorsRejected | User-Service/src/models/user_model.py:42-43 | "_-_" is refused because `isalnum` of "" is false |
| PyUserModel.FullNameRule | User-Service/src/models/user_model.py:21 | passes iff the name is absent or has at most 100 characters |
| PyUserModel.UserCreateErrors | User-Service/src/models/user_model.py:17-44 | no error iff the username, full name and password are all acceptable |
| PyUserModel.UserUpdateErrors | User-Service/src/models/user_model.py:47-51 | no error iff the given fields meet their length bounds |
| PyUserModel.UpdateSkipsUsernameCharset | User-Service/src/models/user_model.py:47-51 | an update accepts a username the create schema refuses |
| PyUserModel.PasswordChangeErrors | User-Service/src/models/user_model.py:90-104 | no error iff the new password is strong; at most one error |
| PyRepository.NewDoc | User-Service/src/repositories/user_repository.py:43-50 | the caller's fields plus timestamps, is_active true, is_verified false and the role default |
| PyRepository.ApplyPatch | User-Service/src/repositories/user_repository.py:143-149 | `$set` of the given fields plus updated_at; nothing else changes |
| PyRepository.InsertKeepsValid | User-Service/src/repositories/user_repository.py:245-246 | an insert that collides with no unique key keeps the invariant |
| PyRepository.ReplaceKeepsValid | User-Service/src/repositories/user_repository.py:245-246 | so does a replacement that collides with no other record |
| PyRepository.SameKeysDoNotCollide | User-Service/src/repositories/user_repository.py:245-246 | a replacement that keeps email and username collides with nothing |
| PyRepository.UserRepository.GetUserByEmail | User-Service/src/repositories/user_repository.py:59-80 | found iff some record has exactly that email |
| PyRepository.UserRepository.GetUserByUsername | User-Service/src/repositories/user_repository.py:82-103 | found iff some record has exactly that username |
| PyRepository.UserRepository.GetUserById | User-Service/src/repositories/user_repository.py:105-126 | InvalidId iff the text is not an ObjectId; otherwise the record or None |
| PyRepository.UserRepository.CreateUser | User-Service/src/repositories/user_repository.py:29-57 | the new document is added under the fresh id; duplicate keys are refused and the store is kept |
| PyRepository.UserRepository.UpdateUser | User-Service/src/repositories/user_repository.py:128-159 | the patched record, None for a missing id, InvalidId for a malformed one |
| PyRepository.UserRepository.UpdateLastLogin | User-Service/src/repositories/user_repository.py:161-183 | sets last_login only; true iff a record was modified |
| PyRepository.UserRepository.DeleteUser | User-Service/src/repositories/user_repository.py:185-211 | a soft delete; true iff a record was modified |
| PyRepository.UserRepository.GetAllUsers | User-Service/src/repositories/user_repository.py:213-237 | the records at positions skip.. of the natural order, at most limit of them |
| PyAuthService.AccessClaims | User-Service/src/services/auth_service.py:69-71 | the claims are exactly sub and role |
| PyAuthService.RefreshClaims | User-Service/src/services/auth_service.py:72-74 | the claims are exactly sub |
| PyAuthService.IssueTokens | User-Service/src/services/auth_service.py:68-81 | both tokens have the same subject; the access token also carries the role |
| PyAuthService.RegisteredDoc | User-Service/src/services/auth_service.py:53-63 | role user, active, and a hash the password matches |
| PyAuthService.LoginCheck | User-Service/src/services/auth_service.py:97-109 | ok iff found, password matches and active; "Account is deactivated" only after a correct password |
| PyAuthService.LoginFailuresIndistinguishable | User-Service/src/services/auth_service.py:100-105 | an unknown email and a wrong password get the same error |
| PyAuthService.RegisteredUserLogsIn | User-Service/src/services/auth_service.py:30-127 | a registered user logs in with the password; another password logs in iff it agrees with it on the first 72 characters, and otherwise gets the invalid-credentials error |
| PyAuthService.ChangedPasswordTakesEffect | User-Service/src/services/auth_service.py:202-206 | after a change the new password logs in; the old one still does iff it agrees with the new one on the first 72 characters, and otherwise gets the invalid-credentials error |
| PyAuthService.AuthService.Authenticate | User-Service/src/services/auth_service.py:142-175 | the JWT error message, then "Invalid token type", "Invalid token payload", "User not found", "Account is deactivated" in that order; a non-string sub is refused by the decoder, with the JWT error message |
| PyAuthService.AuthService.RefreshAccessToken | User-Service/src/services/auth_service.py:129-175 | a new access token exactly when the refresh token authenticates its user |
| PyAuthService.AuthService.VerifyTokenAndGetUser | User-Service/src/services/auth_service.py:212-251 | the stored user of a valid access token |
| PyAuthService.AuthService.RegisterUser | User-Service/src/services/auth_service.py:30-81 | "Email already registered", then "Username already taken", then insert and tokens; the store is unchanged on error |
| PyAuthService.AuthService.LoginUser | User-Service/src/services/auth_service.py:83-127 | the LoginCheck error, or last_login updated and tokens issued |
| PyAuthService.AuthService.ChangePassword | User-Service/src/services/auth_service.py:177-210 | "User not found", "Current password is incorrect", else the new hash is stored |
| PyAuthService.AuthService.IssuedTokensAuthenticate | User-Service/src/services/auth_service.py:212-251 | an issued access token authenticates its user until it expires; the refresh token is refused as an access token |
| PyAuthService.AuthService.DeactivatedUserRejected | User-Service/src/services/auth_service.py:160-162 | a deactivated user is refused whatever the token |
| PyUserService.ToResponse | User-Service/src/services/user_service.py:39-49 | a KeyError iff is_active is missing; otherwise the stored fields without the hash |
| PyUserService.ToResponses | User-Service/src/services/user_service.py:114-127 | one response per record, in order, or a KeyError |
| PyUserService.PatchOf | User-Service/src/services/user_service.py:72 | only the set fields, never the password |
| PyUserService.ConflictOnlyWithOthers | User-Service/src/services/user_service.py:75-84 | with a canonical id, a conflict means another record holds the key |
| PyUserService.UserService.GetUserById | User-Service/src/services/user_service.py:21-49 | NotFound "User with ID … not found" for a missing record |
| PyUserService.UserService.GetAllUsers | User-Service/src/services/user_service.py:101-127 | the repository's page, converted in order |
| PyUserService.UserService.UpdateUserProfile | User-Service/src/services/user_service.py:51-99 | not found, then the email conflict, then the username conflict, then the update |
| PyUserService.UserService.NoConflictMeansNoCollision | User-Service/src/services/user_service.py:74-87 | when neither conflict check fires, the update keeps the unique indexes |
| PyUserService.UserService.DeactivateUser | User-Service/src/services/user_service.py:129-152 | NotFound for a missing record, otherwise the soft delete |
| PyAuthMiddleware.Unauthorized | User-Service/src/middleware/auth_middleware.py:38-51 | 401 with a Bearer challenge; an authentication error keeps its message, anything else gives "Could not validate credentials" |
| PyAuthMiddleware.GetCurrentUser | User-Service/src/middleware/auth_middleware.py:18-51 | the verified user, or a 401 |
| PyAuthMiddleware.ActiveGuard | User-Service/src/middleware/auth_middleware.py:69-74 | a 403 "Inactive user" for an inactive user |
| PyAuthMiddleware.AdminGuard | User-Service/src/middleware/auth_middleware.py:92-97 | a 403 "Admin access required" for a non-admin |
| PyAuthMiddleware.GetCurrentActiveUser | User-Service/src/middleware/auth_middleware.py:54-74 | every user it returns is active |
| PyAuthMiddleware.RequireAdmin | User-Service/src/middleware/auth_middleware.py:77-97 | every user it returns is an active admin |
| PyAuthMiddleware.InactiveAdminRejectedAsInactive | User-Service/src/middleware/auth_middleware.py:69-97 | the guards run in order, so an inactive admin sees "Inactive user" |
| PyAuthMiddleware.InactiveUserSeesUnauthorized | User-Service/src/middleware/auth_middleware.py:69-74 | the 403 "Inactive user" is never reached, because token verification already refuses deactivated accounts |
| ApiResponse.Success | Submission-Service/src/utils/apiResponse.js:2-10 | success true, the data, the message (default "Success"), no error |
| ApiResponse.Error | Submission-Service/src/utils/apiResponse.js:12-20 | success false; a falsy error becomes the message, and falsy data becomes null |
| ApiResponse.Paginated | Submission-Service/src/utils/apiResponse.js:22-36 | the page holds the offset, `(page-1)*limit <= offset < page*limit`, and `pages` is the least count covering total |
| ApiResponse.FirstPage | Submission-Service/src/utils/apiResponse.js:31 | offsets below the limit are on page 1 |
| ApiResponse.PageCount | Submission-Service/src/utils/apiResponse.js:32 | pages is the ceiling of total / limit |
| ApiResponse.PageWithinCount | Submission-Service/src/utils/apiResponse.js:31-32 | an offset below total is on a page no later than the last |
| CodeCreator.Combine | Submission-Service/src/utils/codeCreator.js:8-12 | start, newline, user code, newline, end: each part sits at a fixed position |
| CodeCreator.UserCodeRecoverable | Submission-Service/src/utils/codeCreator.js:9-11 | with the snippets fixed, the combined code determines the user code |
| ExecutorFactory.CreateExecutor | Evaluator-Service/src/utils/ExecutorFactory.ts:6-16 | the executor for the lower-cased language; null for anything other than python, java or cpp |
| ExecutorFactory.DispatchIgnoresCase | Evaluator-Service/src/utils/ExecutorFactory.ts:7-12 | the choice depends only on the lower-cased name |
| SubmissionJob.ResultFor | Evaluator-Service/src/jobs/SubmissionJob.ts:45-75 | PASS iff the executor's status is SUCCESS; a throw is a FAIL carrying the message |
| SubmissionJob.CountPassed | Evaluator-Service/src/jobs/SubmissionJob.ts:52-53 | never more than the number of results |
| SubmissionJob.CountPassedExtremes | Evaluator-Service/src/jobs/SubmissionJob.ts:52-92 | the count is zero iff every result failed, and equals the number of results iff every result passed |
| SubmissionJob.CountPassedAppend | Evaluator-Service/src/jobs/SubmissionJob.ts:52-53 | a new result adds one to the count iff it passed |
| SubmissionJob.Overall | Evaluator-Service/src/jobs/SubmissionJob.ts:87-92 | SUCCESS iff all passed, FAILED iff none passed, PARTIAL otherwise |
| SubmissionJob.RunTestCases | Evaluator-Service/src/jobs/SubmissionJob.ts:43-77 | one result per test case, in order, each ResultFor its case; the counter equals CountPassed |
| SubmissionJob.Summary | Evaluator-Service/src/jobs/SubmissionJob.ts:79-95 | the counts add up, the overall status follows Overall, and the execution time is end - start |
| SubmissionJob.FirstEntry | Evaluator-Service/src/jobs/SubmissionJob.ts:24-29 | the first key's submission data, if any |
| SubmissionJob.Handle | Evaluator-Service/src/jobs/SubmissionJob.ts:21-104 | no job: nothing; missing data: "Invalid payload…"; unknown language: "No executor found for language: …"; otherwise the evaluation of every test case |
| SubmissionJob.Evaluated | Evaluator-Service/src/jobs/SubmissionJob.ts:43-77 | one result per test case |
| SubmissionJob.EvaluatedMeansLoop | Evaluator-Service/src/jobs/SubmissionJob.ts:43-77 | the loop's results are the per-case results |
| SubmissionJob.EvaluationCounts | Evaluator-Service/src/jobs/SubmissionJob.ts:81-95 | passedTestCases is the number of passing indexes; passed + failed = total |
| SubmissionJob.CountIsPassSet | Evaluator-Service/src/jobs/SubmissionJob.ts:52-53 | the counter equals the size of the set of passing indexes |
| SubmissionJob.OverallStatusMeaning | Evaluator-Service/src/jobs/SubmissionJob.ts:87-92 | SUCCESS iff every case passed, FAILED iff none did |
| WebhookRetry.Power | Submission-Service/src/services/webhookRetryService.js:24 | at least 1 for a base of at least 1 |
| WebhookRetry.RetryDelay | Submission-Service/src/services/webhookRetryService.js:21-29 | min(5000 · 2^attempts, 3600000) |
| WebhookRetry.CalculateNextRetry | Submission-Service/src/services/webhookRetryService.js:21-29 | the next retry is strictly after now and at most an hour later |
| WebhookRetry.PowerMonotone | Submission-Service/src/services/webhookRetryService.js:24 | powers of the multiplier grow with the exponent |
| WebhookRetry.DelayMonotone | Submission-Service/src/services/webhookRetryService.js:21-29 | more attempts never shorten the delay |
| WebhookRetry.DelaySchedule | Submission-Service/src/services/webhookRetryService.js:6-29 | the delay doubles up to 9 attempts and is capped from 10 on |
| WebhookRetry.WebhookUrl | Submission-Service/src/services/webhookRetryService.js:36-37 | a non-empty configured URL unchanged; otherwise the default URL around the submission id |
| WebhookRetry.BodyOf | Submission-Service/src/services/webhookRetryService.js:41-50 | the stored evaluation fields copied into the body |
| WebhookRetry.SendWebhookCallback | Submission-Service/src/services/webhookRetryService.js:34-70 | success with the response status on delivery; the error message otherwise |
| WebhookRetry.RetryOne | Submission-Service/src/services/webhookRetryService.js:88-118 | skips records at 5 attempts or more; success clears the retry state; failure increments attempts and schedules the next retry; other records untouched |
| WebhookRetry.RetryStep | Submission-Service/src/services/webhookRetryService.js:88-118 | one step keeps the ids and changes at most the record retried |
| WebhookRetry.RetryAll | Submission-Service/src/services/webhookRetryService.js:75-125 | the loop neither adds nor removes a record |
| WebhookRetry.RetryAllFrame | Submission-Service/src/services/webhookRetryService.js:75-125 | records not in the failed list are not changed, and no record is added or removed |
| WebhookRetry.SubmissionStore.RetryFailedWebhooks | Submission-Service/src/services/webhookRetryService.js:75-125 | the store afterwards is RetryAll of the failed list |
| WebhookRetry.SubmissionStore.UpdateResolved | Submission-Service/src/services/webhookRetryService.js:98-105 | the record's webhook state is cleared |
| WebhookRetry.SubmissionStore.IncrementWebhookAttempt | Submission-Service/src/services/webhookRetryService.js:106-115 | attempts + 1 and the new next-retry time |
| SubmissionService.FindStub | Submission-Service/src/services/submissionService.js:42-45 | the first stub whose language equals the submission's, ignoring case |
| SubmissionService.FindStubIgnoresCase | Submission-Service/src/services/submissionService.js:42-45 | the match depends only on the lower-cased language |
| SubmissionService.RequiredCheck | Submission-Service/src/models/submissionModel.js:4-8 | a `required` string path passes iff its value is non-empty; otherwise it reports the path and its message |
| SubmissionService.SubmissionValidationMessages | Submission-Service/src/models/submissionModel.js:4-21 | no message iff userId, problemId, code and language are all non-empty; at most four messages, one per missing path in schema order |
| SubmissionService.EmptyUserIdRefused | Submission-Service/src/models/submissionModel.js:4-8 | a body with `userId: ""` and the other paths present gets exactly "userId: User id for the submission is missing" |
| SubmissionService.SubmissionRepository.CreateSubmission | Submission-Service/src/repositories/submissionRepository.js:8-11 | `Submission.create`: a missing required path gives the schema's ValidationError; a database rejection is passed on; otherwise the record is stored pending under the assigned id; a rejection stores nothing |
| SubmissionService.QueueMessage | Submission-Service/src/services/submissionService.js:58-67 | the queue payload is keyed by the new submission id |
| SubmissionService.SubmissionService.AddSubmission | Submission-Service/src/services/submissionService.js:19-70 | a fetch failure, a missing problem and a missing stub each give their error; the create's ValidationError (only userId, problemId or language can be missing, since the wrapped code is never empty) or the database's rejection is passed on; otherwise the code is rebuilt, stored and the job queued; the store is unchanged on every error |
| SubmissionService.QueuedJobRunsStoredCode | Submission-Service/src/services/submissionService.js:46-67 | the queued job carries exactly the stored code and language |
| SubmissionValidator.LookupFirst | Submission-Service/src/validators/submissionValidator.js:3-40 | a key's value is its first occurrence in the body |
| SubmissionValidator.FirstUnknown | Submission-Service/src/validators/submissionValidator.js:3-40 | none iff every key is known |
| SubmissionValidator.CheckString | Submission-Service/src/validators/submissionValidator.js:4-39 | required, conversion, valid set, type, empty and max checks, and their messages |
| SubmissionValidator.NumericText | Submission-Service/src/validators/submissionValidator.js:60-73 | integer texts convert to their value |
| SubmissionValidator.CheckNumber | Submission-Service/src/validators/submissionValidator.js:60-73 | the default for an absent value; accepted iff within the bounds after conversion |
| SubmissionValidator.UserIdRuleMeans | Submission-Service/src/validators/submissionValidator.js:4-11 | accepted iff a string that is non-empty after trimming |
| SubmissionValidator.ProblemIdRuleMeans | Submission-Service/src/validators/submissionValidator.js:13-20 | the same for problemId |
| SubmissionValidator.LanguageRuleMeans | Submission-Service/src/validators/submissionValidator.js:22-30 | accepted iff the lower-cased language is cpp, java or python |
| SubmissionValidator.CodeRuleMeans | Submission-Service/src/validators/submissionValidator.js:32-39 | accepted iff a string of 1..102400 characters |
| SubmissionValidator.ValidateSubmission | Submission-Service/src/validators/submissionValidator.js:3-40 | an accepted submission has a non-empty userId and problemId, a language among cpp, java and python, and 1..102400 characters of code |
| SubmissionValidator.SubmissionAcceptedIff | Submission-Service/src/validators/submissionValidator.js:3-40 | accepted iff every rule passes and no unknown key is present |
| SubmissionValidator.SubmissionNormalised | Submission-Service/src/validators/submissionValidator.js:3-40 | the result holds the trimmed ids, the lower-cased language and the code unchanged |
| SubmissionValidator.SubmissionErrorsInKeyOrder | Submission-Service/src/validators/submissionValidator.js:3-40 | with abortEarly the first failing key in schema order is reported |
| SubmissionValidator.AcceptedLanguageHasExecutor | Submission-Service/src/validators/submissionValidator.js:22-30 | every accepted language has an evaluator executor |
| SubmissionValidator.ValidateGetSubmission | Submission-Service/src/validators/submissionValidator.js:42-50 | accepted iff submissionId is a non-empty trimmed string |
| SubmissionValidator.ValidateUserSubmissions | Submission-Service/src/validators/submissionValidator.js:52-74 | an accepted query has 1 <= limit <= 100 and offset >= 0, 20 and 0 when absent, and the userId trimmed |
| SubmissionValidator.ListUserIdRuleMeans | Submission-Service/src/validators/submissionValidator.js:53-59 | accepted iff a string that is non-empty after trimming |
| SubmissionValidator.CountRuleMeans | Submission-Service/src/validators/submissionValidator.js:60-73 | absent gives the default; otherwise accepted iff the converted value is an integer within the bounds |
| SubmissionValidator.UserSubmissionsAcceptedIff | Submission-Service/src/validators/submissionValidator.js:52-74 | accepted iff the query has the schema's shape (no unknown key, a userId, limit and offset absent or integers within bounds), with the converted values |
| SubmissionValidator.ValidateUserSubmissionsOk | Submission-Service/src/validators/submissionValidator.js:52-74 | a query of that shape is accepted |
| SubmissionValidator.LimitOverHundredRefused | Submission-Service/src/validators/submissionValidator.js:60-68 | limit 101 gives "Limit cannot exceed 100" |
| SubmissionValidator.QueryNumbersConverted | Submission-Service/src/validators/submissionValidator.js:60-68 | a query-string limit is converted to its number |
| SubmissionValidator.CheckArray | Submission-Service/src/validators/submissionValidator.js:76-110 | accepted iff an array, which comes back unchanged |
| SubmissionValidator.ValidateEvaluationResult | Submission-Service/src/validators/submissionValidator.js:76-110 | accepted results have non-negative counts and a valid status |
| SubmissionValidator.TestResultsJson | Evaluator-Service/src/jobs/SubmissionJob.ts:55-75 | one JSON item per test result |
| SubmissionValidator.EvaluationJson | Evaluator-Service/src/jobs/SubmissionJob.ts:81-95 | the eight fields of the evaluation body |
| SubmissionValidator.EvaluationAccepted | Submission-Service/src/validators/submissionValidator.js:76-110 | a body with the evaluation's fields is accepted and keeps its status |
| SubmissionValidator.EvaluatorCallbackAccepted | Submission-Service/src/validators/submissionValidator.js:76-110 | every evaluation the evaluator posts passes the submission service's validator |
| ProblemValidator.TrimmedString | Problem-Service/src/validators/problem.validator.js:5 | a string is trimmed; anything else is refused |
| ProblemValidator.MinThenTrim | Problem-Service/src/validators/problem.validator.js:4 | `min(n)` measures the raw text, then the text is trimmed |
| ProblemValidator.Difficulty | Problem-Service/src/validators/problem.validator.js:6 | accepted iff easy, medium or hard |
| ProblemValidator.OptionalTrimmed | Problem-Service/src/validators/problem.validator.js:17 | absent stays absent; a string is trimmed |
| ProblemValidator.ParseTestCase | Problem-Service/src/validators/problem.validator.js:7-10 | both fields are strings, trimmed |
| ProblemValidator.ParseCodeStub | Problem-Service/src/validators/problem.validator.js:11-16 | the language trimmed and lower-cased, and the snippets kept |
| ProblemValidator.ParseAll | Problem-Service/src/validators/problem.validator.js:7-16 | accepted iff every item parses; the results are in order |
| ProblemValidator.NonEmptyTestCases | Problem-Service/src/validators/problem.validator.js:7-10 | at least one test case |
| ProblemValidator.NonEmptyCodeStubs | Problem-Service/src/validators/problem.validator.js:11-16 | at least one code stub |
| ProblemValidator.ParseCreateProblem | Problem-Service/src/validators/problem.validator.js:3-18 | the create schema: every required field present and valid, unknown keys stripped |
| ProblemValidator.CreateAcceptedIff | Problem-Service/src/validators/problem.validator.js:3-18 | accepted iff the body has the create shape |
| ProblemValidator.Optional | Problem-Service/src/validators/problem.validator.js:20-35 | an absent key is accepted as absent; a present key must parse |
| ProblemValidator.EmptyUpdateAccepted | Problem-Service/src/validators/problem.validator.js:20-35 | an empty body is a valid update |
| ProblemValidator.CreateBodyIsUpdate | Problem-Service/src/validators/problem.validator.js:3-35 | every accepted create body is an accepted update with the same values |
| ProblemValidator.ParseUpdateProblem | Problem-Service/src/validators/problem.validator.js:20-35 | a field is set iff its key is present; a present title has at least 3 and a description at least 1 characters before trimming and is stored trimmed, a difficulty is easy, medium or hard, test cases and code stubs are non-empty, and an editorial is a string, trimmed |
| ProblemValidator.UpdateAcceptedIff | Problem-Service/src/validators/problem.validator.js:20-35 | accepted iff every present field passes its create rule |
| ProblemValidator.PaddedTitleAccepted | Problem-Service/src/validators/problem.validator.js:4 | as written, "  a" passes a minimum of 3, and an all-space title passes a minimum of 1 then becomes "" |
| ProblemValidator.TrimThenMin | Problem-Service/src/validators/problem.validator.js:4 | the trimmed text, accepted iff it has at least n characters |
| ProblemValidator.TrimThenMinStable | Problem-Service/src/validators/problem.validator.js:4 | trimming first guarantees the stored title meets the minimum |
| TokenManager.ExpiryMeaning | Frontend/src/utils/tokenManager.ts:32-44 | a token is expired iff now is past exp·1000 minus the 5-minute buffer; exp 0 counts as expired |
| TokenManager.ArrayExpiry | Frontend/src/utils/tokenManager.ts:32-44 | an array exp is converted to a number through its text |
| TokenManager.ShortArrayExpiry | Frontend/src/utils/tokenManager.ts:32-44 | an exp of [] counts as 0 and an exp of [n] as n |
| TokenManager.UndecodableExpired | Frontend/src/utils/tokenManager.ts:34-36 | an undecodable token or one without exp is expired |
| TokenManager.ExpiryMonotone | Frontend/src/utils/tokenManager.ts:39-43 | an expired token stays expired |
| TokenManager.LocalStorage.GetAccessToken | Frontend/src/utils/tokenManager.ts:49-51 | the stored access token, or null |
| TokenManager.LocalStorage.GetRefreshToken | Frontend/src/utils/tokenManager.ts:56-58 | the stored refresh token, or null |
| TokenManager.LocalStorage.GetUserData | Frontend/src/utils/tokenManager.ts:63-66 | null when nothing is stored, otherwise the parsed text |
| TokenManager.LocalStorage.IsAuthenticated | Frontend/src/utils/tokenManager.ts:95-98 | true iff an access token is stored and not expired |
| TokenManager.LocalStorage.SetTokens | Frontend/src/utils/tokenManager.ts:71-74 | both keys are written, and nothing else changes |
| TokenManager.LocalStorage.SetUserData | Frontend/src/utils/tokenManager.ts:79-81 | the user key holds the stringified data |
| TokenManager.LocalStorage.ClearTokens | Frontend/src/utils/tokenManager.ts:86-90 | exactly the three keys are removed |
| TokenManager.StoredTokensRead | Frontend/src/utils/tokenManager.ts:49-74 | stored tokens read back |
| TokenManager.ClearedSignsOut | Frontend/src/utils/tokenManager.ts:86-98 | after clearing, the user is not authenticated and has no tokens or data |
| TokenManager.UserDataRoundTrip | Frontend/src/utils/tokenManager.ts:63-81 | stored user data reads back when parse inverts stringify |
| Common.NatTextValue | Frontend/src/utils/errorHandler.ts:40 | a number's decimal text reads back as the number |
| Common.NumberTextReadsBack | Frontend/src/utils/tokenManager.ts:39 | `Number(String(n))` is n for every integer n |
| Common.ArrayNumberIsTextNumber | Frontend/src/utils/tokenManager.ts:39 | `Number` of an array is `Number` of its `String` text (Common.JsString) |
| Common.CommaNotNumber | Frontend/src/utils/tokenManager.ts:39 | text holding a comma is NaN, so an array of two or more elements is NaN |
| FrontendErrorHandler.StatusTextReadsBack | Frontend/src/utils/errorHandler.ts:40 | `String(status)` is an integer text for the status |
| FrontendErrorHandler.ParseApiError | Frontend/src/utils/errorHandler.ts:12-58 | a TypeError for undefined or null; the response branch, then the request branch (no status), then the generic message |
| FrontendErrorHandler.FromResponse | Frontend/src/utils/errorHandler.ts:14-43 | detail wins, then error or message, then the generic server message; the status is kept |
| FrontendErrorHandler.StatusCodeNamesTheBranch | Frontend/src/utils/errorHandler.ts:12-58 | without a response the status is 0 iff a request was made, and 500 otherwise |
| FrontendErrorHandler.GetErrorMessage | Frontend/src/utils/errorHandler.ts:72-89 | the message of each known status; the fallback for anything else, the text "404" included |
| FrontendErrorHandler.MessagesForParsedErrors | Frontend/src/utils/errorHandler.ts:46-89 | the message shown for network and unexpected errors |
| ProblemList.TopicOf | Frontend/src/pages/ProblemList/ProblemList.tsx:45 | "General" for a falsy difficulty; otherwise the difficulty with its first letter upper-cased |
| ProblemList.Capitalize | Frontend/src/pages/ProblemList/ProblemList.tsx:45 | the first character upper-cased, the rest kept |
| ProblemList.CapitalizeIdempotent | Frontend/src/pages/ProblemList/ProblemList.tsx:45 | capitalising twice changes nothing |
| ProblemList.SchemaDifficultiesTopics | Frontend/src/types/problem.types.ts:19 | easy, medium and hard give Easy, Medium and Hard |
| ProblemList.DashRuns | Frontend/src/pages/ProblemList/ProblemList.tsx:54 | never longer than the input |
| ProblemList.DashRunsClean | Frontend/src/pages/ProblemList/ProblemList.tsx:54 | no whitespace is left; every character is a dash or comes from the input |
| ProblemList.DashRunsKeepsWords | Frontend/src/pages/ProblemList/ProblemList.tsx:54 | text without whitespace is unchanged |
| ProblemList.DashRunsCollapse | Frontend/src/pages/ProblemList/ProblemList.tsx:54 | a run of whitespace of any length becomes one dash |
| ProblemList.TopicId | Frontend/src/pages/ProblemList/ProblemList.tsx:54 | the id has no whitespace and no upper-case letter |
| ProblemList.OneWordTopicId | Frontend/src/pages/ProblemList/ProblemList.tsx:54 | a one-word topic's id is the topic lower-cased |
| ProblemList.TopicsListed | Frontend/src/pages/ProblemList/ProblemList.tsx:41-48 | a topic is listed iff some problem has it |
| ProblemList.TopicsDistinct | Frontend/src/pages/ProblemList/ProblemList.tsx:46-48 | no topic is listed twice |
| ProblemList.MembersOfTopic | Frontend/src/pages/ProblemList/ProblemList.tsx:49 | only problems of the list, all of that topic |
| ProblemList.MembersOfAbsent | Frontend/src/pages/ProblemList/ProblemList.tsx:46-49 | a topic no problem has gets no members |
| ProblemList.GroupProblemsByTopic | Frontend/src/pages/ProblemList/ProblemList.tsx:40-57 | the Map-filling loop and the entries mapping give the groups of Grouped |
| ProblemList.GroupSizesAddUp | Frontend/src/pages/ProblemList/ProblemList.tsx:43-50 | the group sizes add up to the number of problems |
| ProblemList.GroupsMeaning | Frontend/src/pages/ProblemList/ProblemList.tsx:52-56 | distinct topic names; each group holds its topic's problems in list order; every problem has its group; the ids come from the names |
| ProblemList.MembersCount | Frontend/src/pages/ProblemList/ProblemList.tsx:49 | a problem is in its topic's group as often as it is in the list |

## Left out

- Clocks, random salts, generated ids, container execution, HTTP calls, the message queue and `JSON.parse`/`JSON.stringify` are parameters of the model. Logging, Express/FastAPI routing, timers, React rendering and database connections are not modelled.
- Numbers are unbounded integers. Floating point is not modelled. A Joi or Zod number text with a fraction or an exponent is treated as not a number, and the unsafe-integer checks are not modelled. Millisecond timestamps and durations are integers.
- Characters are ASCII for trimming, case conversion and character classes. Unicode whitespace, letters outside ASCII and case mappings that change length are not modelled.
- bcrypt is a stand-in (see Bcrypt). Its digest is collision-free on the first 72 characters, which real bcrypt is only with overwhelming probability. The cost factor is recorded but its cost is not modelled. jsonwebtoken and python-jose tokens are records of their claims and key, not encoded strings.
- NodeErrors: `errors/*.js`, `server.config.js` and `password_utils.py` are not part of this model. NotFound, Unauthorized, BadRequest and the Python password hashing are modelled from how the services use them.
- The single text of a Mongoose ValidationError is not modelled. The model keeps each failing path's message, in schema order (NodeUserModel.ValidationMessages).
- NodeUserRepository: the order in which MongoDB reports clashes on two unique indexes at once is taken to be `_id`, username, email.
- PyRepository.UserRepository.GetAllUsers: requires limit >= 1; MongoDB's "limit 0 means no limit" is not modelled.
- The front end's `decodeToken` is the parameter `decode`. The base64 and JSON decoding it does is not modelled, and a decoding failure is the value null.
- The Zod and Joi issue lists: a rejected body gives one message (Joi, with abortEarly) or none (Zod, whose `schemaValidator.js` answers 400 with a fixed message). The full list of issues is not modelled.
- ApiResponse: the HTTP status code passed alongside the envelope is not part of the envelope and is not modelled. ApiResponse.Paginated requires limit >= 1: with limit 0 the source divides by zero, and no caller in these files calls `paginated` or applies the getUserSubmissions schema that would bound limit.
- FrontendErrorHandler: the `${status}` text is Common.JsString, and `JSON.stringify(data.detail)` is the parameter `stringify`.
- SubmissionJob: the webhook post at the end of `handle` (`sendWebhookCallback`, lines 106-125) is an effect whose result the job ignores. The model returns the evaluation it would post. The per-test-case executor is the parameter `execute`, and Docker is not modelled.
- WebhookRetry: `submissionRepository.js` defines neither `findFailedWebhookSubmissions` nor `incrementWebhookAttempt`. The failed list is therefore a parameter. The increment is taken to add 1 to the stored attempt count and to set `nextRetryAt`, as its name and arguments imply. The retry loop's per-record `catch` (lines 116-118) cannot be reached in the model, because the post's failure is a value. `startRetryJob` (lines 130-140) is a timer and is left out. One `now` serves both clock readings of an iteration.
- SubmissionService: a throwing `problemAdminApi` call is the value FetchThrew. Enqueueing is a returned message, not a side effect.
- ProblemList: only the grouping is modelled; the page's loading state and rendering are not.
- ProblemValidator.ParseCreateProblem follows the source's `min(…).trim()` order (see Findings); the corrected order is TrimThenMin.
- NodeUserService.UserService.ChangePassword follows the source's double hash (see Findings); IntendedChangeAccepted states the corrected behaviour.
- NodeUserService.UserService.ChangePassword, ChangedPasswordStored, ChangedPasswordRejected and NodeUserModel.RehashedHashRejectsPlaintext: the new (or original) password is proved not to match only when it is shorter than 72 characters or does not start with `$2b$` (Bcrypt.ShortOrUntagged). A longer one that starts like a hash could agree with its own hash text on the first 72 characters, and the model cannot rule that out.
- Bcrypt.EncodedHashIsNotPlaintext: for the same reason, stated only for a plaintext that is Bcrypt.ShortOrUntagged.
- PyJwt.IntOf: Python's `int()` also accepts underscores between digits and non-ASCII digits; such text is not read as a number here.
- Common.TextToNumber: `Number` text with a fraction, an exponent (`1e3`) or `Infinity` is read as NaN, since numbers are integers here. For `exp`, such text makes a token count as never expired, where the source compares the number.
- SubmissionValidator.Lookup: a body is a list of key/value pairs and a repeated key reads its first value, while `JSON.parse` keeps the last. Bodies with repeated keys are not modelled faithfully.
- PyUserService.PatchOf: an optional field is absent or a string; a body that sends `"email": null` explicitly is not represented.
- PyUserModel: pydantic's `EmailStr` is not modelled. Neither its validation (an invalid address gets 422) nor its normalisation (the domain is lower-cased before the exact-match lookups of user_repository.py:71) is represented; an email is any string, kept as sent.
- SubmissionService.SubmissionService.AddSubmission: the `if(!submission)` test (submissionService.js:52-54) is dead code, because `Model.create` never resolves to a falsy value, so the model has no such outcome. The TypeErrors of a missing field are not modelled: a code stub or payload without `language` (line 32), or an answer without `data.codeStubs`. Stubs and payloads always carry their strings.
- SubmissionService.SubmissionRepository.CreateSubmission: of the schema's validators only the four `required` paths are modelled; type casting and the `status` enum cannot fail on the documents this service creates.
- PyJwt.DecodeToken: the claim checks are the ones python-jose makes when `jwt.decode` is given no audience, issuer, subject or access token, which is how the source calls it. Other option combinations are not modelled.

## Findings

| source | as written | input that shows it | evidently intended | confidence | as-written member | corrected member |
|---|---|---|---|---|---|---|
| User-Service/src/services/user.service.js:209-214 | changePassword assigns `hashPassword(newPassword)` to `user.password`, and the pre-save hook hashes the modified path again | any accepted password change to a password of fewer than 72 characters, such as "Passw0rd!": afterwards `comparePassword(newPassword, stored)` is false, and only passwords that agree with the intermediate hash text on its first 72 characters match | assign the plaintext and let the hook hash it once | not executed | NodeUserService.ChangedPasswordStored | NodeUserService.IntendedChangeAccepted |
| Problem-Service/src/validators/problem.validator.js:4 | `z.string().min(3).trim()` checks the length before trimming | title "  a" is accepted and stored as "a"; "   " with a minimum of 1 is stored as "" | trim first, then check the minimum | not executed | ProblemValidator.PaddedTitleAccepted | ProblemValidator.TrimThenMinStable |

The models of `changePassword` and of the create schema follow the code as written. The corrected definitions are ProblemValidator.TrimThenMin and NodeUserService.ChangedSecretIntended, and the lemmas in the corrected column prove the intended property about them.
