/** Request models of the Python user service (`models/user_model.py`):
    the role enumeration, the field constraints and validators of
    `UserCreate`, `UserUpdate` and `PasswordChange`, and the stored defaults.
    `EmailStr` syntax checking belongs to a library and is not modelled. */
module PyUserModel {
  import opened Common

  datatype UserRole = User | Admin

  /** The enumeration's string values. */
  function RoleValue(r: UserRole): string {
    match r
    case User => "user"
    case Admin => "admin"
  }

  function ParseRole(s: string): (r: Option<UserRole>)
    ensures r.Some? ==> RoleValue(r.value) == s
  {
    if s == "user" then Some(User) else if s == "admin" then Some(Admin) else None
  }

  /** The role space is exactly the two values, and they round-trip. */
  lemma RoleRoundTrip(r: UserRole, s: string)
    ensures ParseRole(RoleValue(r)) == Some(r)
    ensures ParseRole(s).Some? <==> s in {"user", "admin"}
  {
  }

  // Stored defaults of `UserInDB`.
  const DefaultRole: UserRole := User
  const DefaultIsActive: bool := true
  const DefaultIsVerified: bool := false

  /** A rejected field: which field and which rule. */
  datatype Rule = TooShort(min: nat) | TooLong(max: nat) | Custom(message: string)
  datatype FieldError = FieldError(field: string, rule: Rule)

  const NeedDigit := "Password must contain at least one digit"
  const NeedUpper := "Password must contain at least one uppercase letter"
  const NeedLower := "Password must contain at least one lowercase letter"
  const BadUsername := "Username can only contain letters, numbers, underscores, and hyphens"

  /** A `Field(min_length, max_length)` constraint. */
  function LengthRule(v: string, min: nat, max: nat): (r: Option<Rule>)
    ensures r.None? <==> min <= |v| <= max
  {
    if |v| < min then Some(TooShort(min)) else if |v| > max then Some(TooLong(max)) else None
  }

  /** Independent statement of the password policy: 8 to 100 characters with
      a digit, an uppercase and a lowercase letter. */
  predicate StrongPassword(v: string) {
    8 <= |v| <= 100 && AnyChar(v, IsDigit) && AnyChar(v, IsUpper) && AnyChar(v, IsLower)
  }

  /** The password field: the length constraint first, then the validator's
      three checks in order digit, uppercase, lowercase; the first failing
      rule is reported. */
  function PasswordRule(v: string): (r: Option<Rule>)
    ensures r.None? <==> StrongPassword(v)
    ensures !(8 <= |v| <= 100) ==> r == LengthRule(v, 8, 100)
    ensures 8 <= |v| <= 100 && !AnyChar(v, IsDigit) ==> r == Some(Custom(NeedDigit))
    ensures 8 <= |v| <= 100 && AnyChar(v, IsDigit) && !AnyChar(v, IsUpper) ==> r == Some(Custom(NeedUpper))
    ensures (8 <= |v| <= 100 && AnyChar(v, IsDigit) && AnyChar(v, IsUpper) && !AnyChar(v, IsLower))
              ==> r == Some(Custom(NeedLower))
  {
    var lengthRule := LengthRule(v, 8, 100);
    if lengthRule.Some? then lengthRule
    else if !(exists i :: 0 <= i < |v| && IsDigit(v[i])) then Some(Custom(NeedDigit))
    else if !(exists i :: 0 <= i < |v| && IsUpper(v[i])) then Some(Custom(NeedUpper))
    else if !(exists i :: 0 <= i < |v| && IsLower(v[i])) then Some(Custom(NeedLower))
    else None
  }

  /** `v.replace('_', '').replace('-', '')`. */
  function RemoveSeparators(v: string): (r: string)
    ensures |r| <= |v|
    ensures forall i :: 0 <= i < |r| ==> r[i] != '_' && r[i] != '-'
  {
    if v == [] then []
    else if v[0] == '_' || v[0] == '-' then RemoveSeparators(v[1..])
    else [v[0]] + RemoveSeparators(v[1..])
  }

  /** Python `isalnum()` restricted to ASCII: false on the empty string. */
  predicate IsAlnumString(s: string) {
    |s| > 0 && AllChars(s, IsAlnum)
  }

  /** Independent statement of the username policy. */
  predicate GoodUsername(v: string) {
    3 <= |v| <= 50
    && (forall i :: 0 <= i < |v| ==> IsAlnum(v[i]) || v[i] == '_' || v[i] == '-')
    && (exists i :: 0 <= i < |v| && IsAlnum(v[i]))
  }

  predicate IsSeparator(c: char) { c == '_' || c == '-' }

  lemma {:induction false} RemoveSeparatorsAllAlnum(v: string)
    ensures AllChars(RemoveSeparators(v), IsAlnum) <==>
              (forall i :: 0 <= i < |v| ==> IsAlnum(v[i]) || IsSeparator(v[i]))
  {
    if v != [] {
      RemoveSeparatorsAllAlnum(v[1..]);
      assert forall i :: 1 <= i < |v| ==> v[i] == v[1..][i - 1];
      if !IsSeparator(v[0]) {
        var rest := RemoveSeparators(v[1..]);
        var r := [v[0]] + rest;
        assert RemoveSeparators(v) == r;
        assert AllChars(r, IsAlnum) <==> IsAlnum(v[0]) && AllChars(rest, IsAlnum) by {
          assert r[0] == v[0];
          assert forall j :: 1 <= j < |r| ==> r[j] == rest[j - 1];
          if IsAlnum(v[0]) && AllChars(rest, IsAlnum) {
            forall j | 0 <= j < |r| ensures IsAlnum(r[j]) {
              if j > 0 { assert r[j] == rest[j - 1]; }
            }
          }
          if AllChars(r, IsAlnum) {
            forall j | 0 <= j < |rest| ensures IsAlnum(rest[j]) {
              assert rest[j] == r[j + 1];
            }
          }
        }
      }
    }
  }

  lemma {:induction false} RemoveSeparatorsNonEmpty(v: string)
    ensures |RemoveSeparators(v)| > 0 <==> exists i :: 0 <= i < |v| && !IsSeparator(v[i])
  {
    if v != [] {
      RemoveSeparatorsNonEmpty(v[1..]);
      if exists i :: 0 <= i < |v| && !IsSeparator(v[i]) {
        var i :| 0 <= i < |v| && !IsSeparator(v[i]);
        if i > 0 { assert !IsSeparator(v[1..][i - 1]); }
      }
      if exists i :: 0 <= i < |v| - 1 && !IsSeparator(v[1..][i]) {
        var i :| 0 <= i < |v| - 1 && !IsSeparator(v[1..][i]);
        assert !IsSeparator(v[i + 1]);
      }
    }
  }

  /** The username field of `UserCreate`: length 3 to 50, then the
      validator. */
  function UsernameRule(v: string): (r: Option<Rule>)
    ensures !(3 <= |v| <= 50) ==> r == LengthRule(v, 3, 50)
  {
    var lengthRule := LengthRule(v, 3, 50);
    if lengthRule.Some? then lengthRule
    else if !IsAlnumString(RemoveSeparators(v)) then Some(Custom(BadUsername))
    else None
  }

  /** The username rule accepts exactly the usernames of the policy; in
      particular one made only of `_` and `-` is rejected. */
  lemma UsernameRuleMeansPolicy(v: string)
    ensures UsernameRule(v).None? <==> GoodUsername(v)
  {
    RemoveSeparatorsAllAlnum(v);
    RemoveSeparatorsNonEmpty(v);
  }

  lemma OnlySeparatorsRejected()
    ensures UsernameRule("_-_") == Some(Custom(BadUsername))
  {
    assert RemoveSeparators("_-_") == "";
  }

  /** The `full_name` field: optional, at most 100 characters. */
  function FullNameRule(v: Option<string>): (r: Option<Rule>)
    ensures r.None? <==> (v.None? || |v.value| <= 100)
  {
    if v.Some? then LengthRule(v.value, 0, 100) else None
  }

  function ErrorsOf(field: string, r: Option<Rule>): seq<FieldError> {
    if r.Some? then [FieldError(field, r.value)] else []
  }

  datatype UserCreate = UserCreate(email: string, username: string, fullName: Option<string>, password: string)

  /** All field errors of a registration body, in field declaration order. */
  function UserCreateErrors(u: UserCreate): (errs: seq<FieldError>)
    ensures errs == [] <==> GoodUsername(u.username) && FullNameRule(u.fullName).None? && StrongPassword(u.password)
  {
    UsernameRuleMeansPolicy(u.username);
    ErrorsOf("username", UsernameRule(u.username)) + ErrorsOf("full_name", FullNameRule(u.fullName))
      + ErrorsOf("password", PasswordRule(u.password))
  }

  /** `UserUpdate`: every field optional; `None` means the field was not
      sent. A present username is length-checked only. */
  datatype UserUpdate = UserUpdate(fullName: Option<Option<string>>, email: Option<string>, username: Option<string>)

  function UserUpdateErrors(u: UserUpdate): (errs: seq<FieldError>)
    ensures errs == [] <==>
              (u.fullName.None? || FullNameRule(u.fullName.value).None?)
              && (u.username.None? || 3 <= |u.username.value| <= 50)
  {
    (if u.fullName.Some? then ErrorsOf("full_name", FullNameRule(u.fullName.value)) else [])
      + (if u.username.Some? then ErrorsOf("username", LengthRule(u.username.value, 3, 50)) else [])
  }

  /** A username the update model accepts but registration refuses: the
      update model has no character-set validator. */
  lemma UpdateSkipsUsernameCharset()
    ensures UserUpdateErrors(UserUpdate(None, None, Some("a b"))) == []
    ensures !GoodUsername("a b")
  {
    assert !IsAlnum("a b"[1]);
  }

  /** `PasswordChange`: the old password is unconstrained, the new one
      follows the registration rules. */
  function PasswordChangeErrors(oldPassword: string, newPassword: string): (errs: seq<FieldError>)
    ensures errs == [] <==> StrongPassword(newPassword)
    ensures |errs| <= 1
  {
    ErrorsOf("new_password", PasswordRule(newPassword))
  }
}
