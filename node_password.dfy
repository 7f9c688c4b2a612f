/** The Node service's password helpers (`utils/password.utils.js`):
    bcryptjs hashing at cost 10 and the strength check that collects one
    message per broken rule. */
module NodePassword {
  import opened Common
  import Bcrypt

  /** `bcrypt.genSalt(10)`. */
  const SALT_ROUNDS: nat := 10

  /** `hashPassword`: the salt is drawn by the library and is a parameter. */
  function HashPassword(password: string, salt: string): (h: Bcrypt.Hash)
    ensures h.cost == SALT_ROUNDS && Bcrypt.Compare(password, h)
  {
    Bcrypt.CompareOwnHash(password, SALT_ROUNDS, salt);
    Bcrypt.HashPassword(password, SALT_ROUNDS, salt)
  }

  /** `comparePassword`. */
  predicate ComparePassword(password: string, h: Bcrypt.Hash) {
    Bcrypt.Compare(password, h)
  }

  lemma CompareOwnHash(password: string, other: string, salt: string)
    ensures ComparePassword(password, HashPassword(password, salt))
    ensures ComparePassword(other, HashPassword(password, salt))
            <==> Bcrypt.Significant(other) == Bcrypt.Significant(password)
  {
    Bcrypt.CompareOnlyOwnHash(password, other, SALT_ROUNDS, salt);
  }

  const TooShort := "Password must be at least 8 characters long"
  const NoUpper := "Password must contain at least one uppercase letter"
  const NoLower := "Password must contain at least one lowercase letter"
  const NoNumber := "Password must contain at least one number"
  const NoSpecial := "Password must contain at least one special character"

  /** The rule messages in the order the checks run. */
  const Messages: seq<string> := [TooShort, NoUpper, NoLower, NoNumber, NoSpecial]

  /** The characters of `[!@#$%^&*(),.?":{}|<>]`. */
  predicate IsSpecial(c: char) {
    c in "!@#$%^&*(),.?\":{}|<>"
  }

  /** What a regular expression's `.test` sees: a missing password is
      converted to the string "undefined". */
  function RegexInput(password: Option<string>): string {
    if password.Some? then password.value else "undefined"
  }

  /** Whether rule `k` (an index into `Messages`) is broken. */
  predicate Fails(password: Option<string>, k: nat)
    requires k < 5
  {
    var text := RegexInput(password);
    match k
    case 0 => password.None? || |password.value| < 8
    case 1 => !AnyChar(text, IsUpper)
    case 2 => !AnyChar(text, IsLower)
    case 3 => !AnyChar(text, IsDigit)
    case 4 => !AnyChar(text, IsSpecial)
  }

  /** The messages of the broken rules among the first `k`, in rule order. */
  function BrokenAmong(password: Option<string>, k: nat): (r: seq<string>)
    requires k <= 5
    ensures |r| <= k
  {
    if k == 0 then []
    else BrokenAmong(password, k - 1) + (if Fails(password, k - 1) then [Messages[k - 1]] else [])
  }

  /** `{isValid, errors}`. */
  datatype StrengthReport = StrengthReport(isValid: bool, errors: seq<string>)

  /** `validatePasswordStrength`: successive pushes, one per broken rule. */
  method ValidatePasswordStrength(password: Option<string>) returns (r: StrengthReport)
    ensures r.errors == BrokenAmong(password, 5)
    ensures r.isValid <==> r.errors == []
  {
    var errors: seq<string> := [];
    if password.None? || |password.value| < 8 {
      errors := errors + [TooShort];
    }
    assert errors == BrokenAmong(password, 1);
    var text := RegexInput(password);
    if !AnyChar(text, IsUpper) {
      errors := errors + [NoUpper];
    }
    assert errors == BrokenAmong(password, 2);
    if !AnyChar(text, IsLower) {
      errors := errors + [NoLower];
    }
    assert errors == BrokenAmong(password, 3);
    if !AnyChar(text, IsDigit) {
      errors := errors + [NoNumber];
    }
    assert errors == BrokenAmong(password, 4);
    if !AnyChar(text, IsSpecial) {
      errors := errors + [NoSpecial];
    }
    r := StrengthReport(|errors| == 0, errors);
  }

  /** Independent statement of the Node password policy. */
  predicate StrongNodePassword(p: string) {
    |p| >= 8 && AnyChar(p, IsUpper) && AnyChar(p, IsLower) && AnyChar(p, IsDigit) && AnyChar(p, IsSpecial)
  }

  /** The five messages are pairwise different. */
  lemma MessagesDistinct()
    ensures forall a, b :: 0 <= a < b < 5 ==> Messages[a] != Messages[b]
  {
    assert |TooShort| == 43 && |NoUpper| == 51 && |NoLower| == 51 && |NoNumber| == 41 && |NoSpecial| == 52;
    assert NoUpper[35] != NoLower[35];
  }

  /** A rule's message is reported exactly when the rule is broken. */
  lemma {:induction false} BrokenAmongExact(password: Option<string>, k: nat, j: nat)
    requires j < k <= 5
    requires forall a, b :: 0 <= a < b < 5 ==> Messages[a] != Messages[b]
    ensures Messages[j] in BrokenAmong(password, k) <==> Fails(password, j)
  {
    if j < k - 1 {
      BrokenAmongExact(password, k - 1, j);
    } else {
      MessageNotAmongEarlier(password, k - 1, j);
    }
  }

  /** ... and at most once. */
  lemma {:induction false} BrokenAmongOnce(password: Option<string>, k: nat, j: nat)
    requires j < 5 && k <= 5
    requires forall a, b :: 0 <= a < b < 5 ==> Messages[a] != Messages[b]
    ensures multiset(BrokenAmong(password, k))[Messages[j]] <= (if j < k then 1 else 0)
  {
    if k > 0 {
      BrokenAmongOnce(password, k - 1, j);
      var last := if Fails(password, k - 1) then [Messages[k - 1]] else [];
      assert BrokenAmong(password, k) == BrokenAmong(password, k - 1) + last;
      assert multiset(BrokenAmong(password, k)) == multiset(BrokenAmong(password, k - 1)) + multiset(last);
    }
  }

  /** The first `k` rules never report the message of a later rule `j`. */
  lemma {:induction false} MessageNotAmongEarlier(password: Option<string>, k: nat, j: nat)
    requires k <= j < 5
    requires forall a, b :: 0 <= a < b < 5 ==> Messages[a] != Messages[b]
    ensures Messages[j] !in BrokenAmong(password, k)
  {
    if k > 0 {
      MessageNotAmongEarlier(password, k - 1, j);
    }
  }

  /** No message at all exactly when none of the first `k` rules is broken. */
  lemma {:induction false} BrokenAmongEmpty(password: Option<string>, k: nat)
    requires k <= 5
    ensures BrokenAmong(password, k) == [] <==> forall j :: 0 <= j < k ==> !Fails(password, j)
  {
    if k > 0 {
      BrokenAmongEmpty(password, k - 1);
    }
  }

  /** A missing password is tested as the text "undefined": only the
      lowercase rule holds. */
  lemma MissingPasswordErrors()
    ensures BrokenAmong(None, 5) == [TooShort, NoUpper, NoNumber, NoSpecial]
  {
    UndefinedText();
    assert BrokenAmong(None, 1) == [TooShort];
    assert BrokenAmong(None, 2) == [TooShort, NoUpper];
    assert BrokenAmong(None, 3) == [TooShort, NoUpper];
    assert BrokenAmong(None, 4) == [TooShort, NoUpper, NoNumber];
  }

  /** The text "undefined" has a lowercase letter and nothing else the
      rules look for. */
  lemma UndefinedText()
    ensures Fails(None, 0) && Fails(None, 1) && !Fails(None, 2) && Fails(None, 3) && Fails(None, 4)
  {
    var u := RegexInput(None);
    assert u == ['u', 'n', 'd', 'e', 'f', 'i', 'n', 'e', 'd'];
    assert IsLower(u[0]);
    forall i | 0 <= i < |u| ensures !IsUpper(u[i]) && !IsDigit(u[i]) && !IsSpecial(u[i]) {
    }
  }

  /** Rule `j`'s message is reported exactly when the rule is broken, and
      at most once. */
  lemma RuleReportedOnce(password: Option<string>, j: nat)
    requires j < 5
    ensures Messages[j] in BrokenAmong(password, 5) <==> Fails(password, j)
    ensures multiset(BrokenAmong(password, 5))[Messages[j]] <= 1
  {
    MessagesDistinct();
    BrokenAmongExact(password, 5, j);
    BrokenAmongOnce(password, 5, j);
  }

  /** No rule fails exactly for the passwords of the policy. */
  lemma NoRuleFailsMeansPolicy(password: Option<string>)
    ensures (forall j :: 0 <= j < 5 ==> !Fails(password, j)) <==> password.Some? && StrongNodePassword(password.value)
  {
    var f0, f1, f2, f3, f4 := Fails(password, 0), Fails(password, 1), Fails(password, 2),
                              Fails(password, 3), Fails(password, 4);
    assert (forall j :: 0 <= j < 5 ==> !Fails(password, j)) <==> !f0 && !f1 && !f2 && !f3 && !f4 by {
      if !f0 && !f1 && !f2 && !f3 && !f4 {
        forall j | 0 <= j < 5 ensures !Fails(password, j) {
          if j == 0 { } else if j == 1 { } else if j == 2 { } else if j == 3 { } else { }
        }
      }
    }
  }

  /** The check passes exactly the passwords of the policy, reports at most
      five messages, and reports each broken rule exactly once. */
  lemma StrengthMeansPolicy(password: Option<string>)
    ensures BrokenAmong(password, 5) == [] <==> password.Some? && StrongNodePassword(password.value)
    ensures |BrokenAmong(password, 5)| <= 5
    ensures forall j :: 0 <= j < 5 ==>
              (Messages[j] in BrokenAmong(password, 5) <==> Fails(password, j))
              && multiset(BrokenAmong(password, 5))[Messages[j]] <= 1
  {
    BrokenAmongEmpty(password, 5);
    NoRuleFailsMeansPolicy(password);
    forall j | 0 <= j < 5
      ensures (Messages[j] in BrokenAmong(password, 5) <==> Fails(password, j))
              && multiset(BrokenAmong(password, 5))[Messages[j]] <= 1
    {
      RuleReportedOnce(password, j);
    }
  }
}
