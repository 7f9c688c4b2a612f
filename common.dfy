/** Shared value types and string helpers used by every service model.
    Character classes are ASCII-only: the services' Unicode-aware
    `isdigit`/`isupper`/`toLowerCase`/`trim` are restricted to ASCII here. */
module Common {

  datatype Option<T> = None | Some(value: T) {
    function GetOr(default: T): T {
      match this
      case Some(v) => v
      case None => default
    }
  }

  datatype Result<T, E> = Ok(value: T) | Err(error: E)

  // ---------------------------------------------------------------- chars

  predicate IsDigit(c: char) { '0' <= c <= '9' }
  predicate IsUpper(c: char) { 'A' <= c <= 'Z' }
  predicate IsLower(c: char) { 'a' <= c <= 'z' }
  predicate IsAlnum(c: char) { IsDigit(c) || IsUpper(c) || IsLower(c) }

  /** JavaScript `trim` / `\s` whitespace, restricted to ASCII. */
  predicate JsIsSpace(c: char) {
    c == ' ' || c == '\t' || c == '\n' || c == '\r' || c == '\U{B}' || c == '\U{C}'
  }

  /** Python `str.strip()` whitespace, restricted to ASCII (includes the
      information separators U+001C..U+001F, which Python treats as space). */
  predicate PyIsSpace(c: char) {
    JsIsSpace(c) || ('\U{1C}' <= c <= '\U{1F}')
  }

  function LowerChar(c: char): (r: char)
    ensures IsUpper(c) ==> IsLower(r) && r as int == c as int + 32
    ensures !IsUpper(c) ==> r == c
  {
    if IsUpper(c) then (c as int + 32) as char else c
  }

  function UpperChar(c: char): (r: char)
    ensures IsLower(c) ==> IsUpper(r) && r as int == c as int - 32
    ensures !IsLower(c) ==> r == c
  {
    if IsLower(c) then (c as int - 32) as char else c
  }

  /** `toLowerCase()` / `lower()` on ASCII letters. */
  function Lower(s: string): (r: string)
    ensures |r| == |s|
    ensures forall i :: 0 <= i < |s| ==> r[i] == LowerChar(s[i])
  {
    seq(|s|, i requires 0 <= i < |s| => LowerChar(s[i]))
  }

  lemma LowerIdempotent(s: string)
    ensures Lower(Lower(s)) == Lower(s)
  {
  }

  predicate AllChars(s: string, p: char -> bool) {
    forall i :: 0 <= i < |s| ==> p(s[i])
  }

  predicate AnyChar(s: string, p: char -> bool) {
    exists i :: 0 <= i < |s| && p(s[i])
  }

  predicate HasPrefix(s: string, prefix: string) {
    |prefix| <= |s| && s[..|prefix|] == prefix
  }

  // ---------------------------------------------------------------- trimming

  function TrimStart(s: string, isSpace: char -> bool): (r: string)
    ensures |r| <= |s| && r == s[|s| - |r|..]
    ensures r == [] || !isSpace(r[0])
    ensures forall i :: 0 <= i < |s| - |r| ==> isSpace(s[i])
  {
    if s == [] || !isSpace(s[0]) then s else TrimStart(s[1..], isSpace)
  }

  function TrimEnd(s: string, isSpace: char -> bool): (r: string)
    ensures |r| <= |s| && r == s[..|r|]
    ensures r == [] || !isSpace(r[|r| - 1])
    ensures forall i :: |r| <= i < |s| ==> isSpace(s[i])
  {
    if s == [] || !isSpace(s[|s| - 1]) then s else TrimEnd(s[..|s| - 1], isSpace)
  }

  /** Both ends trimmed (`trim()` in JavaScript, `strip()` in Python). */
  function Trim(s: string, isSpace: char -> bool): (r: string)
    ensures |r| <= |s|
    ensures r == [] || (!isSpace(r[0]) && !isSpace(r[|r| - 1]))
  {
    TrimEnd(TrimStart(s, isSpace), isSpace)
  }

  /** Trimming twice is trimming once. */
  lemma TrimIdempotent(s: string, isSpace: char -> bool)
    ensures Trim(Trim(s, isSpace), isSpace) == Trim(s, isSpace)
  {
    var t := Trim(s, isSpace);
    assert TrimStart(t, isSpace) == t;
  }

  /** Text that neither starts nor ends with a space is its own trim. */
  lemma TrimUnpadded(s: string, isSpace: char -> bool)
    requires s != [] && !isSpace(s[0]) && !isSpace(s[|s| - 1])
    ensures Trim(s, isSpace) == s
  {
    assert TrimStart(s, isSpace) == s;
  }

  /** Trimming keeps every character that is not a space. */
  lemma TrimKeeps(s: string, isSpace: char -> bool, i: nat)
    requires i < |s| && !isSpace(s[i])
    ensures s[i] in Trim(s, isSpace)
  {
    var t := TrimStart(s, isSpace);
    var k := i - (|s| - |t|);
    assert t[k] == s[i];
    var r := TrimEnd(t, isSpace);
    assert r[k] == t[k];
  }

  function JsTrim(s: string): string { Trim(s, JsIsSpace) }
  function PyStrip(s: string): string { Trim(s, PyIsSpace) }

  /** Lowercasing never turns a space into a letter or back, so it commutes
      with `trim()`. */
  lemma JsTrimLower(s: string)
    ensures JsTrim(Lower(s)) == Lower(JsTrim(s))
  {
    TrimStartLower(s);
    TrimEndLower(TrimStart(s, JsIsSpace));
  }

  lemma SpaceLower(c: char)
    ensures JsIsSpace(LowerChar(c)) <==> JsIsSpace(c)
  {
  }

  lemma {:induction false} TrimStartLower(s: string)
    ensures TrimStart(Lower(s), JsIsSpace) == Lower(TrimStart(s, JsIsSpace))
  {
    if s != [] {
      var t := Lower(s);
      SpaceLower(s[0]);
      assert t[0] == LowerChar(s[0]);
      if JsIsSpace(s[0]) {
        assert t[1..] == Lower(s[1..]);
        TrimStartLower(s[1..]);
      }
    }
  }

  lemma {:induction false} TrimEndLower(s: string)
    ensures TrimEnd(Lower(s), JsIsSpace) == Lower(TrimEnd(s, JsIsSpace))
  {
    if s != [] {
      var t := Lower(s);
      SpaceLower(s[|s| - 1]);
      assert t[|s| - 1] == LowerChar(s[|s| - 1]);
      if JsIsSpace(s[|s| - 1]) {
        assert t[..|s| - 1] == Lower(s[..|s| - 1]);
        TrimEndLower(s[..|s| - 1]);
      }
    }
  }

  // ---------------------------------------------------------------- splitting

  /** Number of occurrences of `c` in `s`. */
  function Count(s: string, c: char): nat {
    if s == [] then 0 else (if s[0] == c then 1 else 0) + Count(s[1..], c)
  }

  /** Python `s.split(sep)` for a one-character separator: never empty, and
      keeps empty pieces (`"".split(",") == [""]`). */
  function Split(s: string, sep: char): (r: seq<string>)
    ensures |r| >= 1
    ensures forall i :: 0 <= i < |r| ==> sep !in r[i]
  {
    if s == [] then [""]
    else
      var rest := Split(s[1..], sep);
      if s[0] == sep then [""] + rest else [[s[0]] + rest[0]] + rest[1..]
  }

  /** Python `sep.join(pieces)`. */
  function Join(pieces: seq<string>, sep: char): string {
    if |pieces| == 0 then ""
    else if |pieces| == 1 then pieces[0]
    else pieces[0] + [sep] + Join(pieces[1..], sep)
  }

  lemma {:induction false} SplitCount(s: string, sep: char)
    ensures |Split(s, sep)| == Count(s, sep) + 1
  {
    if s != [] {
      SplitCount(s[1..], sep);
    }
  }

  lemma {:induction false} JoinSplit(s: string, sep: char)
    ensures Join(Split(s, sep), sep) == s
  {
    if s != [] {
      JoinSplit(s[1..], sep);
      var rest := Split(s[1..], sep);
      if s[0] == sep {
        assert Split(s, sep) == [""] + rest;
        if |rest| == 1 {
          assert Join([""] + rest, sep) == "" + [sep] + Join(rest, sep);
        } else {
          assert ([""] + rest)[1..] == rest;
        }
      } else {
        var r := [[s[0]] + rest[0]] + rest[1..];
        assert Split(s, sep) == r;
        if |rest| == 1 {
          assert Join(r, sep) == [s[0]] + rest[0];
        } else {
          assert r[1..] == rest[1..];
          assert Join(rest, sep) == rest[0] + [sep] + Join(rest[1..], sep);
        }
      }
    }
  }

  // ---------------------------------------------------------------- object ids

  predicate IsHexDigit(c: char) {
    IsDigit(c) || ('a' <= c <= 'f') || ('A' <= c <= 'F')
  }

  /** Text that MongoDB accepts as an ObjectId: 24 hexadecimal digits. */
  predicate IsObjectIdText(s: string) {
    |s| == 24 && AllChars(s, IsHexDigit)
  }

  /** The lowercase form in which both services store ids. */
  predicate IsCanonicalObjectId(s: string) {
    IsObjectIdText(s) && Lower(s) == s
  }

  /** The canonical form of accepted id text is canonical. */
  lemma LowerIsCanonical(s: string)
    requires IsObjectIdText(s)
    ensures IsCanonicalObjectId(Lower(s))
  {
    LowerIdempotent(s);
  }

  /** JavaScript `pieces.join(sep)` for a separator of any length. */
  function JoinText(pieces: seq<string>, sep: string): string {
    if |pieces| == 0 then ""
    else if |pieces| == 1 then pieces[0]
    else pieces[0] + sep + JoinText(pieces[1..], sep)
  }

  // ---------------------------------------------------------------- lookups

  /** The first record, in the order of `ids`, that satisfies `p`. */
  function FirstMatch<T>(ids: seq<string>, docs: map<string, T>, p: T -> bool): (r: Option<T>)
    requires forall i :: 0 <= i < |ids| ==> ids[i] in docs
    ensures r.Some? ==> p(r.value) && exists i :: 0 <= i < |ids| && docs[ids[i]] == r.value
    ensures r.None? <==> forall i :: 0 <= i < |ids| ==> !p(docs[ids[i]])
  {
    if ids == [] then None
    else if p(docs[ids[0]]) then Some(docs[ids[0]])
    else
      var r := FirstMatch(ids[1..], docs, p);
      assert forall i :: 1 <= i < |ids| ==> ids[i] == ids[1..][i - 1];
      r
  }

  /** When `ids` lists every key, no match among `ids` means no match at all. */
  lemma NoMatchAnywhere<T>(ids: seq<string>, docs: map<string, T>, p: T -> bool)
    requires forall id :: id in docs ==> id in ids
    requires forall i :: 0 <= i < |ids| ==> ids[i] in docs && !p(docs[ids[i]])
    ensures forall id :: id in docs ==> !p(docs[id])
  {
    forall id | id in docs ensures !p(docs[id]) {
      var i :| 0 <= i < |ids| && ids[i] == id;
    }
  }

  // ---------------------------------------------------------------- JavaScript values

  /** A JSON-like JavaScript value. Numbers are integers (no fractions,
      `NaN` or infinities). */
  datatype JsValue =
    | Undefined
    | Null
    | Bool(b: bool)
    | Num(n: int)
    | Str(s: string)
    | Arr(items: seq<JsValue>)
    | Obj(fields: map<string, JsValue>)

  /** JavaScript truthiness: `undefined`, `null`, `false`, `0` and `""`
      are falsy. */
  predicate JsTruthy(v: JsValue) {
    match v
    case Undefined => false
    case Null => false
    case Bool(b) => b
    case Num(n) => n != 0
    case Str(s) => s != ""
    case Arr(_) => true
    case Obj(_) => true
  }

  /** `v.key`: `undefined` unless `v` is an object holding `key`. */
  function Get(v: JsValue, key: string): JsValue {
    if v.Obj? && key in v.fields then v.fields[key] else Undefined
  }

  /** Decimal integer text: an optional `-` and at least one digit. */
  predicate IsIntegerText(s: string) {
    var digits := if |s| > 0 && s[0] == '-' then s[1..] else s;
    |digits| > 0 && AllChars(digits, IsDigit)
  }

  function DigitsValue(s: string): nat
    requires AllChars(s, IsDigit)
  {
    if s == [] then 0 else DigitsValue(s[..|s| - 1]) * 10 + (s[|s| - 1] as int - '0' as int)
  }

  function IntegerValue(s: string): int
    requires IsIntegerText(s)
  {
    if s[0] == '-' then -(DigitsValue(s[1..]) as int) else DigitsValue(s)
  }

  /** A digit's character. */
  function DigitChar(d: nat): (c: char)
    requires d < 10
    ensures IsDigit(c) && c as int - '0' as int == d
  {
    ('0' as int + d) as char
  }

  /** The decimal text of a natural number. */
  function NatText(n: nat): (s: string)
    ensures |s| >= 1 && AllChars(s, IsDigit)
  {
    if n < 10 then [DigitChar(n)] else NatText(n / 10) + [DigitChar(n % 10)]
  }

  /** Reading the text back gives the number. */
  lemma {:induction false} NatTextValue(n: nat)
    ensures DigitsValue(NatText(n)) == n
  {
    if n >= 10 {
      NatTextValue(n / 10);
      var s := NatText(n);
      assert s[..|s| - 1] == NatText(n / 10);
    }
  }

  /** `String(v)`: an array is its elements' texts joined with commas,
      `null` and `undefined` elements giving empty text. */
  function JsString(v: JsValue): string
    decreases v
  {
    match v
    case Undefined => "undefined"
    case Null => "null"
    case Bool(b) => if b then "true" else "false"
    case Num(n) => if n < 0 then "-" + NatText(-n) else NatText(n)
    case Str(s) => s
    case Arr(items) => JoinText(seq(|items|, i requires 0 <= i < |items| =>
                                      if items[i] == Undefined || items[i] == Null then "" else JsString(items[i])), ",")
    case Obj(_) => "[object Object]"
  }

  predicate IsOctalDigit(c: char) { '0' <= c <= '7' }
  predicate IsBinaryDigit(c: char) { c == '0' || c == '1' }

  /** The value of a hexadecimal digit. */
  function HexValue(c: char): nat {
    if IsDigit(c) then c as int - '0' as int
    else if 'a' <= c <= 'f' then c as int - 'a' as int + 10
    else if 'A' <= c <= 'F' then c as int - 'A' as int + 10
    else 0
  }

  /** The value of digits in base `base`. */
  function RadixValue(s: string, base: nat): nat {
    if s == [] then 0 else RadixValue(s[..|s| - 1], base) * base + HexValue(s[|s| - 1])
  }

  /** `Number(s)` of text whose value is an integer: after trimming, empty
      text is 0; otherwise decimal digits with an optional sign, or an
      unsigned `0x`, `0o` or `0b` literal. Anything else is `NaN`. */
  function TextToNumber(s: string): Option<int> {
    TrimmedToNumber(JsTrim(s))
  }

  /** `TextToNumber` of text already trimmed. */
  function TrimmedToNumber(t: string): Option<int> {
    if t == "" then Some(0)
    else if IsIntegerText(t) then Some(IntegerValue(t))
    else if |t| > 1 && t[0] == '+' && t[1] != '-' && IsIntegerText(t[1..]) then Some(IntegerValue(t[1..]))
    else if |t| > 2 && t[0] == '0' && (t[1] == 'x' || t[1] == 'X') && AllChars(t[2..], IsHexDigit) then
      Some(RadixValue(t[2..], 16))
    else if |t| > 2 && t[0] == '0' && (t[1] == 'o' || t[1] == 'O') && AllChars(t[2..], IsOctalDigit) then
      Some(RadixValue(t[2..], 8))
    else if |t| > 2 && t[0] == '0' && (t[1] == 'b' || t[1] == 'B') && AllChars(t[2..], IsBinaryDigit) then
      Some(RadixValue(t[2..], 2))
    else None
  }

  /** `Number(v)` (what arithmetic coerces a value to), or `None` for
      `NaN`. An array is converted through its text: `[]` is 0, `[x]` is
      read from `String(x)`, and two or more elements give `NaN`; objects
      give `NaN`. */
  function ToNumber(v: JsValue): Option<int>
    decreases v
  {
    match v
    case Undefined => None
    case Null => Some(0)
    case Bool(b) => Some(if b then 1 else 0)
    case Num(n) => Some(n)
    case Str(s) => TextToNumber(s)
    case Arr(items) =>
      if |items| == 0 then Some(0)
      else if |items| > 1 then None
      else (match items[0]
            case Undefined => Some(0)
            case Null => Some(0)
            case Bool(_) => None
            case Num(n) => Some(n)
            case Str(s) => TextToNumber(s)
            case Arr(_) => ToNumber(items[0])
            case Obj(_) => None)
    case Obj(_) => None
  }

  /** For an array, `Number` is `Number` of its `String` text, which is how
      JavaScript converts it. */
  lemma {:induction false} ArrayNumberIsTextNumber(v: JsValue)
    requires v.Arr?
    ensures ToNumber(v) == TextToNumber(JsString(v))
    decreases v
  {
    var items := v.items;
    var pieces := seq(|items|, i requires 0 <= i < |items| =>
                        if items[i] == Undefined || items[i] == Null then "" else JsString(items[i]));
    assert JsString(v) == JoinText(pieces, ",");
    if |items| == 1 {
      assert JsString(v) == pieces[0];
      match items[0]
      case Undefined =>
      case Null =>
      case Bool(b) =>
        if b { NonNumericText("true"); } else { NonNumericText("false"); }
      case Num(n) => NumberTextReadsBack(n);
      case Str(_) =>
      case Arr(_) => ArrayNumberIsTextNumber(items[0]);
      case Obj(_) => NonNumericText("[object Object]");
    } else if |items| > 1 {
      JoinHasSeparator(pieces);
      var k :| 0 <= k < |JsString(v)| && JsString(v)[k] == ',';
      CommaNotNumber(JsString(v), k);
    }
  }

  /** A number's text reads back as the number. */
  lemma NumberTextReadsBack(n: int)
    ensures TextToNumber(JsString(Num(n))) == Some(n)
  {
    if n < 0 {
      NegativeTextReadsBack(n);
    } else {
      NatTextReadsBack(n);
    }
  }

  /** Unpadded integer text is read as its value. */
  lemma IntegerTextNumber(t: string)
    requires JsTrim(t) == t && IsIntegerText(t)
    ensures TextToNumber(t) == Some(IntegerValue(t))
  {}

  lemma NatTextReadsBack(n: int)
    requires n >= 0
    ensures TextToNumber(JsString(Num(n))) == Some(n)
  {
    var t := JsString(Num(n));
    assert t == NatText(n);
    NatTextValue(n);
    assert IsDigit(t[0]) && IsDigit(t[|t| - 1]);
    TrimUnpadded(t, JsIsSpace);
    IntegerTextNumber(t);
  }

  /** A negative number's text is an integer text of that value. */
  lemma NegativeTextValue(m: nat)
    ensures IsIntegerText("-" + NatText(m)) && IntegerValue("-" + NatText(m)) == -(m as int)
  {
    var t := "-" + NatText(m);
    assert t[1..] == NatText(m);
    NatTextValue(m);
  }

  lemma NegativeTextReadsBack(n: int)
    requires n < 0
    ensures TextToNumber(JsString(Num(n))) == Some(n)
  {
    assert JsString(Num(n)) == "-" + NatText(-n);
    MinusTextReadsBack(n);
  }

  lemma MinusTextReadsBack(n: int)
    requires n < 0
    ensures TextToNumber("-" + NatText(-n)) == Some(n)
  {
    var t := "-" + NatText(-n);
    NegativeTextValue(-n);
    assert IsDigit(t[|t| - 1]);
    TrimUnpadded(t, JsIsSpace);
    IntegerTextNumber(t);
  }

  /** Text that starts with neither a digit nor a sign is `NaN`. */
  lemma NonNumericText(t: string)
    requires t != [] && !JsIsSpace(t[0]) && !JsIsSpace(t[|t| - 1]) && !IsDigit(t[0]) && t[0] != '+' && t[0] != '-'
    ensures TextToNumber(t).None?
  {
    TrimUnpadded(t, JsIsSpace);
  }

  /** Joining two or more pieces puts a separator in the text. */
  lemma JoinHasSeparator(pieces: seq<string>)
    requires |pieces| > 1
    ensures exists k :: 0 <= k < |JoinText(pieces, ",")| && JoinText(pieces, ",")[k] == ','
  {
    var j := JoinText(pieces, ",");
    assert j == pieces[0] + "," + JoinText(pieces[1..], ",");
    assert j[|pieces[0]|] == ',';
  }

  /** The characters a number's text can hold. */
  predicate NumberChar(c: char) {
    IsHexDigit(c) || c == '+' || c == '-' || c == 'x' || c == 'X' || c == 'o' || c == 'O'
  }

  /** Text holding a comma is `NaN`. */
  lemma CommaNotNumber(s: string, k: nat)
    requires k < |s| && s[k] == ','
    ensures TextToNumber(s).None?
  {
    TrimKeeps(s, JsIsSpace, k);
    var t := JsTrim(s);
    var j :| 0 <= j < |t| && t[j] == ',';
    CommaForeign();
    ForeignCharNotNumber(t, j, ',');
  }

  lemma CommaForeign()
    ensures !NumberChar(',')
  {}

  /** Trimmed text holding a character no number can hold is `NaN`. */
  lemma ForeignCharNotNumber(t: string, j: nat, c: char)
    requires j < |t| && t[j] == c && !NumberChar(c)
    ensures TrimmedToNumber(t).None?
  {
    SignedChars(t);
    RadixChars(t);
  }

  lemma SignedChars(t: string)
    ensures IsIntegerText(t) ==> AllChars(t, NumberChar)
    ensures |t| > 1 && t[0] == '+' && IsIntegerText(t[1..]) ==> AllChars(t, NumberChar)
  {
    forall i | 1 <= i < |t| ensures t[i] == t[1..][i - 1] {}
    if |t| > 1 && t[0] == '+' && IsIntegerText(t[1..]) {
      var u := t[1..];
      forall i | 1 <= i < |u| ensures u[i] == u[1..][i - 1] {}
    }
  }

  lemma RadixChars(t: string)
    ensures |t| > 2 && t[0] == '0' && (t[1] == 'x' || t[1] == 'X' || t[1] == 'o' || t[1] == 'O' || t[1] == 'b' || t[1] == 'B')
            && (AllChars(t[2..], IsHexDigit) || AllChars(t[2..], IsOctalDigit) || AllChars(t[2..], IsBinaryDigit))
            ==> AllChars(t, NumberChar)
  {
    forall i | 2 <= i < |t| ensures t[i] == t[2..][i - 2] {}
  }
}
