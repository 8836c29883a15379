/**
 * The handful of JavaScript semantics the handlers lean on: truthiness of
 * request values, `String.prototype.trim`, `toLowerCase`, `startsWith`,
 * `includes` and the global `parseInt`.
 */
module Js {
  import opened Wrappers

  /**
   * A value read from a JSON request body. Numbers are integers here:
   * fractional numbers are not modelled. `Obj` is a plain object, known
   * here only by the text `JSON.stringify` writes for it; `Arr` an array.
   */
  datatype Json = Undefined | Null | Bool(b: bool) | Num(n: int) | Str(s: string) | Obj(json: string) | Arr(elems: seq<Json>)

  /** JavaScript truthiness: `undefined`, `null`, `false`, `0` and `""` are falsy. */
  predicate Truthy(v: Json) {
    match v
    case Undefined => false
    case Null => false
    case Bool(b) => b
    case Num(n) => n != 0
    case Str(s) => s != ""
    case Obj(_) => true
    case Arr(_) => true
  }

  /** Truthiness of an optional string (a search parameter, a nullable column, an optional field). */
  predicate Present(o: Option<string>) {
    o.Some? && o.value != ""
  }

  /** `!v || typeof v !== "string"` fails exactly when this holds. */
  predicate NonEmptyString(v: Json) {
    v.Str? && v.s != ""
  }

  /** The characters `String.prototype.trim` removes: WhiteSpace and LineTerminator. */
  predicate IsWhitespace(c: char) {
    || c == '\t' || c == '\n' || c == '\U{000B}' || c == '\U{000C}' || c == '\r' || c == ' '
    || c == '\U{00A0}' || c == '\U{1680}' || ('\U{2000}' <= c <= '\U{200A}')
    || c == '\U{2028}' || c == '\U{2029}' || c == '\U{202F}' || c == '\U{205F}'
    || c == '\U{3000}' || c == '\U{FEFF}'
  }

  /** Every character is whitespace (the empty string included). */
  predicate Blank(s: string) {
    forall i :: 0 <= i < |s| ==> IsWhitespace(s[i])
  }

  function TrimStart(s: string): (r: string)
    ensures |r| <= |s| && r == s[|s| - |r|..]
    ensures |r| > 0 ==> !IsWhitespace(r[0])
    ensures Blank(s[..|s| - |r|])
  {
    if |s| > 0 && IsWhitespace(s[0]) then TrimStart(s[1..]) else s
  }

  function TrimEnd(s: string): (r: string)
    ensures |r| <= |s| && r == s[..|r|]
    ensures |r| > 0 ==> !IsWhitespace(r[|r| - 1])
    ensures Blank(s[|r|..])
  {
    if |s| > 0 && IsWhitespace(s[|s| - 1]) then TrimEnd(s[..|s| - 1]) else s
  }

  /** `s.trim()`: `s` minus its leading and trailing whitespace. */
  function Trim(s: string): (r: string)
    ensures |r| <= |s|
    ensures |r| > 0 ==> !IsWhitespace(r[0]) && !IsWhitespace(r[|r| - 1])
  {
    TrimEnd(TrimStart(s))
  }

  /** The trimmed string is the infix of `s` between a blank prefix and a blank suffix. */
  lemma TrimInfix(s: string) returns (a: nat)
    ensures a + |Trim(s)| <= |s|
    ensures s[a..a + |Trim(s)|] == Trim(s)
    ensures Blank(s[..a]) && Blank(s[a + |Trim(s)|..])
  {
    var t := TrimStart(s);
    var r := TrimEnd(t);
    assert r == Trim(s);
    a := |s| - |t|;
    assert Blank(s[..a]);
    assert Blank(t[|r|..]);
    SuffixSlices(s, a, t, |r|);
  }

  /** Slicing a suffix `t == s[a..]` is slicing `s` shifted by `a`. */
  lemma SuffixSlices(s: string, a: nat, t: string, j: nat)
    requires a <= |s| && t == s[a..] && j <= |t|
    ensures s[a..a + j] == t[..j] && s[a + j..] == t[j..]
  {
  }

  /** A string is blank exactly when trimming empties it. */
  lemma {:induction false} TrimEmptyIffBlank(s: string)
    ensures Trim(s) == "" <==> Blank(s)
  {
    var r := Trim(s);
    var a := TrimInfix(s);
    if r == "" {
      forall i | 0 <= i < |s| ensures IsWhitespace(s[i]) {
        if i < a {
          assert s[i] == s[..a][i];
        } else {
          assert s[i] == s[a..][i - a];
        }
      }
    } else {
      assert s[a] == r[0];
    }
  }

  /** Trimming keeps every non-whitespace character. */
  lemma TrimKeeps(s: string, k: nat)
    requires k < |s| && !IsWhitespace(s[k])
    ensures s[k] in Trim(s)
  {
    var t := TrimStart(s);
    var pre := |s| - |t|;
    assert forall i | 0 <= i < pre :: s[..pre][i] == s[i];
    assert t[k - pre] == s[k];
    var r := TrimEnd(t);
    assert forall i | |r| <= i < |t| :: t[|r|..][i - |r|] == t[i];
    assert r[k - pre] == s[k];
  }

  lemma TrimStartIdle(s: string)
    requires |s| > 0 && !IsWhitespace(s[0])
    ensures TrimStart(s) == s
  {
  }

  lemma TrimEndIdle(s: string)
    requires |s| > 0 && !IsWhitespace(s[|s| - 1])
    ensures TrimEnd(s) == s
  {
  }

  /** Trimming twice is trimming once. */
  lemma TrimIdempotent(s: string)
    ensures Trim(Trim(s)) == Trim(s)
  {
    var r := Trim(s);
    if |r| > 0 {
      TrimStartIdle(r);
      TrimEndIdle(r);
    }
  }

  /** ASCII lower-casing of one character. */
  function LowerChar(c: char): char {
    if 'A' <= c <= 'Z' then (c as int + 32) as char else c
  }

  predicate IsUpper(c: char) {
    'A' <= c <= 'Z'
  }

  /** `s.toLowerCase()` restricted to ASCII letters: position by position, upper-case letters become lower-case. */
  function ToLower(s: string): (r: string)
    ensures |r| == |s|
    ensures forall i :: 0 <= i < |s| ==> r[i] == LowerChar(s[i])
  {
    if s == [] then [] else [LowerChar(s[0])] + ToLower(s[1..])
  }

  /** Lower-casing leaves no upper-case letter and is idempotent. */
  lemma ToLowerIdempotent(s: string)
    ensures forall i :: 0 <= i < |s| ==> !IsUpper(ToLower(s)[i])
    ensures ToLower(ToLower(s)) == ToLower(s)
  {
  }

  /** The email normalisation of the invite route: `email.trim().toLowerCase()`. */
  function NormalizeEmail(s: string): string {
    ToLower(Trim(s))
  }

  lemma LowerPreservesEnds(s: string)
    requires |s| > 0 ==> !IsWhitespace(s[0]) && !IsWhitespace(s[|s| - 1])
    ensures |ToLower(s)| > 0 ==> !IsWhitespace(ToLower(s)[0]) && !IsWhitespace(ToLower(s)[|s| - 1])
  {
  }

  /** Normalising an already normalised address changes nothing. */
  lemma NormalizeEmailIdempotent(s: string)
    ensures NormalizeEmail(NormalizeEmail(s)) == NormalizeEmail(s)
  {
    var t := Trim(s);
    var l := ToLower(t);
    LowerPreservesEnds(t);
    if |l| > 0 {
      TrimStartIdle(l);
      TrimEndIdle(l);
    }
    assert Trim(l) == l;
    ToLowerIdempotent(t);
  }

  /** `s.startsWith(p)`. */
  predicate StartsWith(s: string, p: string) {
    |p| <= |s| && s[..|p|] == p
  }

  // ---------------------------------------------------------------------
  // parseInt
  // ---------------------------------------------------------------------

  /** The value of a character read as a base-36 digit, or 36 when it is none. */
  function DigitValue(c: char): nat {
    if '0' <= c <= '9' then c as int - '0' as int
    else if 'a' <= c <= 'z' then c as int - 'a' as int + 10
    else if 'A' <= c <= 'Z' then c as int - 'A' as int + 10
    else 36
  }

  /** Length of the longest prefix of `s` made of digits of the given radix. */
  function DigitCount(s: string, radix: nat): (n: nat)
    ensures n <= |s|
    ensures forall i :: 0 <= i < n ==> DigitValue(s[i]) < radix
    ensures n == |s| || DigitValue(s[n]) >= radix
  {
    if s == [] || DigitValue(s[0]) >= radix then 0 else 1 + DigitCount(s[1..], radix)
  }

  /** The number a string of digits denotes in the given radix (most significant first). */
  function DigitsValue(s: string, radix: nat): nat {
    if s == [] then 0 else DigitsValue(s[..|s| - 1], radix) * radix + DigitValue(s[|s| - 1])
  }

  /** The longest run of radix digits at the start of `body`, read as a number; None when there is none. */
  function ParseRadix(body: string, radix: nat): Option<nat> {
    var n := DigitCount(body, radix);
    if n == 0 then None else Some(DigitsValue(body[..n], radix))
  }

  /** The part of `parseInt` after the sign: a `0x`/`0X` prefix selects radix 16, otherwise radix 10. */
  function ParseUnsigned(u: string): Option<nat> {
    if |u| >= 2 && u[0] == '0' && (u[1] == 'x' || u[1] == 'X') then ParseRadix(u[2..], 16)
    else ParseRadix(u, 10)
  }

  /**
   * The global `parseInt(s)` without a radix argument: leading whitespace is
   * skipped, one sign is read, and the digits that follow are read as above;
   * no digit at all gives NaN (None).
   */
  function ParseIntString(s: string): Option<int> {
    ParseSigned(TrimStart(s))
  }

  /** `parseInt` after the leading whitespace: an optional sign, then the digits. */
  function ParseSigned(t: string): Option<int> {
    if |t| > 0 && t[0] == '-' then
      match ParseUnsigned(t[1..])
      case None => None
      case Some(v) => Some(-(v as int))
    else if |t| > 0 && t[0] == '+' then
      match ParseUnsigned(t[1..])
      case None => None
      case Some(v) => Some(v)
    else
      match ParseUnsigned(t)
      case None => None
      case Some(v) => Some(v)
  }

  function DigitChar(d: nat): char
    requires d < 10
  {
    ('0' as int + d) as char
  }

  /** Decimal digits of a natural number, most significant first. */
  function Digits(k: nat): string
    decreases k
  {
    if k < 10 then [DigitChar(k)] else Digits(k / 10) + [DigitChar(k % 10)]
  }

  /** `String(n)` for an integer. */
  function Decimal(n: int): string {
    if n < 0 then "-" + Digits(-n) else Digits(n)
  }

  /**
   * The integers a JavaScript number holds exactly (magnitude at most 2^53).
   * All of them are below 10^21, so `String` writes them in plain decimal.
   */
  predicate ExactInteger(n: int) {
    -0x20_0000_0000_0000 <= n <= 0x20_0000_0000_0000
  }

  /** `String(v)`, the conversion `parseInt` applies to its argument first. */
  function ToJsString(v: Json): string
    decreases v
  {
    match v
    case Undefined => "undefined"
    case Null => "null"
    case Bool(b) => if b then "true" else "false"
    case Num(n) => Decimal(n)
    case Str(s) => s
    case Obj(_) => "[object Object]"
    case Arr(es) => Join(es)
  }

  /**
   * `Array.prototype.join` with the default separator: the elements'
   * strings separated by commas, with `undefined` and `null` elements
   * written as the empty string.
   */
  function Join(es: seq<Json>): string
    decreases es
  {
    if es == [] then ""
    else
      var head := if es[0].Undefined? || es[0].Null? then "" else ToJsString(es[0]);
      if |es| == 1 then head else head + "," + Join(es[1..])
  }

  /** `parseInt(v)` of a request value; None is NaN. */
  function ParseInt(v: Json): Option<int> {
    ParseIntString(ToJsString(v))
  }

  lemma {:induction false} DigitsAreDecimal(k: nat)
    ensures |Digits(k)| > 0
    ensures forall i :: 0 <= i < |Digits(k)| ==> '0' <= Digits(k)[i] <= '9'
    ensures DigitsValue(Digits(k), 10) == k
    decreases k
  {
    if k >= 10 {
      DigitsAreDecimal(k / 10);
      var d := Digits(k);
      assert d[..|d| - 1] == Digits(k / 10);
    }
  }

  lemma DigitCountAll(s: string, radix: nat)
    requires forall i :: 0 <= i < |s| ==> DigitValue(s[i]) < radix
    ensures DigitCount(s, radix) == |s|
  {
    if s != [] {
      DigitCountAll(s[1..], radix);
    }
  }

  lemma DecimalUnsigned(k: nat)
    ensures ParseUnsigned(Digits(k)) == Some(k)
  {
    var d := Digits(k);
    DigitsAreDecimal(k);
    DigitCountAll(d, 10);
    assert d[..|d|] == d;
  }

  lemma ParsePositive(k: nat)
    ensures ParseIntString(Digits(k)) == Some(k)
  {
    var d := Digits(k);
    DigitsAreDecimal(k);
    DecimalUnsigned(k);
    assert '0' <= d[0] <= '9';
    TrimStartIdle(d);
  }

  lemma ParseNegative(k: nat)
    ensures ParseIntString("-" + Digits(k)) == Some(-(k as int))
  {
    var d := Digits(k);
    DecimalUnsigned(k);
    var m := "-" + d;
    NegatedUnsigned(m, d, k);
    TrimStartIdle(m);
  }

  lemma NegatedUnsigned(m: string, d: string, k: nat)
    requires m == "-" + d && ParseUnsigned(d) == Some(k)
    ensures ParseSigned(m) == Some(-(k as int))
  {
    assert m[1..] == d;
  }

  /** `parseInt` of an integer a number holds exactly gives the integer back. */
  lemma ParseIntOfNumber(n: int)
    requires ExactInteger(n)
    ensures ParseInt(Num(n)) == Some(n)
  {
    var s := Decimal(n);
    assert ToJsString(Num(n)) == s;
    DecimalParses(n, s);
  }

  /** The decimal form of an integer parses back to it. */
  lemma DecimalParses(n: int, s: string)
    requires s == Decimal(n)
    ensures ParseIntString(s) == Some(n)
  {
    if n < 0 {
      var k: nat := -n;
      assert s == "-" + Digits(k);
      ParseNegative(k);
    } else {
      var k: nat := n;
      assert s == Digits(k);
      ParsePositive(k);
    }
  }

  /** An array of one exactly held integer converts to its decimal form, so `parseInt` reads the integer back. */
  lemma ParseIntOfSingletonArray(n: int)
    requires ExactInteger(n)
    ensures ParseInt(Arr([Num(n)])) == Some(n)
  {
    var s := Decimal(n);
    assert Join([Num(n)]) == ToJsString(Num(n)) == s;
    assert ToJsString(Arr([Num(n)])) == s;
    DecimalParses(n, s);
  }

  /** `parseInt` of a boolean, `null` or a plain object is NaN. */
  lemma ParseIntOfNonNumeric(v: Json)
    requires v.Bool? || v.Null? || v.Obj?
    ensures ParseInt(v) == None
  {
    var s := ToJsString(v);
    if v.Bool? && v.b {
      assert s[0] == 't';
    } else if v.Bool? {
      assert s[0] == 'f';
    } else if v.Null? {
      assert s[0] == 'n';
    } else {
      assert s[0] == '[';
    }
    NoLeadingDigit(s);
  }

  /** A string that starts with neither whitespace, a sign nor a decimal digit parses to NaN. */
  lemma NoLeadingDigit(s: string)
    requires |s| > 0 && !IsWhitespace(s[0]) && s[0] != '-' && s[0] != '+' && DigitValue(s[0]) >= 10
    ensures ParseIntString(s) == None
  {
    TrimStartIdle(s);
    assert DigitCount(s, 10) == 0;
  }
}
