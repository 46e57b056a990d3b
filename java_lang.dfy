/**
 * The slice of java.lang that the chat service's core relies on: 64-bit
 * longs, `Long.parseLong` / `Long.valueOf(String)` in radix 10,
 * `String.valueOf(long)`, `Object.toString` of the JSON-shaped values the
 * service passes around, the truncating `%` operator, `String.isBlank`
 * and the naive `String.split` on a one-character separator.
 */
module JavaLang {

  datatype Option<T> = None | Some(value: T)

  const LONG_MIN: int := -0x8000_0000_0000_0000
  const LONG_MAX: int := 0x7FFF_FFFF_FFFF_FFFF
  const INT_MIN: int := -0x8000_0000
  const INT_MAX: int := 0x7FFF_FFFF

  predicate IsLong(n: int) { LONG_MIN <= n <= LONG_MAX }

  /** `n` fits a java.lang.Integer (what Jackson picks for a small JSON number). */
  predicate IsInt(n: int) { INT_MIN <= n <= INT_MAX }

  /** Two's-complement wrap-around of a 64-bit `long` result. */
  function WrapLong(n: int): (r: int)
    ensures IsLong(r)
    ensures IsLong(n) ==> r == n
    ensures (r - n) % 0x1_0000_0000_0000_0000 == 0
  {
    (n - LONG_MIN) % 0x1_0000_0000_0000_0000 + LONG_MIN
  }

  // ---------------------------------------------------------------------
  // Decimal digits

  predicate IsDigit(c: char) { '0' <= c <= '9' }

  predicate AllDigits(s: string) { forall i :: 0 <= i < |s| ==> IsDigit(s[i]) }

  function DigitValue(c: char): nat
    requires IsDigit(c)
  {
    (c as int) - ('0' as int)
  }

  function DigitChar(d: nat): (c: char)
    requires d < 10
    ensures IsDigit(c) && DigitValue(c) == d
  {
    (('0' as int) + d) as char
  }

  /** The value of a string of decimal digits, most significant first. */
  function DigitsValue(s: string): nat
    requires AllDigits(s)
  {
    if |s| == 0 then 0 else DigitsValue(s[..|s| - 1]) * 10 + DigitValue(s[|s| - 1])
  }

  // ---------------------------------------------------------------------
  // Long.parseLong and String.valueOf(long)

  /**
   * `Long.parseLong(s)` (equivalently `Long.valueOf(s)`): an optional sign,
   * then one or more digits, and the value must fit in 64 bits. `None`
   * stands for the NumberFormatException.
   */
  function ParseLong(s: string): (r: Option<int>)
    ensures r.Some? ==> IsLong(r.value)
    ensures r.Some? ==> |s| > 0 && (r.value < 0 ==> s[0] == '-')
  {
    if |s| == 0 then None
    else
      var digits := if s[0] == '-' || s[0] == '+' then s[1..] else s;
      if |digits| == 0 || !AllDigits(digits) then None
      else
        var v: int := if s[0] == '-' then -(DigitsValue(digits) as int) else DigitsValue(digits);
        if IsLong(v) then Some(v) else None
  }

  /** The decimal digits of a natural number, without leading zeros. */
  function ShowNat(n: nat): (s: string)
    ensures |s| > 0 && AllDigits(s)
    ensures DigitsValue(s) == n
    ensures s[0] == '0' ==> n == 0
    decreases n
  {
    if n < 10 then [DigitChar(n)]
    else
      var prefix := ShowNat(n / 10);
      var s := prefix + [DigitChar(n % 10)];
      assert s[..|s| - 1] == prefix;
      s
  }

  /** `String.valueOf(n)` / `Long.toString(n)`. */
  function Show(n: int): (s: string)
    ensures |s| > 0
    ensures s[0] == '-' <==> n < 0
  {
    if n < 0 then "-" + ShowNat(-n) else ShowNat(n)
  }

  /** What `String.valueOf` writes, `Long.parseLong` reads back. */
  lemma ParseShowRoundTrip(n: int)
    requires IsLong(n)
    ensures ParseLong(Show(n)) == Some(n)
  {
    var s := Show(n);
    if n < 0 {
      assert s[1..] == ShowNat(-n);
    } else {
      assert s == ShowNat(n);
      assert s[0] != '-' && s[0] != '+';
    }
  }

  lemma {:induction false} ShowNatInjective(a: nat, b: nat)
    ensures ShowNat(a) == ShowNat(b) ==> a == b
  {
  }

  /** Distinct numbers have distinct decimal renderings. */
  lemma ShowInjective(a: int, b: int)
    ensures Show(a) == Show(b) ==> a == b
  {
    if Show(a) == Show(b) {
      if a < 0 {
        assert ShowNat(-a) == Show(a)[1..] == Show(b)[1..] == ShowNat(-b);
        ShowNatInjective(-a, -b);
      } else {
        ShowNatInjective(a, b);
      }
    }
  }

  lemma ShowHasNoChar(n: int, c: char)
    requires c != '-' && !IsDigit(c)
    ensures c !in Show(n)
  {
    var s := Show(n);
    if n < 0 {
      assert s == "-" + ShowNat(-n);
      forall i | 0 <= i < |s| ensures s[i] != c {
        if i > 0 { assert s[i] == ShowNat(-n)[i - 1]; }
      }
    }
  }

  /** Lets a loop over a snapshot pick its next element with `:|`. */
  lemma EmptyOrHasElement(s: set<int>)
    ensures s == {} || exists y :: y in s
  {
    if !exists y :: y in s {
      assert forall y :: y in s <==> y in {};
    }
  }

  // ---------------------------------------------------------------------
  // Java's `%`

  /**
   * Java's `a % m` for a positive `m`: the remainder takes the sign of the
   * dividend (Dafny's `%` is Euclidean and never negative).
   */
  function JavaRem(a: int, m: int): (r: int)
    requires m > 0
    ensures a >= 0 ==> 0 <= r < m
    ensures a < 0 ==> -m < r <= 0
  {
    if a >= 0 then a % m else -((-a) % m)
  }

  // ---------------------------------------------------------------------
  // JSON-shaped values and their toString

  /**
   * A value as Jackson hands it to the service inside a `Map<String, Object>`
   * (or as it is put into one): null, an integral number, a string, or a list.
   */
  datatype Value = VNull | VNum(n: int) | VStr(s: string) | VList(items: seq<Value>)

  function JoinWith(parts: seq<string>, sep: string): string
  {
    if |parts| == 0 then ""
    else if |parts| == 1 then parts[0]
    else parts[0] + sep + JoinWith(parts[1..], sep)
  }

  /** `String.valueOf(v)`: `"null"`, the decimal form, the string itself, or `[a, b]`. */
  function Render(v: Value): string
    decreases v
  {
    match v
    case VNull => "null"
    case VNum(n) => Show(n)
    case VStr(s) => s
    case VList(items) =>
      "[" + JoinWith(seq(|items|, i requires 0 <= i < |items| => Render(items[i])), ", ") + "]"
  }

  /**
   * `request.get(k).toString()` followed by `Long.valueOf`: a missing key or
   * a JSON null is a NullPointerException, an unparsable rendering a
   * NumberFormatException; both are `None`.
   */
  function LongField(m: map<string, Value>, k: string): (r: Option<int>)
    ensures r.Some? ==> k in m && m[k] != VNull && ParseLong(Render(m[k])) == r
  {
    if k in m && m[k] != VNull then ParseLong(Render(m[k])) else None
  }

  lemma LongFieldOfNumber(m: map<string, Value>, k: string, n: int)
    requires k in m && m[k] == VNum(n) && IsLong(n)
    ensures LongField(m, k) == Some(n)
  {
    ParseShowRoundTrip(n);
  }

  // ---------------------------------------------------------------------
  // Strings

  predicate StartsWith(s: string, prefix: string)
  {
    |prefix| <= |s| && s[..|prefix|] == prefix
  }

  /** `Character.isWhitespace`, as `String.isBlank` uses it. */
  predicate IsJavaWhitespace(c: char)
  {
    c == ' ' || c == '\t' || c == '\n' || c == '\U{000B}' || c == '\U{000C}' || c == '\r'
    || ('\U{001C}' <= c <= '\U{001F}') || c == '\U{1680}' || ('\U{2000}' <= c <= '\U{2006}')
    || ('\U{2008}' <= c <= '\U{200A}') || c == '\U{2028}' || c == '\U{2029}' || c == '\U{205F}'
    || c == '\U{3000}'
  }

  /** `s.isBlank()`: empty or only whitespace. */
  predicate IsBlank(s: string)
  {
    forall i :: 0 <= i < |s| ==> IsJavaWhitespace(s[i])
  }

  /**
   * `s.split(sep)` for a one-character, non-regex separator, keeping every
   * piece. Java drops trailing empty pieces; every caller here only searches
   * the pieces for a non-empty prefix, which an empty piece never has.
   */
  function Split(s: string, sep: char): (parts: seq<string>)
    ensures |parts| > 0
    ensures forall i :: 0 <= i < |parts| ==> sep !in parts[i]
    decreases |s|
  {
    if sep !in s then [s]
    else
      var k := IndexOf(s, sep);
      [s[..k]] + Split(s[k + 1..], sep)
  }

  function IndexOf(s: string, c: char): (k: nat)
    requires c in s
    ensures k < |s| && s[k] == c && c !in s[..k]
  {
    if s[0] == c then 0 else 1 + IndexOf(s[1..], c)
  }

  function Join(parts: seq<string>, sep: char): string
    requires |parts| > 0
  {
    if |parts| == 1 then parts[0] else parts[0] + [sep] + Join(parts[1..], sep)
  }

  /** Splitting a joined list gives the pieces back when no piece holds the separator. */
  lemma {:induction false} SplitJoin(parts: seq<string>, sep: char)
    requires |parts| > 0
    requires forall i :: 0 <= i < |parts| ==> sep !in parts[i]
    ensures Split(Join(parts, sep), sep) == parts
    decreases |parts|
  {
    if |parts| == 1 {
    } else {
      var rest := Join(parts[1..], sep);
      var s := parts[0] + [sep] + rest;
      assert Join(parts, sep) == s;
      assert sep in s by { assert s[|parts[0]|] == sep; }
      var k := IndexOf(s, sep);
      assert s[..|parts[0]|] == parts[0];
      assert k == |parts[0]|;
      assert s[..k] == parts[0];
      assert s[k + 1..] == rest;
      SplitJoin(parts[1..], sep);
      assert Split(s, sep) == [parts[0]] + Split(rest, sep);
    }
  }
}
