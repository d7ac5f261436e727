/** Small shared vocabulary: an optional value and real-number clamps. */
module Common {

  /** Python's `None` versus a present value. */
  datatype Option<+T> = None | Some(value: T)

  /** A dictionary entry: key absent, present with value `None`, or present with a value. */
  datatype Field<+T> = Missing | Null | Given(value: T)

  function Max(a: real, b: real): (r: real)
    ensures r >= a && r >= b && (r == a || r == b)
  {
    if a >= b then a else b
  }

  function Min(a: real, b: real): (r: real)
    ensures r <= a && r <= b && (r == a || r == b)
  {
    if a <= b then a else b
  }

  /** `max(0.0, min(1.0, x))`, the clamp applied to every colour channel. */
  function Clamp01(x: real): (r: real)
    ensures 0.0 <= r <= 1.0
    ensures 0.0 <= x <= 1.0 ==> r == x
    ensures x < 0.0 ==> r == 0.0
    ensures x > 1.0 ==> r == 1.0
  {
    Max(0.0, Min(1.0, x))
  }

  /** Python's `int(x)` on a float: truncation toward zero. */
  function Trunc(x: real): (n: int)
    ensures x >= 0.0 ==> n as real <= x < n as real + 1.0
    ensures x < 0.0 ==> n as real - 1.0 < x <= n as real
  {
    if x >= 0.0 then x.Floor else -((-x).Floor)
  }

  function Abs(x: real): (r: real)
    ensures r >= 0.0 && (r == x || r == -x)
  {
    if x >= 0.0 then x else -x
  }

  function IntAbs(x: int): (r: nat)
    ensures r == x || r == -x
  {
    if x >= 0 then x else -x
  }

  /**
   * Python's `str.isspace()` for one character: the characters that
   * `str.strip()`, `str.split()` and `int()` treat as whitespace.
   */
  predicate IsSpace(c: char)
  {
    || c == ' ' || c == '\t' || c == '\n' || c == '\r'
    || c == '\U{000B}' || c == '\U{000C}'
    || ('\U{001C}' <= c <= '\U{001F}')
    || c == '\U{0085}' || c == '\U{00A0}' || c == '\U{1680}'
    || ('\U{2000}' <= c <= '\U{200A}')
    || c == '\U{2028}' || c == '\U{2029}' || c == '\U{202F}' || c == '\U{205F}' || c == '\U{3000}'
  }

  /** A non-empty sequence is its prefix followed by its last element. */
  lemma SplitLast<T>(a: seq<T>)
    requires |a| > 0
    ensures a == a[..|a| - 1] + [a[|a| - 1]]
  {
  }

  /** Python's `s.lstrip()`: drops leading whitespace. */
  function LStrip(s: string): (r: string)
    ensures |r| <= |s| && r == s[|s| - |r|..]
    ensures |r| > 0 ==> !IsSpace(r[0])
    ensures forall i :: 0 <= i < |s| - |r| ==> IsSpace(s[i])
  {
    if |s| > 0 && IsSpace(s[0]) then
      var r := LStrip(s[1..]);
      assert s[1..][|s| - 1 - |r|..] == s[|s| - |r|..];
      r
    else s
  }

  /** Python's `s.rstrip()`: drops trailing whitespace. */
  function RStrip(s: string): (r: string)
    ensures |r| <= |s| && r == s[..|r|]
    ensures |r| > 0 ==> !IsSpace(r[|r| - 1])
    ensures forall i :: |r| <= i < |s| ==> IsSpace(s[i])
  {
    if |s| > 0 && IsSpace(s[|s| - 1]) then
      var r := RStrip(s[..|s| - 1]);
      assert s[..|s| - 1][..|r|] == s[..|r|];
      r
    else s
  }

  /** Python's `s.strip()`. */
  function Strip(s: string): (r: string)
    ensures |r| > 0 ==> !IsSpace(r[0]) && !IsSpace(r[|r| - 1])
    ensures |r| <= |s|
  {
    RStrip(LStrip(s))
  }

  /** A positive number divided by itself is 1. */
  lemma DivSelf(x: real)
    requires x > 0.0
    ensures x / x == 1.0
  {
  }

  /** `lo * m <= hi <= lo * n` bounds the quotient `hi / lo` by `m` and `n`. */
  lemma QuotientBetween(hi: real, lo: real, m: real, n: real)
    requires lo > 0.0 && m * lo <= hi <= n * lo
    ensures m <= hi / lo <= n
  {
    var q := hi / lo;
    assert q * lo == hi;
    assert (q - m) * lo >= 0.0;
    assert (n - q) * lo >= 0.0;
    SignOfProduct(q - m, lo);
    SignOfProduct(n - q, lo);
  }

  lemma SignOfProduct(a: real, b: real)
    requires b > 0.0 && a * b >= 0.0
    ensures a >= 0.0
  {
  }

  /** Products of non-negative factors grow with the factors. */
  lemma MulMono(a: real, b: real, c: real, d: real)
    requires 0.0 <= a <= c && 0.0 <= b <= d
    ensures a * b <= c * d
  {
    assert a * b <= c * b;
    assert c * b <= c * d;
  }

  /** A quotient bounded by `q` bounds the numerator by `q` times the denominator. */
  lemma RatioBound(lo: real, hi: real, q: real)
    requires hi > 0.0 && lo >= 0.0 && lo / hi <= q
    ensures lo <= q * hi
  {
    assert lo == (lo / hi) * hi;
    MulMono(lo / hi, hi, q, hi);
  }
}
