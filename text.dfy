/** The few string operations the shop relies on: `toLowerCase`, `includes`,
    `Number.prototype.toString` for non-negative integers and `slice(-k)` for k >= 1. */
module Text {

  /** `toLowerCase` on one character; only the ASCII letters A-Z are folded. */
  function LowerChar(c: char): (r: char)
    ensures 'A' <= c <= 'Z' ==> 'a' <= r <= 'z' && r as int - c as int == 32
    ensures !('A' <= c <= 'Z') ==> r == c
  {
    if 'A' <= c <= 'Z' then (c as int + 32) as char else c
  }

  /** `toLowerCase` on a string, character by character. */
  function Lower(s: string): (r: string)
    ensures |r| == |s|
    ensures forall i :: 0 <= i < |s| ==> r[i] == LowerChar(s[i])
    ensures forall i :: 0 <= i < |r| ==> !('A' <= r[i] <= 'Z')
  {
    seq(|s|, i requires 0 <= i < |s| => LowerChar(s[i]))
  }

  /** Lower-casing is idempotent, so a term typed in lower case matches itself lower-cased. */
  lemma LowerIdempotent(s: string)
    ensures Lower(Lower(s)) == Lower(s)
  {
  }

  /** `needle` occurs in `hay` starting at offset `i`. */
  predicate OccursAt(hay: string, needle: string, i: int) {
    0 <= i && i + |needle| <= |hay| && hay[i..i + |needle|] == needle
  }

  /** `hay.includes(needle)`: `needle` occurs in `hay` at some offset. */
  predicate Contains(hay: string, needle: string) {
    exists i | 0 <= i <= |hay| - |needle| :: OccursAt(hay, needle, i)
  }

  /** The empty string occurs in every string. */
  lemma ContainsEmpty(hay: string)
    ensures Contains(hay, "")
  {
    assert OccursAt(hay, "", 0);
  }

  // ---------------------------------------------------------------------------
  // Decimal rendering of a non-negative integer

  function Pow10(k: nat): (r: nat)
    ensures r >= 1
  {
    if k == 0 then 1 else 10 * Pow10(k - 1)
  }

  predicate IsDigit(c: char) {
    '0' <= c <= '9'
  }

  function DigitChar(d: nat): (c: char)
    requires d < 10
    ensures IsDigit(c) && c as int - '0' as int == d
  {
    ('0' as int + d) as char
  }

  function DigitValue(c: char): (d: nat)
    requires IsDigit(c)
    ensures d < 10
  {
    c as int - '0' as int
  }

  /** The number a string of decimal digits denotes, most significant digit first. */
  function Value(s: string): nat
    requires forall i :: 0 <= i < |s| ==> IsDigit(s[i])
  {
    if s == [] then 0 else 10 * Value(s[..|s| - 1]) + DigitValue(s[|s| - 1])
  }

  /** `n.toString()` for a non-negative integer: its shortest decimal digit string. */
  function Decimal(n: nat): (r: string)
    ensures 1 <= |r|
    ensures forall i :: 0 <= i < |r| ==> IsDigit(r[i])
    ensures |r| > 1 ==> r[0] != '0'
  {
    if n < 10 then [DigitChar(n)] else Decimal(n / 10) + [DigitChar(n % 10)]
  }

  /** Reading back the digits of `Decimal(n)` gives `n`. */
  lemma {:induction false} DecimalValue(n: nat)
    ensures Value(Decimal(n)) == n
  {
    var d := Decimal(n);
    if n >= 10 {
      DecimalValue(n / 10);
      assert d[..|d| - 1] == Decimal(n / 10);
    }
  }

  /** Digit strings denote fewer than `10^length` values. */
  lemma {:induction false} ValueBound(s: string)
    requires forall i :: 0 <= i < |s| ==> IsDigit(s[i])
    ensures Value(s) < Pow10(|s|)
    decreases |s|
  {
    if s != [] {
      ValueBound(s[..|s| - 1]);
    }
  }

  /** Reading a concatenation: the left part is shifted by the length of the right part. */
  lemma {:induction false} ValueConcat(a: string, b: string)
    requires forall i :: 0 <= i < |a| ==> IsDigit(a[i])
    requires forall i :: 0 <= i < |b| ==> IsDigit(b[i])
    ensures Value(a + b) == Value(a) * Pow10(|b|) + Value(b)
    decreases |b|
  {
    if b == [] {
      assert a + b == a;
    } else {
      var b' := b[..|b| - 1];
      var d := DigitValue(b[|b| - 1]);
      assert (a + b)[..|a + b| - 1] == a + b';
      ValueConcat(a, b');
      var va, p := Value(a), Pow10(|b'|);
      assert Value(a + b) == 10 * (va * p + Value(b')) + d;
      assert 10 * (va * p) == va * (10 * p) by {
        MulAssoc(va, p);
      }
    }
  }

  lemma MulAssoc(x: int, y: int)
    ensures 10 * (x * y) == x * (10 * y)
  {
  }

  lemma ModUnique(x: int, q: int, m: int, r: int)
    requires 0 <= r < m && x == q * m + r
    ensures x % m == r
  {
    var q', r' := x / m, x % m;
    assert x == q' * m + r';
    assert (q - q') * m == r' - r by {
      assert q * m - q' * m == (q - q') * m;
    }
    if q != q' {
      if q > q' { MulAtLeast(q - q', m); } else { MulAtLeast(q' - q, m); }
      assert false;
    }
  }

  lemma MulAtLeast(a: int, m: int)
    requires a >= 1 && m >= 0
    ensures a * m >= m
  {
    assert a * m == (a - 1) * m + m;
    assert (a - 1) * m >= 0;
  }

  /** `s.slice(-k)` for k >= 1: the last `k` characters, or all of `s` when it is shorter.
      (At k = 0 JavaScript returns all of `s`, since -0 is 0; the shop only uses k = 8.) */
  function TakeLast(s: string, k: nat): (r: string)
    ensures |r| == if |s| < k then |s| else k
    ensures r == s[|s| - |r|..]
  {
    if |s| < k then s else s[|s| - k..]
  }

  /** The last `k` digits of `Decimal(n)` denote `n mod 10^k`. */
  lemma LastDigitsValue(n: nat, k: nat)
    ensures var t := TakeLast(Decimal(n), k);
      (forall i :: 0 <= i < |t| ==> IsDigit(t[i])) && Value(t) == n % Pow10(k)
  {
    var d := Decimal(n);
    DecimalValue(n);
    if |d| < k {
      ShortValueMod(d, k);
    } else {
      SuffixValueMod(d, k);
    }
  }

  /** A digit string shorter than `k` denotes a value below `10^k`. */
  lemma ShortValueMod(d: string, k: nat)
    requires forall i :: 0 <= i < |d| ==> IsDigit(d[i])
    requires |d| < k
    ensures Value(d) % Pow10(k) == Value(d)
  {
    ValueBound(d);
    PowMonotone(|d|, k);
    ModUnique(Value(d), 0, Pow10(k), Value(d));
  }

  /** The last `k` digits of a digit string denote its value mod `10^k`. */
  lemma SuffixValueMod(d: string, k: nat)
    requires forall i :: 0 <= i < |d| ==> IsDigit(d[i])
    requires k <= |d|
    ensures Value(d[|d| - k..]) == Value(d) % Pow10(k)
  {
    var head, t := d[..|d| - k], d[|d| - k..];
    assert d == head + t;
    ValueConcat(head, t);
    ValueBound(t);
    ModUnique(Value(d), Value(head), Pow10(k), Value(t));
  }

  lemma {:induction false} PowMonotone(a: nat, b: nat)
    requires a <= b
    ensures Pow10(a) <= Pow10(b)
    decreases b
  {
    if a < b { PowMonotone(a, b - 1); }
  }
}
