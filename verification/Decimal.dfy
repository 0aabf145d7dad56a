/** Decimal printing as Rust's `{}` and `{:0w}` do it, a reader for it, and the
    byte-by-byte order of strings. */
module Decimal {

  function Digit(k: int): char
    requires 0 <= k < 10
  {
    ('0' as int + k) as char
  }

  predicate IsDigit(c: char) {
    '0' <= c <= '9'
  }

  predicate Digits(s: string) {
    forall i :: 0 <= i < |s| ==> IsDigit(s[i])
  }

  /** `{}` on an unsigned number. */
  function Dec(n: nat): string {
    if n < 10 then [Digit(n)] else Dec(n / 10) + [Digit(n % 10)]
  }

  function Zeros(k: nat): string {
    seq(k, _ => '0')
  }

  /** `{:0w}` on an unsigned number: at least `w` characters, filled with zeros. */
  function Pad(n: nat, w: nat): string {
    var d := Dec(n);
    if |d| < w then Zeros(w - |d|) + d else d
  }

  /** The number a string of digits denotes. */
  function Value(s: string): nat
    requires Digits(s)
  {
    if s == [] then 0
    else 10 * Value(s[..|s| - 1]) + (s[|s| - 1] as int - '0' as int)
  }

  lemma {:induction false} DecReads(n: nat)
    ensures Digits(Dec(n)) && Value(Dec(n)) == n && |Dec(n)| >= 1
    decreases n
  {
    if n < 10 {
      assert Dec(n)[..0] == [];
    } else {
      DecReads(n / 10);
      assert Dec(n)[..|Dec(n)| - 1] == Dec(n / 10);
    }
  }

  lemma TwoMoreDigits(n: nat)
    requires n >= 100
    ensures |Dec(n)| == |Dec(n / 100)| + 2
  {
    assert n / 10 / 10 == n / 100;
    assert Dec(n / 10) == Dec(n / 100) + [Digit(n / 10 % 10)];
  }

  lemma DecWidth(n: nat)
    ensures |Dec(n)| <= 2 <==> n < 100
    ensures |Dec(n)| <= 4 <==> n < 10_000
  {
    if n >= 100 {
      TwoMoreDigits(n);
      DecReads(n / 100);
      if n / 100 >= 100 {
        TwoMoreDigits(n / 100);
        DecReads(n / 100 / 100);
      }
    }
  }

  lemma DecInjective(a: nat, b: nat)
    requires Dec(a) == Dec(b)
    ensures a == b
  {
    DecReads(a);
    DecReads(b);
  }

  lemma {:induction false} LeadingZeros(k: nat, s: string)
    requires Digits(s)
    ensures Digits(Zeros(k) + s) && Value(Zeros(k) + s) == Value(s)
    decreases |s| + k
  {
    var z := Zeros(k) + s;
    if s == [] {
      if k > 0 {
        assert z[..|z| - 1] == Zeros(k - 1) + s;
        LeadingZeros(k - 1, s);
      }
    } else {
      assert z[..|z| - 1] == Zeros(k) + s[..|s| - 1];
      LeadingZeros(k, s[..|s| - 1]);
    }
  }

  /** Padding changes neither the number read nor, for a number that fits, the width. */
  lemma PadReads(n: nat, w: nat)
    ensures Digits(Pad(n, w)) && Value(Pad(n, w)) == n
    ensures n < 100 && w == 2 ==> |Pad(n, w)| == 2
    ensures w == 4 ==> (n < 10_000 <==> |Pad(n, w)| == 4) && |Pad(n, w)| >= 4
  {
    DecReads(n);
    DecWidth(n);
    if |Dec(n)| < w {
      LeadingZeros(w - |Dec(n)|, Dec(n));
    }
  }

  /** Strings in the order of their characters, a prefix first. */
  predicate Less(a: string, b: string) {
    b != [] && (a == [] || a[0] < b[0] || (a[0] == b[0] && Less(a[1..], b[1..])))
  }

  lemma {:induction false} LessConcat(p: string, q: string, s: string, t: string)
    requires |p| == |q|
    ensures Less(p + s, q + t) <==> Less(p, q) || (p == q && Less(s, t))
  {
    if p == [] {
      assert p + s == s && q + t == t;
    } else {
      LessConcat(p[1..], q[1..], s, t);
      assert (p + s)[1..] == p[1..] + s && (q + t)[1..] == q[1..] + t;
      assert p == [p[0]] + p[1..] && q == [q[0]] + q[1..];
    }
  }

  /** Digit strings of one width are ordered as the numbers they denote. */
  lemma {:induction false} DigitsOrder(a: string, b: string)
    requires Digits(a) && Digits(b) && |a| == |b|
    ensures Less(a, b) <==> Value(a) < Value(b)
    ensures a == b <==> Value(a) == Value(b)
  {
    if a != [] {
      var m := |a| - 1;
      DigitsOrder(a[..m], b[..m]);
      LessConcat(a[..m], b[..m], [a[m]], [b[m]]);
      assert a == a[..m] + [a[m]] && b == b[..m] + [b[m]];
    }
  }
}
