/** The bytes of a Rust string: UTF-8 as RFC 3629, section 3 lays it out. */
module Utf8 {

  type Byte = b: int | 0 <= b < 0x100

  function Encode(c: char): seq<Byte> {
    var n := c as int;
    if n < 0x80 then [n]
    else if n < 0x800 then [0xC0 + n / 0x40, 0x80 + n % 0x40]
    else if n < 0x1_0000 then [0xE0 + n / 0x1000, 0x80 + n / 0x40 % 0x40, 0x80 + n % 0x40]
    else [0xF0 + n / 0x4_0000, 0x80 + n / 0x1000 % 0x40, 0x80 + n / 0x40 % 0x40, 0x80 + n % 0x40]
  }

  function Bytes(s: string): seq<Byte> {
    if s == [] then [] else Encode(s[0]) + Bytes(s[1..])
  }

  /** No character's bytes begin another's: the first byte fixes how many follow. */
  lemma EncodePrefixFree(c: char, d: char, x: seq<Byte>, y: seq<Byte>)
    requires Encode(c) + x == Encode(d) + y
    ensures c == d && x == y
  {
    var l, r := Encode(c) + x, Encode(d) + y;
    assert l[0] == Encode(c)[0] && r[0] == Encode(d)[0];
    SameLength(c, d);
    var k := |Encode(c)|;
    assert Encode(c) == l[..k] == r[..k] == Encode(d);
    assert x == l[k..] == r[k..] == y;
    EncodeInjective(c, d);
  }

  lemma SameLength(c: char, d: char)
    requires Encode(c)[0] == Encode(d)[0]
    ensures |Encode(c)| == |Encode(d)|
  {
  }

  lemma EncodeInjective(c: char, d: char)
    requires Encode(c) == Encode(d)
    ensures c == d
  {
    Decodes(c);
    Decodes(d);
  }

  function Decode(b: seq<int>): int {
    if |b| == 1 then b[0]
    else if |b| == 2 then (b[0] - 0xC0) * 0x40 + (b[1] - 0x80)
    else if |b| == 3 then (b[0] - 0xE0) * 0x1000 + (b[1] - 0x80) * 0x40 + (b[2] - 0x80)
    else if |b| == 4 then (b[0] - 0xF0) * 0x4_0000 + (b[1] - 0x80) * 0x1000 + (b[2] - 0x80) * 0x40 + (b[3] - 0x80)
    else -1
  }

  lemma Decodes(c: char)
    ensures Decode(Encode(c)) == c as int
  {
    var n := c as int;
    assert n == n / 0x40 * 0x40 + n % 0x40;
    assert n / 0x40 == n / 0x1000 * 0x40 + n / 0x40 % 0x40;
    assert n / 0x1000 == n / 0x4_0000 * 0x40 + n / 0x1000 % 0x40;
  }

  lemma {:induction false} BytesInjective(a: string, b: string)
    requires Bytes(a) == Bytes(b)
    ensures a == b
  {
    if a != [] && b != [] {
      EncodePrefixFree(a[0], b[0], Bytes(a[1..]), Bytes(b[1..]));
      BytesInjective(a[1..], b[1..]);
      assert a == [a[0]] + a[1..] && b == [b[0]] + b[1..];
    }
  }

  lemma {:induction false} BytesConcat(a: string, b: string)
    ensures Bytes(a + b) == Bytes(a) + Bytes(b)
  {
    if a == [] {
      assert a + b == b;
    } else {
      assert (a + b)[1..] == a[1..] + b;
      BytesConcat(a[1..], b);
    }
  }

  lemma {:induction false} AsciiBytes(s: string)
    requires forall i :: 0 <= i < |s| ==> s[i] as int < 0x80
    ensures |Bytes(s)| == |s| && forall i :: 0 <= i < |s| ==> Bytes(s)[i] == s[i] as int
  {
    if s != [] {
      AsciiBytes(s[1..]);
    }
  }
}
