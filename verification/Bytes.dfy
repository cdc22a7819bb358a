/** Byte strings and the big-endian length prefixes every wire format here uses. */
module Bytes {

  type byte = b: int | 0 <= b < 256

  function Pow256(k: nat): (r: nat)
    ensures r > 0
  {
    if k == 0 then 1 else 256 * Pow256(k - 1)
  }

  /** The low `k` bytes of `n`, most significant first: `to_be_bytes` after a cast to `k` bytes. */
  function BigEndian(n: nat, k: nat): (s: seq<byte>)
    ensures |s| == k
  {
    if k == 0 then [] else BigEndian(n / 256, k - 1) + [n % 256]
  }

  function FromBigEndian(s: seq<byte>): nat
  {
    if s == [] then 0 else FromBigEndian(s[..|s| - 1]) * 256 + s[|s| - 1]
  }

  lemma {:induction false} BigEndianRoundTrip(n: nat, k: nat)
    requires n < Pow256(k)
    ensures FromBigEndian(BigEndian(n, k)) == n
  {
    if k > 0 {
      BigEndianRoundTrip(n / 256, k - 1);
      assert BigEndian(n, k)[..k - 1] == BigEndian(n / 256, k - 1);
    }
  }

  lemma {:induction false} FromBigEndianRoundTrip(s: seq<byte>)
    ensures FromBigEndian(s) < Pow256(|s|) && BigEndian(FromBigEndian(s), |s|) == s
  {
    if s != [] {
      FromBigEndianRoundTrip(s[..|s| - 1]);
      assert s == s[..|s| - 1] + [s[|s| - 1]];
    }
  }

  lemma Pow256Values()
    ensures Pow256(4) == 0x1_0000_0000 && Pow256(8) == 0x1_0000_0000_0000_0000
  {
    assert Pow256(2) == 0x1_0000;
    assert Pow256(4) == 0x1_0000_0000;
    assert Pow256(6) == 0x1_0000_0000_0000;
  }

  lemma DivideTwice(n: nat, b: nat)
    requires b > 0
    ensures n / 256 / b == n / (256 * b)
  {
    var q, r := n / 256, n % 256;
    var p, s := q / b, q % b;
    assert n == 256 * (b * p + s) + r == (256 * b) * p + (256 * s + r);
    assert 0 <= 256 * s + r < 256 * b;
    QuotientUnique(n, 256 * b, p, 256 * s + r);
  }

  lemma QuotientUnique(n: nat, d: nat, q: nat, r: nat)
    requires d > 0 && n == d * q + r && r < d
    ensures n / d == q
  {
    var k, m := n / d, n % d;
    assert d * (k - q) == r - m;
    AtLeastOnce(d, k - q);
  }

  lemma AtLeastOnce(d: nat, x: int)
    ensures x > 0 ==> d * x >= d
    ensures x < 0 ==> d * x + d <= 0
  {
  }

  /** The byte order: byte `i` of `k` is the digit of weight 256^(k-1-i). */
  lemma {:induction false} BigEndianAt(n: nat, k: nat, i: nat)
    requires i < k
    ensures BigEndian(n, k)[i] == n / Pow256(k - 1 - i) % 256
  {
    if i < k - 1 {
      BigEndianAt(n / 256, k - 1, i);
      DivideTwice(n, Pow256(k - 2 - i));
    }
  }

  /** Four bytes are read most significant first. */
  lemma FourBytes(s: seq<byte>)
    requires |s| == 4
    ensures FromBigEndian(s) == s[0] as int * 0x100_0000 + s[1] as int * 0x1_0000 + s[2] as int * 0x100 + s[3] as int
  {
    assert s[..3][..2] == s[..2] && s[..2][..1] == s[..1] && s[..1][..0] == [];
    assert FromBigEndian(s[..1]) == s[0];
    assert FromBigEndian(s[..2]) == s[0] as int * 0x100 + s[1] as int;
    assert FromBigEndian(s[..3]) == s[0] as int * 0x1_0000 + s[1] as int * 0x100 + s[2] as int;
  }

  /** Byte strings one after the other. */
  function Joined(parts: seq<seq<byte>>): seq<byte>
  {
    if parts == [] then [] else Joined(parts[..|parts| - 1]) + parts[|parts| - 1]
  }

  /** A component with its 4-byte length in front. */
  function Prefixed(field: seq<byte>): (s: seq<byte>)
    ensures |s| == 4 + |field|
  {
    BigEndian(|field|, 4) + field
  }

  /** What a length prefix looks like on the wire. */
  lemma PrefixOnTheWire(field: seq<byte>)
    requires |field| < 0x1_0000_0000
    ensures var s := Prefixed(field);
            && s[0] as int * 0x100_0000 + s[1] as int * 0x1_0000 + s[2] as int * 0x100 + s[3] as int == |field|
            && s[4..] == field
  {
    Pow256Values();
    BigEndianRoundTrip(|field|, 4);
    FourBytes(BigEndian(|field|, 4));
  }

  /** Length prefixes parse back uniquely: equal encodings have equal fields and equal rests. */
  lemma PrefixedInjective(a: seq<byte>, x: seq<byte>, b: seq<byte>, y: seq<byte>)
    requires |a| < Pow256(4) && |b| < Pow256(4)
    requires Prefixed(a) + x == Prefixed(b) + y
    ensures a == b && x == y
  {
    var s := Prefixed(a) + x;
    assert s[..4] == BigEndian(|a|, 4);
    assert s[..4] == BigEndian(|b|, 4) by { assert s == Prefixed(b) + y; }
    BigEndianRoundTrip(|a|, 4);
    BigEndianRoundTrip(|b|, 4);
    assert a == s[4..4 + |a|];
    assert b == (Prefixed(b) + y)[4..4 + |b|];
    assert x == s[4 + |a|..];
    assert y == (Prefixed(b) + y)[4 + |b|..];
  }
}
