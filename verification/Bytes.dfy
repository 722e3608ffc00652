/** Octets, machine words and the big-endian accessors of mdns/mdns_private.h. */
module Bytes {
  datatype Option<T> = None | Some(value: T)

  type byte = x: int | 0 <= x < 0x100
  type u16 = x: int | 0 <= x < 0x1_0000
  type u32 = x: int | 0 <= x < 0x1_0000_0000

  const U32_MAX: u32 := 0xFFFF_FFFF

  function Be16(v: u16): (b: seq<byte>)
    ensures |b| == 2
  {
    [v / 0x100, v % 0x100]
  }

  function Be32(v: u32): (b: seq<byte>)
    ensures |b| == 4
  {
    [v / 0x100_0000, v / 0x1_0000 % 0x100, v / 0x100 % 0x100, v % 0x100]
  }

  function Get16(b: seq<byte>, i: nat): u16
    requires i + 2 <= |b|
  {
    (b[i] as int) * 0x100 + b[i + 1] as int
  }

  function Get32(b: seq<byte>, i: nat): u32
    requires i + 4 <= |b|
  {
    (b[i] as int) * 0x100_0000 + (b[i + 1] as int) * 0x1_0000 + (b[i + 2] as int) * 0x100 + b[i + 3] as int
  }

  /** The buffer b holds the octets e at offset k. */
  predicate At(b: seq<byte>, k: nat, e: seq<byte>) {
    k + |e| <= |b| && b[k..k + |e|] == e
  }

  lemma AtIndex(b: seq<byte>, k: nat, e: seq<byte>, i: nat)
    requires At(b, k, e) && i < |e|
    ensures b[k + i] == e[i]
  {
    assert b[k..k + |e|][i] == b[k + i];
  }

  /** Octets in a row are held one part after the other. */
  lemma AtParts(b: seq<byte>, k: nat, x: seq<byte>, y: seq<byte>)
    ensures At(b, k, x + y) <==> At(b, k, x) && At(b, k + |x|, y)
  {
    var n := |x| + |y|;
    if k + n <= |b| {
      assert b[k..k + n] == b[k..k + |x|] + b[k + |x|..k + |x| + |y|];
      assert (x + y)[..|x|] == x && (x + y)[|x|..] == y;
      assert b[k..k + |x|] == b[k..k + n][..|x|] && b[k + |x|..k + |x| + |y|] == b[k..k + n][|x|..];
    }
  }

  /** Reading a word back from the place it was written to. */
  lemma Get16AfterBe16(b: seq<byte>, i: nat, v: u16)
    requires At(b, i, Be16(v))
    ensures Get16(b, i) == v
  {
    AtIndex(b, i, Be16(v), 0);
    AtIndex(b, i, Be16(v), 1);
  }

  lemma Get32AfterBe32(b: seq<byte>, i: nat, v: u32)
    requires At(b, i, Be32(v))
    ensures Get32(b, i) == v
  {
    AtIndex(b, i, Be32(v), 0);
    AtIndex(b, i, Be32(v), 1);
    AtIndex(b, i, Be32(v), 2);
    AtIndex(b, i, Be32(v), 3);
    FourOctets(v);
  }

  lemma FourOctets(v: u32)
    ensures v / 0x100_0000 * 0x100_0000 + v / 0x1_0000 % 0x100 * 0x1_0000
            + v / 0x100 % 0x100 * 0x100 + v % 0x100 == v
  {
    var a := v / 0x100;
    var b := a / 0x100;
    assert v / 0x1_0000 == b && v / 0x100_0000 == b / 0x100;
  }

  /** Three-way comparison of two sequences of octets: the first difference
      decides, and a proper prefix comes first. */
  function ByteCmp(a: seq<byte>, b: seq<byte>): (r: int)
    ensures -1 <= r <= 1
  {
    if a == [] then (if b == [] then 0 else -1)
    else if b == [] then 1
    else if a[0] > b[0] then 1
    else if a[0] < b[0] then -1
    else ByteCmp(a[1..], b[1..])
  }

  lemma {:induction false} ByteCmpZero(a: seq<byte>, b: seq<byte>)
    ensures ByteCmp(a, b) == 0 <==> a == b
  {
    if a != [] && b != [] {
      ByteCmpZero(a[1..], b[1..]);
      assert a == [a[0]] + a[1..] && b == [b[0]] + b[1..];
    }
  }

  lemma {:induction false} ByteCmpAntisymmetric(a: seq<byte>, b: seq<byte>)
    ensures ByteCmp(a, b) == -ByteCmp(b, a)
  {
    if a != [] && b != [] {
      ByteCmpAntisymmetric(a[1..], b[1..]);
    }
  }

  lemma {:induction false} ByteCmpTransitive(a: seq<byte>, b: seq<byte>, c: seq<byte>)
    requires ByteCmp(a, b) <= 0 && ByteCmp(b, c) <= 0
    ensures ByteCmp(a, c) <= 0
    ensures ByteCmp(a, c) == 0 ==> ByteCmp(a, b) == 0 && ByteCmp(b, c) == 0
  {
    if a != [] && b != [] && c != [] && a[0] == b[0] == c[0] {
      ByteCmpTransitive(a[1..], b[1..], c[1..]);
    }
  }

  /** The comparison is decided at the first index where the sequences differ. */
  lemma {:induction false} ByteCmpFirstDifference(a: seq<byte>, b: seq<byte>, k: nat)
    requires k <= |a| && k <= |b| && a[..k] == b[..k]
    ensures ByteCmp(a, b) == ByteCmp(a[k..], b[k..])
  {
    if k > 0 {
      assert a[0] == a[..k][0] == b[..k][0] == b[0];
      assert a[1..][..k - 1] == a[..k][1..] == b[..k][1..] == b[1..][..k - 1];
      ByteCmpFirstDifference(a[1..], b[1..], k - 1);
      assert a[1..][k - 1..] == a[k..] && b[1..][k - 1..] == b[k..];
    } else {
      assert a[0..] == a && b[0..] == b;
    }
  }

  /** memcpy into a buffer. */
  method CopyOctets(dst: array<byte>, at: nat, src: seq<byte>)
    requires at + |src| <= dst.Length
    modifies dst
    ensures dst[..] == old(dst[..at]) + src + old(dst[at + |src|..])
    ensures dst[..at + |src|] == old(dst[..at]) + src
    ensures dst[at + |src|..] == old(dst[at + |src|..])
  {
    forall k | 0 <= k < |src| { dst[at + k] := src[k]; }
  }
}
