/** Big-endian numbers (src/binio.c). */
module Binio {
  import opened Prelude

  function Pow256(n: nat): nat {
    if n == 0 then 1 else 256 * Pow256(n - 1)
  }

  /** The n low bytes of s, most significant first. */
  function Be(n: nat, s: nat): (b: seq<Byte>)
    ensures |b| == n
  {
    if n == 0 then [] else Be(n - 1, s / 256) + [(s % 256) as Byte]
  }

  function Num(b: seq<Byte>): nat {
    if b == [] then 0 else Num(b[..|b| - 1]) * 256 + b[|b| - 1] as nat
  }

  /** Reading gives back what was written, if it fits. */
  lemma {:induction false} ReadsBack(n: nat, s: nat)
    requires s < Pow256(n)
    ensures Num(Be(n, s)) == s
  {
    if n > 0 {
      ReadsBack(n - 1, s / 256);
      assert Be(n, s)[..n - 1] == Be(n - 1, s / 256);
    }
  }

  /** Every string of bytes is the encoding of the number read from it. */
  lemma {:induction false} WritesBack(b: seq<Byte>)
    ensures Num(b) < Pow256(|b|) && Be(|b|, Num(b)) == b
  {
    if b != [] {
      var last := |b| - 1;
      WritesBack(b[..last]);
      var q, r := Num(b[..last]), b[last] as nat;
      assert Num(b) == q * 256 + r;
      assert (q * 256 + r) / 256 == q && (q * 256 + r) % 256 == r;
      assert b == b[..last] + [b[last]];
    }
  }

  lemma {:induction false} BeInjective(n: nat, s: nat, s': nat)
    requires s < Pow256(n) && s' < Pow256(n) && Be(n, s) == Be(n, s')
    ensures s == s'
  {
    ReadsBack(n, s);
    ReadsBack(n, s');
  }

  // ----- the functions of the source, byte by byte -----

  /** A right shift by 8 * n. */
  function Shifted(s: nat, n: nat): nat {
    if n == 0 then s else Shifted(s / 256, n - 1)
  }

  function ByteAt(s: nat, n: nat): Byte {
    (Shifted(s, n) % 256) as Byte
  }

  lemma {:induction false} BeIndex(n: nat, s: nat, i: nat)
    requires i < n
    ensures Be(n, s)[i] == ByteAt(s, n - 1 - i)
  {
    if i < n - 1 {
      BeIndex(n - 1, s / 256, i);
    }
  }

  /** binio_write_uint32_be */
  method WriteUint32(buf: array<Byte>, off: nat, s: nat)
    requires off + 4 <= buf.Length
    modifies buf
    ensures buf[..] == old(buf[..off]) + Be(4, s) + old(buf[off + 4..])
  {
    hide Be, ByteAt, Shifted;
    ghost var was := buf[..];
    buf[off] := ByteAt(s, 3);
    buf[off + 1] := ByteAt(s, 2);
    buf[off + 2] := ByteAt(s, 1);
    buf[off + 3] := ByteAt(s, 0);
    assert buf[..] ==
      was[off := ByteAt(s, 3)][off + 1 := ByteAt(s, 2)][off + 2 := ByteAt(s, 1)][off + 3 := ByteAt(s, 0)];
    BeIndex(4, s, 0);
    BeIndex(4, s, 1);
    BeIndex(4, s, 2);
    BeIndex(4, s, 3);
  }

  /** binio_write_uint64_be */
  method WriteUint64(buf: array<Byte>, off: nat, s: nat)
    requires off + 8 <= buf.Length
    modifies buf
    ensures buf[..] == old(buf[..off]) + Be(8, s) + old(buf[off + 8..])
  {
    hide Be, ByteAt, Shifted;
    ghost var was := buf[..];
    buf[off] := ByteAt(s, 7);
    buf[off + 1] := ByteAt(s, 6);
    buf[off + 2] := ByteAt(s, 5);
    buf[off + 3] := ByteAt(s, 4);
    assert buf[..] ==
      was[off := ByteAt(s, 7)][off + 1 := ByteAt(s, 6)][off + 2 := ByteAt(s, 5)][off + 3 := ByteAt(s, 4)];
    ghost var half := buf[..];
    buf[off + 4] := ByteAt(s, 3);
    buf[off + 5] := ByteAt(s, 2);
    buf[off + 6] := ByteAt(s, 1);
    buf[off + 7] := ByteAt(s, 0);
    assert buf[..] ==
      half[off + 4 := ByteAt(s, 3)][off + 5 := ByteAt(s, 2)][off + 6 := ByteAt(s, 1)][off + 7 := ByteAt(s, 0)];
    Four(was, off, ByteAt(s, 7), ByteAt(s, 6), ByteAt(s, 5), ByteAt(s, 4));
    Four(half, off + 4, ByteAt(s, 3), ByteAt(s, 2), ByteAt(s, 1), ByteAt(s, 0));
    Be8(s);
    FourMore(was, half, buf[..], off, [ByteAt(s, 7), ByteAt(s, 6), ByteAt(s, 5), ByteAt(s, 4)],
      [ByteAt(s, 3), ByteAt(s, 2), ByteAt(s, 1), ByteAt(s, 0)]);
  }

  lemma Be8(s: nat)
    ensures Be(8, s) == [ByteAt(s, 7), ByteAt(s, 6), ByteAt(s, 5), ByteAt(s, 4)]
      + [ByteAt(s, 3), ByteAt(s, 2), ByteAt(s, 1), ByteAt(s, 0)]
  {
    hide Be, ByteAt, Shifted;
    forall i | 0 <= i < 8
      ensures Be(8, s)[i] == ByteAt(s, 7 - i)
    {
      BeIndex(8, s, i);
    }
  }

  lemma Four(x: seq<Byte>, off: nat, a: Byte, b: Byte, c: Byte, d: Byte)
    requires off + 4 <= |x|
    ensures x[off := a][off + 1 := b][off + 2 := c][off + 3 := d] == x[..off] + [a, b, c, d] + x[off + 4..]
  {
  }

  lemma FourMore(x: seq<Byte>, y: seq<Byte>, z: seq<Byte>, off: nat, a: seq<Byte>, b: seq<Byte>)
    requires off + 8 <= |x| && |a| == 4 && |b| == 4
    requires y == x[..off] + a + x[off + 4..]
    requires z == y[..off + 4] + b + y[off + 8..]
    ensures z == x[..off] + (a + b) + x[off + 8..]
  {
  }

  /** binio_read_uint32_be: the four bytes shifted into place. */
  function ReadUint32(b: seq<Byte>): nat
    requires |b| == 4
  {
    b[0] as nat * 0x100_0000 + b[1] as nat * 0x1_0000 + b[2] as nat * 0x100 + b[3] as nat
  }

  lemma ReadUint32IsNum(b: seq<Byte>)
    requires |b| == 4
    ensures ReadUint32(b) == Num(b)
  {
    assert b[..3][..2] == b[..2] && b[..2][..1] == b[..1] && b[..1][..0] == [];
    assert Num(b[..1]) == b[0] as nat;
    assert Num(b[..2]) == b[0] as nat * 256 + b[1] as nat;
    assert Num(b[..3]) == Num(b[..2]) * 256 + b[2] as nat;
  }

  /** binio_read_uint64_be */
  function ReadUint64(b: seq<Byte>): nat
    requires |b| == 8
  {
    ReadUint32(b[..4]) * 0x1_0000_0000 + ReadUint32(b[4..])
  }

  lemma ReadUint64IsNum(b: seq<Byte>)
    requires |b| == 8
    ensures ReadUint64(b) == Num(b)
  {
    ReadUint32IsNum(b[..4]);
    NumSplit(b, 4);
    ReadUint32IsNum(b[4..]);
    Pow256Four();
  }

  lemma Pow256Four()
    ensures Pow256(4) == 0x1_0000_0000 && Pow256(8) == 0x1_0000_0000_0000_0000
  {
    assert Pow256(2) == 65536;
    assert Pow256(3) == 0x100_0000;
    assert Pow256(4) == 0x1_0000_0000;
    assert Pow256(5) == 0x100_0000_0000;
    assert Pow256(6) == 0x1_0000_0000_0000;
    assert Pow256(7) == 0x100_0000_0000_0000;
  }

  lemma Regroup(a: nat, p: nat, c: nat, d: nat)
    ensures (a * p + c) * 256 + d == a * (256 * p) + (c * 256 + d)
  {
    assert a * (256 * p) == 256 * (a * p);
  }

  lemma {:induction false} NumSplit(b: seq<Byte>, k: nat)
    requires k <= |b|
    ensures Num(b) == Num(b[..k]) * Pow256(|b| - k) + Num(b[k..])
    decreases |b| - k
  {
    if k == |b| {
      assert b[..k] == b;
    } else {
      var last := |b| - 1;
      NumSplit(b[..last], k);
      assert b[..last][..k] == b[..k] && b[..last][k..] == b[k..][..last - k];
      assert b[k..][last - k] == b[last];
      Regroup(Num(b[..k]), Pow256(last - k), Num(b[k..][..last - k]), b[last] as nat);
    }
  }
}
