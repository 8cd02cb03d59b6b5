/** Filling in and scanning the index block in the buffer tmp_macroblock (src/blockio.c). */
module IndexBuffer {
  import opened Prelude
  import opened Binio
  import opened Bitmap
  import opened IndexBlock

  /** From x to y, s was written at offset, and nothing else changed. */
  ghost predicate Wrote(x: seq<Byte>, y: seq<Byte>, offset: nat, s: seq<Byte>) {
    && offset + |s| <= |x| == |y|
    && Slice(y, offset, |s|) == s
    && forall o: nat, n: nat {:trigger Slice(y, o, n)} ::
         o + n <= |x| && (o + n <= offset || offset + |s| <= o) ==> Slice(y, o, n) == Slice(x, o, n)
  }

  lemma Written(x: seq<Byte>, y: seq<Byte>, offset: nat, s: seq<Byte>)
    requires offset + |s| <= |x| && y == x[..offset] + s + x[offset + |s|..]
    ensures Wrote(x, y, offset, s)
  {
  }

  /** Two writes side by side are one. */
  lemma WroteBoth(x: seq<Byte>, y: seq<Byte>, z: seq<Byte>, offset: nat, s: seq<Byte>, t: seq<Byte>)
    requires Wrote(x, y, offset, s) && Wrote(y, z, offset + |s|, t)
    ensures Wrote(x, z, offset, s + t)
  {
    assert Slice(z, offset, |s + t|) == Slice(z, offset, |s|) + Slice(z, offset + |s|, |t|);
  }

  lemma WroteNone(x: seq<Byte>, offset: nat)
    requires offset <= |x|
    ensures Wrote(x, x, offset, [])
  {
  }

  /** memcpy, or memset with equal bytes */
  method Store(base: array<Byte>, offset: nat, s: seq<Byte>)
    requires offset + |s| <= base.Length
    modifies base
    ensures Wrote(old(base[..]), base[..], offset, s)
  {
    hide Wrote;
    ghost var was := base[..];
    var i := 0;
    while i < |s|
      invariant 0 <= i <= |s|
      invariant base[..] == was[..offset] + s[..i] + was[offset + i..]
    {
      ghost var y := base[..];
      base[offset + i] := s[i];
      Extend(was, y, base[..], offset, s[..i], [s[i]]);
      assert s[..i + 1] == s[..i] + [s[i]];
      i := i + 1;
    }
    Written(was, base[..], offset, s);
  }

  /** binio_write_uint32_be and binio_write_uint64_be at a place in the buffer */
  method Store32(base: array<Byte>, offset: nat, s: nat)
    requires offset + 4 <= base.Length
    modifies base
    ensures Wrote(old(base[..]), base[..], offset, Be(4, s))
  {
    hide Wrote, Be;
    WriteUint32(base, offset, s);
    Written(old(base[..]), base[..], offset, Be(4, s));
  }

  method Store64(base: array<Byte>, offset: nat, s: nat)
    requires offset + 8 <= base.Length
    modifies base
    ensures Wrote(old(base[..]), base[..], offset, Be(8, s))
  {
    hide Wrote, Be;
    WriteUint64(base, offset, s);
    Written(old(base[..]), base[..], offset, Be(8, s));
  }

  /** The fields of fixed size, in the order of the source. */
  method FillFront(base: array<Byte>, f: Fields)
    requires base.Length >= 0x100 && |f.dataHash| == 32 && |f.seqnosHash| == 32
    modifies base
    ensures FrontLaid(base[..], f)
  {
    hide Be, Magic, Zeros, Slice;
    Store(base, 0x20, f.dataHash);
    Store(base, 0x40, f.seqnosHash);
    Store64(base, 0x60, f.seqno);
    Store64(base, 0x68, f.next);
    Store(base, 0x70, Magic());
    Store32(base, 0x7C, f.reserved);
    Store32(base, 0x78, f.noMacroblocks);
    Store(base, 0x80, Zeros(128));
  }

  /** The list of indices, zero-padded. */
  method FillIndices(sh: Shape, base: array<Byte>, indices: seq<nat>)
    requires base.Length == sh.Size() && |indices| <= sh.mmpm
    modifies base
    ensures Wrote(old(base[..]), base[..], 0x104, Numbers(Padded(indices, sh.mmpm)))
  {
    hide Be, Wrote, Numbers;
    ghost var x := base[..];
    ghost var p := Padded(indices, sh.mmpm);
    NoNumbers(p[..0]);
    WroteNone(x, 0x104);
    var i := 1;
    while i <= |indices|
      invariant 1 <= i <= |indices| + 1
      invariant Wrote(x, base[..], 0x104, Numbers(p[..i - 1]))
    {
      ghost var y := base[..];
      Store32(base, 0x100 + 4 * i, indices[i - 1]);
      NumbersMore(x, y, base[..], p, i - 1);
      i := i + 1;
    }
    while i <= sh.mmpm
      invariant |indices| + 1 <= i <= sh.mmpm + 1
      invariant Wrote(x, base[..], 0x104, Numbers(p[..i - 1]))
    {
      ghost var y := base[..];
      Store32(base, 0x100 + 4 * i, 0);
      NumbersMore(x, y, base[..], p, i - 1);
      i := i + 1;
    }
    assert p[..i - 1] == p;
  }

  lemma NoNumbers(ns: seq<nat>)
    requires ns == []
    ensures Numbers(ns) == []
  {
  }

  lemma NumbersMore(x: seq<Byte>, y: seq<Byte>, z: seq<Byte>, p: seq<nat>, i: nat)
    requires i < |p| && Wrote(x, y, 0x104, Numbers(p[..i])) && Wrote(y, z, 0x104 + 4 * i, Be(4, p[i]))
    ensures Wrote(x, z, 0x104, Numbers(p[..i + 1]))
  {
    hide Be, Wrote;
    assert p[..i + 1][..i] == p[..i];
    assert Numbers(p[..i + 1]) == Numbers(p[..i]) + Be(4, p[i]);
    WroteBoth(x, y, z, 0x104, Numbers(p[..i]), Be(4, p[i]));
  }

  /** The list of indices and the bitmap. */
  method FillBack(sh: Shape, base: array<Byte>, f: Fields, status: BitSet)
    requires base.Length == sh.Size() && |f.indices| <= sh.mmpm
    requires status.Valid() && status.bits[..] == f.bitmap && |f.bitmap| == sh.words
    requires FrontLaid(base[..], f)
    modifies base
    ensures FrontLaid(base[..], f) && BackLaid(sh, base[..], f)
  {
    hide Be, Magic, Zeros, Numbers, Image, Slice, Padded;
    Store32(base, 0x100, |f.indices|);
    FillIndices(sh, base, f.indices);
    ghost var y := base[..];
    status.Write(base, sh.BitmapOffset());
    Written(y, base[..], sh.BitmapOffset(), Image(f.bitmap));
  }

  /** The part of blockio_dev_write_current_macroblock that makes the index block. */
  method FillIndex(sha: Digest, sh: Shape, base: array<Byte>, f: Fields, status: BitSet)
    requires base.Length == sh.Size() && |f.indices| <= sh.mmpm && |f.dataHash| == 32 && |f.seqnosHash| == 32
    requires status.Valid() && status.bits[..] == f.bitmap && |f.bitmap| == sh.words
    requires IsDigest(sha)
    modifies base
    ensures base[..] == Encode(sha, sh, f)
  {
    hide Be, Magic, Zeros, Numbers, Padded, Image, Body, FrontLaid, BackLaid;
    FillFront(base, f);
    FillBack(sh, base, f, status);
    LaidBody(sh, base[..], f);
    ghost var y := base[..];
    Store(base, 0, sha(base[32..]));
    assert Slice(base[..], 32, base.Length - 32) == Slice(y, 32, base.Length - 32);
    assert base[..] == Slice(base[..], 0, 32) + Slice(base[..], 32, base.Length - 32);
  }

  /** blockio_dev_scan_header, from the decrypted index block to what it says. */
  method ScanIndex(sha: Digest, sh: Shape, base: array<Byte>) returns (r: Scanned)
    requires base.Length == sh.Size()
    ensures r == Decode(sha, sh, base[..])
  {
    hide Magic, Zeros, ReadNumbers, ReadUint32, ReadUint64, Parse, Slice;
    ghost var x := base[..];
    if Slice(base[..], 0x70, 8) != Magic() {
      return NotOurs;
    }
    if Slice(base[..], 0, 32) != sha(base[32..]) {
      return NotOurs;
    }
    var seqno := ReadUint64(Slice(base[..], 0x60, 8));
    var next := ReadUint64(Slice(base[..], 0x68, 8));
    if Slice(base[..], 0x80, 128) != Zeros(128) {
      return Fatal;
    }
    if seqno == 0 {
      return Fatal;
    }
    if next <= seqno {
      return Fatal;
    }
    var n := ReadUint32(Slice(base[..], 0x100, 4));
    if n > sh.mmpm {
      return Overrun;
    }
    ghost var all := ReadNumbers(Slice(x, 0x104, 4 * sh.mmpm));
    var indices: seq<nat> := [];
    var i := 1;
    while i <= n
      invariant 1 <= i <= n + 1
      invariant indices == all[..i - 1]
    {
      NumberIn(x, sh.mmpm, i - 1);
      indices := indices + [ReadUint32(Slice(base[..], 0x100 + 4 * i, 4))];
      i := i + 1;
    }
    while i <= sh.mmpm
      invariant n + 1 <= i <= sh.mmpm + 1
      invariant forall k :: n <= k < i - 1 ==> all[k] == 0
    {
      NumberIn(x, sh.mmpm, i - 1);
      if ReadUint32(Slice(base[..], 0x100 + 4 * i, 4)) != 0 {
        return Fatal;
      }
      i := i + 1;
    }
    return Ours(Fields(Slice(base[..], 0x20, 32), Slice(base[..], 0x40, 32), seqno, next,
                       ReadUint32(Slice(base[..], 0x78, 4)), ReadUint32(Slice(base[..], 0x7C, 4)), indices,
                       Parse(Slice(base[..], sh.BitmapOffset(), 4 * sh.words))));
  }

  lemma NumberIn(x: seq<Byte>, mmpm: nat, i: nat)
    requires 0x104 + 4 * mmpm <= |x| && i < mmpm
    ensures ReadNumbers(Slice(x, 0x104, 4 * mmpm))[i] == ReadUint32(Slice(x, 0x104 + 4 * i, 4))
  {
    hide ReadUint32, Slice;
    assert |Slice(x, 0x104, 4 * mmpm)| / 4 == mmpm;
    SubSlice(x, 0x104, 4 * mmpm, 4 * i, 4);
  }
}
