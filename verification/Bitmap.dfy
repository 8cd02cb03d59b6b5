/** The status bitmap (src/bitmap.c): which macroblocks a device uses. */
module Bitmap {
  import opened Prelude
  import opened Binio

  /** A machine word by its bits, least significant first. */
  type Bits = b: seq<bool> | |b| == 32 witness seq(32, _ => false)

  function Pow2(n: nat): (p: nat)
    ensures p >= 1
  {
    if n == 0 then 1 else 2 * Pow2(n - 1)
  }

  function Value(b: seq<bool>): nat {
    if b == [] then 0 else (if b[0] then 1 else 0) + 2 * Value(b[1..])
  }

  function Expand(n: nat, k: nat): (b: seq<bool>)
    ensures |b| == k
    decreases k
  {
    if k == 0 then [] else [n % 2 == 1] + Expand(n / 2, k - 1)
  }

  lemma {:induction false} ExpandValue(b: seq<bool>)
    ensures Value(b) < Pow2(|b|) && Expand(Value(b), |b|) == b
  {
    if b != [] {
      ExpandValue(b[1..]);
    }
  }

  lemma WordSize()
    ensures Pow2(32) == Pow256(4)
  {
    assert Pow2(8) == 256;
    assert Pow2(16) == 65536;
    assert Pow2(24) == 0x100_0000;
    Pow256Four();
  }

  // ----- bits of a string of words -----

  function Unrolled(ws: seq<Bits>): (f: seq<bool>)
    ensures |f| == 32 * |ws|
  {
    if ws == [] then [] else Unrolled(ws[..|ws| - 1]) + ws[|ws| - 1]
  }

  lemma {:induction false} FlatAt(ws: seq<Bits>, i: nat)
    requires i < 32 * |ws|
    ensures Unrolled(ws)[i] == ws[i / 32][i % 32]
  {
    if i < 32 * (|ws| - 1) {
      FlatAt(ws[..|ws| - 1], i);
    }
  }

  /** Changing bit i % 32 of word i / 32 changes bit i and no other. */
  lemma FlatUpdate(ws: seq<Bits>, i: nat, v: bool)
    requires i < 32 * |ws|
    ensures Unrolled(ws[i / 32 := ws[i / 32][i % 32 := v]]) == Unrolled(ws)[i := v]
  {
    hide Unrolled;
    var ws' := ws[i / 32 := ws[i / 32][i % 32 := v]];
    forall m: nat | m < 32 * |ws|
      ensures Unrolled(ws')[m] == Unrolled(ws)[i := v][m]
    {
      FlatAt(ws, m);
      FlatAt(ws', m);
      if m != i && m / 32 == i / 32 {
        assert m % 32 != i % 32;
      }
    }
  }

  /** popcount */
  function Count(b: seq<bool>): nat {
    if b == [] then 0 else Count(b[..|b| - 1]) + if b[|b| - 1] then 1 else 0
  }

  lemma {:induction false} CountJoin(a: seq<bool>, b: seq<bool>)
    ensures Count(a + b) == Count(a) + Count(b)
  {
    if b == [] {
      assert a + b == a;
    } else {
      assert (a + b)[..|a + b| - 1] == a + b[..|b| - 1];
      CountJoin(a, b[..|b| - 1]);
    }
  }

  lemma {:induction false} CountUpdate(b: seq<bool>, i: nat, v: bool)
    requires i < |b|
    ensures Count(b[i := v]) == Count(b) - (if b[i] then 1 else 0) + (if v then 1 else 0)
  {
    var last := |b| - 1;
    if i < last {
      CountUpdate(b[..last], i, v);
      assert b[i := v][..last] == b[..last][i := v];
    } else {
      assert b[i := v][..last] == b[..last];
    }
  }

  ghost function Ones(b: seq<bool>): set<nat> {
    set i: nat | i < |b| && b[i]
  }

  lemma {:induction false} CountIsSize(b: seq<bool>)
    ensures Count(b) == |Ones(b)|
  {
    if b != [] {
      var last := |b| - 1;
      CountIsSize(b[..last]);
      assert Ones(b) == Ones(b[..last]) + if b[last] then {last} else {};
    }
  }

  lemma NoneSet(ws: seq<Bits>)
    requires ws == []
    ensures Count(Unrolled(ws)) == 0
  {
  }

  lemma {:induction false} CountBound(b: seq<bool>)
    ensures Count(b) <= |b|
  {
    if b != [] {
      CountBound(b[..|b| - 1]);
    }
  }

  lemma CountMore(ws: seq<Bits>, w: Bits)
    ensures Count(Unrolled(ws + [w])) == Count(Unrolled(ws)) + Count(w)
  {
    assert (ws + [w])[..|ws|] == ws;
    CountJoin(Unrolled(ws), w);
  }

  // ----- the bitmap on disk -----

  /** bitmap_write */
  function Image(ws: seq<Bits>): (x: seq<Byte>)
    ensures |x| == 4 * |ws|
  {
    if ws == [] then [] else Image(ws[..|ws| - 1]) + Be(4, Value(ws[|ws| - 1]))
  }

  lemma NoImage(ws: seq<Bits>)
    requires ws == []
    ensures Image(ws) == []
  {
  }

  lemma ImageMore(ws: seq<Bits>, w: Bits)
    ensures Image(ws + [w]) == Image(ws) + Be(4, Value(w))
  {
    assert (ws + [w])[..|ws|] == ws;
  }

  function Word(x: seq<Byte>): (w: Bits)
    requires |x| == 4
  {
    Expand(ReadUint32(x), 32)
  }

  /** bitmap_read */
  function Parse(x: seq<Byte>): (ws: seq<Bits>)
    requires |x| % 4 == 0
    ensures 4 * |ws| == |x|
  {
    if x == [] then [] else Parse(x[..|x| - 4]) + [Word(x[|x| - 4..])]
  }

  lemma WordReadsBack(w: Bits)
    ensures Word(Be(4, Value(w))) == w
  {
    ExpandValue(w);
    WordSize();
    ReadUint32IsNum(Be(4, Value(w)));
    ReadsBack(4, Value(w));
  }

  /** Reading a bitmap gives back what was written. */
  lemma {:induction false} ParseInvertsImage(ws: seq<Bits>)
    ensures Parse(Image(ws)) == ws
  {
    hide Word, Be;
    if ws != [] {
      var last := |ws| - 1;
      ParseInvertsImage(ws[..last]);
      WordReadsBack(ws[last]);
      assert Image(ws)[..4 * last] == Image(ws[..last]) && Image(ws)[4 * last..] == Be(4, Value(ws[last]));
      assert ws == ws[..last] + [ws[last]];
    }
  }

  lemma {:induction false} ParseAt(x: seq<Byte>, i: nat)
    requires |x| % 4 == 0 && 4 * i < |x|
    ensures Parse(x)[i] == Word(x[4 * i..4 * i + 4])
  {
    hide Word;
    if 4 * i < |x| - 4 {
      ParseAt(x[..|x| - 4], i);
      assert x[..|x| - 4][4 * i..4 * i + 4] == x[4 * i..4 * i + 4];
    } else {
      assert 4 * i == |x| - 4;
      assert x[4 * i..4 * i + 4] == x[|x| - 4..];
    }
  }

  /** The set of the used macroblocks, as a bitmap of n words. */
  function OfSet(used: set<nat>, n: nat): (ws: seq<Bits>)
    ensures |ws| == n
  {
    seq(n, d requires 0 <= d < n => seq(32, b requires 0 <= b < 32 => 32 * d + b in used))
  }

  lemma OnesOfSet(used: set<nat>, n: nat)
    requires forall id :: id in used ==> id < 32 * n
    ensures Ones(Unrolled(OfSet(used, n))) == used
  {
    hide Unrolled;
    var f := Unrolled(OfSet(used, n));
    forall i: nat | i < 32 * n
      ensures f[i] <==> i in used
    {
      FlatAt(OfSet(used, n), i);
    }
  }

  /** Bytes written behind those already written. */
  lemma Extend(x: seq<Byte>, y: seq<Byte>, z: seq<Byte>, offset: nat, a: seq<Byte>, b: seq<Byte>)
    requires offset + |a| + |b| <= |x| && y == x[..offset] + a + x[offset + |a|..]
    requires z == y[..offset + |a|] + b + y[offset + |a| + |b|..]
    ensures z == x[..offset] + (a + b) + x[offset + |a| + |b|..]
  {
  }

  /** bitmap_t; no_set is an unsigned 32-bit number. */
  class BitSet {
    const noBits: nat
    var bits: array<Bits>
    var noSet: nat

    ghost predicate Valid()
      reads this
    {
      bits.Length == (noBits + 31) / 32 && noBits + 31 < TWO32 && noSet < TWO32
    }

    ghost function Contents(): (f: seq<bool>)
      requires Valid()
      reads this, bits
      ensures |f| >= noBits
    {
      Unrolled(bits[..])
    }

    /** no_set is the number of ones. */
    ghost predicate Exact()
      requires Valid()
      reads this, bits
    {
      noSet == |Ones(Contents())|
    }

    /** bitmap_init */
    constructor (n: nat)
      requires n + 31 < TWO32
      ensures Valid() && fresh(bits) && noBits == n && Ones(Contents()) == {} && Exact()
    {
      noBits := n;
      bits := new Bits[(n + 31) / 32](_ => seq(32, _ => false));
      noSet := 0;
      new;
      forall i: nat | i < |Contents()|
        ensures !Contents()[i]
      {
        FlatAt(bits[..], i);
      }
    }

    /** bitmap_getbits with size 1: the shifted word needs no mask when the bit is its highest. */
    method GetBit(offset: nat) returns (r: nat)
      requires Valid() && offset < noBits
      ensures r == if Contents()[offset] then 1 else 0
    {
      var dword, bit := offset / 32, offset % 32;
      var res := bits[dword][bit..];
      if bit + 1 < 32 {
        res := res[..1];
      }
      r := Value(res);
      FlatAt(bits[..], offset);
      assert res == [bits[dword][bit]];
      assert Value(res) == (if res[0] then 1 else 0) + 2 * Value(res[1..]);
    }

    /** bitmap_setbit_safe: the count is right afterwards exactly if the bit was clear. */
    method SetBitSafe(index: nat)
      requires Valid() && index < noBits
      modifies this`noSet, bits
      ensures Valid() && bits == old(bits)
      ensures Contents() == old(Contents())[index := true]
      ensures noSet == (old(noSet) + 1) % TWO32
      ensures old(Exact()) ==> (Exact() <==> !old(Contents())[index])
    {
      ghost var was := Contents();
      FlatUpdate(bits[..], index, true);
      assert bits[..][index / 32] == bits[index / 32];
      bits[index / 32] := bits[index / 32][index % 32 := true];
      noSet := (noSet + 1) % TWO32;
      CountUpdate(was, index, true);
      CountIsSize(was);
      CountBound(Contents());
      CountIsSize(Contents());
    }

    /** bitmap_clearbit_safe: the count is right afterwards exactly if it was before, whatever the bit was. */
    method ClearBitSafe(index: nat)
      requires Valid() && index < noBits
      modifies this`noSet, bits
      ensures Valid() && bits == old(bits)
      ensures Contents() == old(Contents())[index := false]
      ensures noSet == if old(Contents())[index] then (old(noSet) - 1) % TWO32 else old(noSet)
      ensures Exact() <==> old(Exact())
    {
      ghost var was := Contents();
      FlatAt(bits[..], index);
      CountUpdate(was, index, false);
      CountIsSize(was);
      CountBound(was);
      if bits[index / 32][index % 32] {
        assert index in Ones(was);
        noSet := (noSet - 1) % TWO32;
      }
      FlatUpdate(bits[..], index, false);
      bits[index / 32] := bits[index / 32][index % 32 := false];
      assert bits[..] == old(bits[..])[index / 32 := old(bits[..])[index / 32][index % 32 := false]];
      CountIsSize(Contents());
    }

    /** bitmap_read: the count is right whatever was read. */
    method Read(inp: seq<Byte>)
      requires Valid() && |inp| == 4 * bits.Length
      modifies this`noSet, bits
      ensures Valid() && bits == old(bits)
      ensures bits[..] == Parse(inp)
      ensures Exact()
    {
      hide Unrolled, Count, Word, Parse, Ones;
      noSet := 0;
      var i := 0;
      NoneSet(bits[..i]);
      while i < (noBits + 31) / 32
        invariant 0 <= i <= bits.Length
        invariant bits[..i] == Parse(inp)[..i]
        invariant noSet == Count(Unrolled(bits[..i])) && noSet < TWO32
      {
        bits[i] := Word(inp[4 * i..4 * i + 4]);
        ParseAt(inp, i);
        CountMore(bits[..i], bits[i]);
        CountBound(Unrolled(bits[..i] + [bits[i]]));
        noSet := noSet + Count(bits[i]);
        assert bits[..i + 1] == bits[..i] + [bits[i]];
        i := i + 1;
      }
      assert bits[..] == bits[..i];
      CountIsSize(Contents());
    }

    /** bitmap_write, to the given place in the index block */
    method Write(out: array<Byte>, offset: nat)
      requires Valid() && offset + 4 * bits.Length <= out.Length
      modifies out
      ensures out[..] == old(out[..offset]) + Image(bits[..]) + old(out[offset + 4 * bits.Length..])
    {
      hide Image, Value, Be;
      ghost var was := out[..];
      var i := 0;
      NoImage(bits[..i]);
      while i < (noBits + 31) / 32
        invariant 0 <= i <= bits.Length
        invariant out[..] == was[..offset] + Image(bits[..i]) + was[offset + 4 * i..]
      {
        ghost var y := out[..];
        WriteUint32(out, offset + 4 * i, Value(bits[i]));
        ImageMore(bits[..i], bits[i]);
        assert bits[..i + 1] == bits[..i] + [bits[i]];
        Extend(was, y, out[..], offset, Image(bits[..i]), Be(4, Value(bits[i])));
        i := i + 1;
      }
      assert bits[..] == bits[..i];
    }
  }
}
