/** do_req: requests of any offset and length on the flat virtual device. */
module Flat {
  import opened Prelude
  import opened Device
  import opened Bookkeeping
  import opened Steps
  import opened Requests

  const TWO64: int := 0x1_0000_0000_0000_0000

  datatype Command = Read(off: nat, size: nat) | Write(off: nat, data: seq<Byte>)

  /** The bytes read, or PastEnd if the request was refused. */
  datatype Reply = PastEnd | Bytes(bytes: seq<Byte>)

  function SizeOf(cmd: Command): nat {
    match cmd case Read(_, n) => n case Write(_, data) => |data|
  }

  /** The bounds check, in unsigned 64-bit arithmetic. */
  predicate BeyondEnd(g: Geometry, blocks: nat, cmd: Command)
    requires g.size > 0
  {
    (cmd.off + SizeOf(cmd) - 1) % TWO64 / g.size >= blocks
  }

  function Least(a: nat, b: nat): nat {
    if a <= b then a else b
  }

  // ----- the pieces of a request -----

  /** The loop over whole mesoblocks and the last partial one, for writes. */
  function WriteWhole(g: Geometry, d: Dev, x: nat, data: seq<Byte>): (r: Result<Dev>)
    requires Fits(g, d) && g.size > 0
    ensures r.Ok? ==> Fits(g, r.value) && (r.value == d || r.value.ready)
    decreases |data|
  {
    if |data| >= g.size then
      var d1 :- DoWrite(g, d, x, 0, data[..g.size]);
      WriteWhole(g, d1, x + 1, data[g.size..])
    else if data == [] then Ok(d)
    else DoWrite(g, d, x, 0, data)
  }

  function WriteAll(g: Geometry, d: Dev, x: nat, off: nat, data: seq<Byte>): (r: Result<Dev>)
    requires Fits(g, d) && off < g.size
    ensures r.Ok? ==> Fits(g, r.value) && (r.value == d || r.value.ready)
  {
    if off > 0 then
      var n := Least(|data|, g.size - off);
      var d1 :- DoWrite(g, d, x, off, data[..n]);
      WriteWhole(g, d1, x + 1, data[n..])
    else WriteWhole(g, d, x, data)
  }

  /** The same for reads. */
  function ReadWhole(g: Geometry, d: Dev, x: nat, len: nat): Result<seq<Byte>>
    requires Fits(g, d) && g.size > 0
    decreases len
  {
    if len >= g.size then
      var b1 :- DoRead(g, d, x, 0, g.size);
      var b2 :- ReadWhole(g, d, x + 1, len - g.size);
      Ok(b1 + b2)
    else if len == 0 then Ok([])
    else DoRead(g, d, x, 0, len)
  }

  function ReadAll(g: Geometry, d: Dev, x: nat, off: nat, len: nat): Result<seq<Byte>>
    requires Fits(g, d) && off < g.size
  {
    if off > 0 then
      var n := Least(len, g.size - off);
      var b1 :- DoRead(g, d, x, off, n);
      var b2 :- ReadWhole(g, d, x + 1, len - n);
      Ok(b1 + b2)
    else ReadWhole(g, d, x, len)
  }

  lemma SplitOffset(off: nat, size: nat)
    requires size > 0
    ensures 0 <= off / size && 0 <= off % size < size
  {
  }

  /** do_req */
  function DoReq(g: Geometry, d: Dev, cmd: Command): (r: Result<(Dev, Reply)>)
    requires Fits(g, d) && g.size > 0
    ensures r.Ok? ==> Fits(g, r.value.0) && (r.value.0 == d || r.value.0.ready)
  {
    SplitOffset(cmd.off, g.size);
    if BeyondEnd(g, |d.loc|, cmd) then Ok((d, PastEnd))
    else match cmd
      case Read(off, n) =>
        var b :- ReadAll(g, d, off / g.size, off % g.size, n);
        Ok((d, Bytes(b)))
      case Write(off, data) =>
        var d' :- WriteAll(g, d, off / g.size, off % g.size, data);
        Ok((d', Bytes([])))
  }

  // ----- FILLER: nothing is added to a block scheduled for immediate reselection -----

  ghost predicate FillerWhole(g: Geometry, d: Dev, x: nat, data: seq<Byte>)
    requires Fits(g, d) && g.size > 0
    decreases |data|
  {
    if |data| >= g.size then
      var r := DoWrite(g, d, x, 0, data[..g.size]);
      r.Ok? ==> !r.value.spoiled && FillerWhole(g, r.value, x + 1, data[g.size..])
    else
      data == [] || (var r := DoWrite(g, d, x, 0, data); r.Ok? ==> !r.value.spoiled)
  }

  ghost predicate FillerAll(g: Geometry, d: Dev, x: nat, off: nat, data: seq<Byte>)
    requires Fits(g, d) && off < g.size
  {
    if off > 0 then
      var n := Least(|data|, g.size - off);
      var r := DoWrite(g, d, x, off, data[..n]);
      r.Ok? ==> !r.value.spoiled && FillerWhole(g, r.value, x + 1, data[n..])
    else FillerWhole(g, d, x, data)
  }

  ghost predicate Filler(g: Geometry, d: Dev, cmd: Command)
    requires Fits(g, d) && g.size > 0
  {
    cmd.Write? && !BeyondEnd(g, |d.loc|, cmd) ==> FillerAll(g, d, cmd.off / g.size, cmd.off % g.size, cmd.data)
  }

  // ----- the flat array -----

  /** Where mesoblock x starts: x times size, without multiplication. */
  function Pos(x: nat, size: nat): nat {
    if x == 0 then 0 else Pos(x - 1, size) + size
  }

  lemma {:induction false} PosIsProduct(x: nat, size: nat)
    ensures Pos(x, size) == x * size
  {
    if x > 0 {
      PosIsProduct(x - 1, size);
      assert x * size == (x - 1) * size + size;
    }
  }

  lemma {:induction false} PosGrows(x: nat, y: nat, size: nat)
    requires x < y
    ensures Pos(x, size) + size <= Pos(y, size)
    decreases y
  {
    if x < y - 1 {
      PosGrows(x, y - 1, size);
    }
  }

  /** A position lies in mesoblock x exactly when it starts before the end of the device. */
  lemma PosInside(x: nat, off: nat, n: nat, size: nat)
    requires off < size && (if off == 0 then Pos(x, size) < Pos(n, size) else Pos(x, size) + off <= Pos(n, size))
    ensures x < n && Pos(x, size) + size <= Pos(n, size)
  {
    if n < x {
      PosGrows(n, x, size);
    }
    if x < n {
      PosGrows(x, n, size);
    }
  }

  lemma PosSplit(off: nat, size: nat)
    requires size > 0
    ensures Pos(off / size, size) + off % size == off
    ensures off % size < size
  {
    PosIsProduct(off / size, size);
  }

  function Join(c: seq<seq<Byte>>): seq<Byte> {
    if c == [] then [] else c[0] + Join(c[1..])
  }

  lemma {:induction false} JoinZeros(c: seq<seq<Byte>>, size: nat)
    requires forall i :: 0 <= i < |c| ==> c[i] == Zeros(size)
    ensures Join(c) == Zeros(Pos(|c|, size))
  {
    if c != [] {
      JoinZeros(c[1..], size);
    }
  }

  lemma Regrouped(x: seq<Byte>, y: seq<Byte>, z: seq<Byte>)
    ensures x + (y + z) == (x + y) + z
  {
  }

  lemma {:induction false} JoinBoth(a: seq<seq<Byte>>, b: seq<seq<Byte>>)
    ensures Join(a + b) == Join(a) + Join(b)
  {
    if a == [] {
      assert a + b == b;
    } else {
      JoinBoth(a[1..], b);
      assert (a + b)[0] == a[0] && (a + b)[1..] == a[1..] + b;
      Regrouped(a[0], Join(a[1..]), Join(b));
    }
  }

  ghost predicate Blocks(c: seq<seq<Byte>>, size: nat) {
    forall i :: 0 <= i < |c| ==> |c[i]| == size
  }

  lemma {:induction false} JoinLength(c: seq<seq<Byte>>, size: nat)
    requires Blocks(c, size)
    ensures |Join(c)| == Pos(|c|, size)
  {
    if c != [] {
      JoinLength(c[1..], size);
    }
  }

  lemma {:induction false} JoinSplit(c: seq<seq<Byte>>, x: nat)
    requires x < |c|
    ensures Join(c) == Join(c[..x]) + c[x] + Join(c[x + 1..])
  {
    if x > 0 {
      JoinSplit(c[1..], x - 1);
      assert c[1..][..x - 1] == c[..x][1..];
      assert c[1..][x..] == c[x + 1..];
    } else {
      assert c[..0] == [];
    }
  }

  lemma SpliceMiddle(a: seq<Byte>, m: seq<Byte>, b: seq<Byte>, off: nat, data: seq<Byte>)
    requires off + |data| <= |m|
    ensures a + Splice(m, off, data) + b == Splice(a + m + b, |a| + off, data)
  {
  }

  /** Splicing one mesoblock splices the flat array. */
  lemma JoinSplice(c: seq<seq<Byte>>, size: nat, x: nat, off: nat, data: seq<Byte>)
    requires Blocks(c, size) && x < |c| && off + |data| <= size
    ensures Pos(x, size) + size <= |Join(c)|
    ensures Join(c[x := Splice(c[x], off, data)]) == Splice(Join(c), Pos(x, size) + off, data)
  {
    hide Splice, Join, Pos;
    var c' := c[x := Splice(c[x], off, data)];
    JoinSplit(c, x);
    JoinSplit(c', x);
    assert c'[..x] == c[..x] && c'[x + 1..] == c[x + 1..];
    JoinLength(c[..x], size);
    SpliceMiddle(Join(c[..x]), c[x], Join(c[x + 1..]), off, data);
  }

  lemma SliceMiddle(a: seq<Byte>, m: seq<Byte>, b: seq<Byte>, off: nat, len: nat)
    requires off + len <= |m|
    ensures (a + m + b)[|a| + off..|a| + off + len] == m[off..off + len]
  {
  }

  lemma JoinSlice(c: seq<seq<Byte>>, size: nat, x: nat, off: nat, len: nat)
    requires Blocks(c, size) && x < |c| && off + len <= size
    ensures Pos(x, size) + size <= |Join(c)|
    ensures c[x][off..off + len] == Join(c)[Pos(x, size) + off..Pos(x, size) + off + len]
  {
    hide Join, Pos;
    JoinSplit(c, x);
    JoinLength(c[..x], size);
    SliceMiddle(Join(c[..x]), c[x], Join(c[x + 1..]), off, len);
  }

  lemma SpliceTwice(f: seq<Byte>, p: nat, a: seq<Byte>, b: seq<Byte>)
    requires p + |a| + |b| <= |f|
    ensures Splice(Splice(f, p, a), p + |a|, b) == Splice(f, p, a + b)
  {
  }

  /** The virtual device as one array of bytes. */
  ghost function Image(g: Geometry, d: Dev): seq<Byte>
    requires Fits(g, d)
  {
    Join(Contents(g, d))
  }

  lemma ImageLength(g: Geometry, d: Dev)
    requires Core(g, d)
    ensures Fits(g, d) && g.size > 0
    ensures Blocks(Contents(g, d), g.size) && |Image(g, d)| == Pos(|d.loc|, g.size)
  {
    forall x | 0 <= x < |d.loc|
      ensures |Contents(g, d)[x]| == g.size
    {
      ContentLength(g, d, x);
    }
    JoinLength(Contents(g, d), g.size);
  }

  lemma OpenImage(g: Geometry, d: Dev)
    requires Open(g, d)
    ensures Fits(g, d) && g.size > 0
    ensures Blocks(Contents(g, d), g.size) && |Contents(g, d)| == |d.loc| && |Image(g, d)| == Pos(|d.loc|, g.size)
  {
    ImageLength(g, d);
  }

  // ----- requests refine accesses to the flat array -----

  /** The device is as before, with data spliced in at position p. */
  ghost predicate Wrote(g: Geometry, d: Dev, d': Dev, p: nat, data: seq<Byte>) {
    && Fits(g, d) && Fits(g, d') && Unchanged(d, d')
    && p + |data| <= |Image(g, d)| && Image(g, d') == Splice(Image(g, d), p, data)
  }

  /** The bytes read are those at position p. */
  ghost predicate ReadBack(g: Geometry, d: Dev, r: Result<seq<Byte>>, p: nat, len: nat) {
    Fits(g, d) && p + len <= |Image(g, d)| && r == Ok(Image(g, d)[p..p + len])
  }

  lemma WroteTwice(g: Geometry, d0: Dev, d1: Dev, d2: Dev, p: nat, data: seq<Byte>, n: nat)
    requires n <= |data|
    requires Wrote(g, d0, d1, p, data[..n]) && Wrote(g, d1, d2, p + n, data[n..])
    ensures Wrote(g, d0, d2, p, data)
  {
    assert data[..n] + data[n..] == data;
    SpliceTwice(Image(g, d0), p, data[..n], data[n..]);
  }

  lemma WroteNothing(g: Geometry, d: Dev, p: nat)
    requires Fits(g, d) && p <= |Image(g, d)|
    ensures Wrote(g, d, d, p, [])
  {
  }

  lemma BlockWrite(g: Geometry, d: Dev, x: nat, off: nat, data: seq<Byte>)
    requires Open(g, d) && off + |data| <= g.size && x < |d.loc|
    ensures Answered(DoWrite(g, d, x, off, data))
    ensures var r := DoWrite(g, d, x, off, data);
            r.Ok? ==> Wrote(g, d, r.value, Pos(x, g.size) + off, data) && (!r.value.spoiled ==> Open(g, r.value))
  {
    hide Core, Open, DoWrite, Fits, Splice, Content;
    OpenImage(g, d);
    WriteRefines(g, d, x, off, data);
    assert Contents(g, d)[x] == Content(g, d, x);
    JoinSplice(Contents(g, d), g.size, x, off, data);
  }

  lemma BlockRead(g: Geometry, d: Dev, x: nat, off: nat, len: nat)
    requires Open(g, d) && off + len <= g.size && x < |d.loc|
    ensures ReadBack(g, d, DoRead(g, d, x, off, len), Pos(x, g.size) + off, len)
  {
    hide Core, Open, DoRead, Fits, Content;
    OpenImage(g, d);
    ReadRefines(g, d, x, off, len);
    assert Contents(g, d)[x] == Content(g, d, x);
    JoinSlice(Contents(g, d), g.size, x, off, len);
  }

  lemma ReadBackTwice(g: Geometry, d: Dev, r1: Result<seq<Byte>>, r2: Result<seq<Byte>>, p: nat, n1: nat, n2: nat)
    requires ReadBack(g, d, r1, p, n1) && ReadBack(g, d, r2, p + n1, n2)
    ensures ReadBack(g, d, Ok(r1.value + r2.value), p, n1 + n2)
  {
    var f := Image(g, d);
    assert f[p..p + n1] + f[p + n1..p + n1 + n2] == f[p..p + (n1 + n2)];
  }

  lemma ReadNothing(g: Geometry, d: Dev, p: nat)
    requires Fits(g, d) && p <= |Image(g, d)|
    ensures ReadBack(g, d, Ok([]), p, 0)
  {
    assert Image(g, d)[p..p + 0] == [];
  }

  lemma ReadBackOk(g: Geometry, d: Dev, r: Result<seq<Byte>>, p: nat, len: nat)
    requires ReadBack(g, d, r, p, len)
    ensures r.Ok?
  {
  }

  lemma {:induction false} WholeWriteRefines(g: Geometry, d: Dev, x: nat, data: seq<Byte>)
    requires Open(g, d) && Pos(x, g.size) + |data| <= Pos(|d.loc|, g.size) && FillerWhole(g, d, x, data)
    ensures Answered(WriteWhole(g, d, x, data))
    ensures var r := WriteWhole(g, d, x, data);
            r.Ok? ==> Open(g, r.value) && Wrote(g, d, r.value, Pos(x, g.size), data)
    decreases |data|
  {
    hide Core, Open, Contents, Image, Wrote, DoWrite, Fits, Blocks, Splice, Unchanged;
    OpenImage(g, d);
    if data == [] {
      WroteNothing(g, d, Pos(x, g.size));
    } else {
      PosInside(x, 0, |d.loc|, g.size);
      if |data| >= g.size {
        BlockWrite(g, d, x, 0, data[..g.size]);
        var r := DoWrite(g, d, x, 0, data[..g.size]);
        if r.Ok? {
          WroteKeepsSize(g, d, r.value, Pos(x, g.size), data[..g.size]);
          WholeWriteRefines(g, r.value, x + 1, data[g.size..]);
          var r2 := WriteWhole(g, r.value, x + 1, data[g.size..]);
          if r2.Ok? {
            WroteTwice(g, d, r.value, r2.value, Pos(x, g.size), data, g.size);
          }
        }
      } else {
        BlockWrite(g, d, x, 0, data);
      }
    }
  }

  lemma WroteKeepsSize(g: Geometry, d: Dev, d': Dev, p: nat, data: seq<Byte>)
    requires Wrote(g, d, d', p, data)
    ensures |d'.loc| == |d.loc|
  {
  }

  lemma {:induction false} WholeReadRefines(g: Geometry, d: Dev, x: nat, len: nat)
    requires Open(g, d) && Pos(x, g.size) + len <= Pos(|d.loc|, g.size)
    ensures ReadBack(g, d, ReadWhole(g, d, x, len), Pos(x, g.size), len)
    decreases len
  {
    hide Core, Open, Contents, Image, ReadBack, DoRead, Fits, Blocks;
    OpenImage(g, d);
    if len == 0 {
      ReadNothing(g, d, Pos(x, g.size));
    } else {
      PosInside(x, 0, |d.loc|, g.size);
      if len >= g.size {
        BlockRead(g, d, x, 0, g.size);
        WholeReadRefines(g, d, x + 1, len - g.size);
        ReadBackTwice(g, d, DoRead(g, d, x, 0, g.size), ReadWhole(g, d, x + 1, len - g.size), Pos(x, g.size),
                      g.size, len - g.size);
        ReadBackOk(g, d, DoRead(g, d, x, 0, g.size), Pos(x, g.size), g.size);
        ReadBackOk(g, d, ReadWhole(g, d, x + 1, len - g.size), Pos(x + 1, g.size), len - g.size);
      } else {
        BlockRead(g, d, x, 0, len);
      }
    }
  }

  lemma WriteRequest(g: Geometry, d: Dev, x: nat, off: nat, data: seq<Byte>)
    requires Open(g, d) && off < g.size && Pos(x, g.size) + off + |data| <= Pos(|d.loc|, g.size)
    requires FillerAll(g, d, x, off, data)
    ensures Answered(WriteAll(g, d, x, off, data))
    ensures var r := WriteAll(g, d, x, off, data);
            r.Ok? ==> Open(g, r.value) && Wrote(g, d, r.value, Pos(x, g.size) + off, data)
  {
    hide Core, Open, Contents, Image, Wrote, DoWrite, Fits, Blocks, Splice, Unchanged;
    if off == 0 {
      WholeWriteRefines(g, d, x, data);
    } else {
      OpenImage(g, d);
      var n := Least(|data|, g.size - off);
      PosInside(x, off, |d.loc|, g.size);
      BlockWrite(g, d, x, off, data[..n]);
      var r := DoWrite(g, d, x, off, data[..n]);
      if r.Ok? {
        WroteKeepsSize(g, d, r.value, Pos(x, g.size) + off, data[..n]);
        if n == |data| {
          assert data[..n] == data && data[n..] == [];
        } else {
          WholeWriteRefines(g, r.value, x + 1, data[n..]);
          var r2 := WriteWhole(g, r.value, x + 1, data[n..]);
          if r2.Ok? {
            WroteTwice(g, d, r.value, r2.value, Pos(x, g.size) + off, data, n);
          }
        }
      }
    }
  }

  /** After a write the output is initialised, and unless a block was switched, the update flag is set. */
  ghost predicate Flagged(d: Dev, d': Dev) {
    d'.ready && d.j.seqno <= d'.j.seqno && (d'.j.seqno == d.j.seqno ==> d'.updated)
  }

  lemma {:induction false} WholeSetsFlag(g: Geometry, d: Dev, x: nat, data: seq<Byte>)
    requires Open(g, d) && Pos(x, g.size) + |data| <= Pos(|d.loc|, g.size) && FillerWhole(g, d, x, data)
    requires data != [] && WriteWhole(g, d, x, data).Ok?
    ensures Flagged(d, WriteWhole(g, d, x, data).value)
    decreases |data|
  {
    hide Core, Open, Contents, Image, Wrote, DoWrite, Fits, Blocks, Splice, Unchanged;
    OpenImage(g, d);
    PosInside(x, 0, |d.loc|, g.size);
    if |data| >= g.size {
      WriteSetsFlag(g, d, x, 0, data[..g.size]);
      BlockWrite(g, d, x, 0, data[..g.size]);
      var d1 := DoWrite(g, d, x, 0, data[..g.size]).value;
      WroteKeepsSize(g, d, d1, Pos(x, g.size), data[..g.size]);
      if data[g.size..] != [] {
        WholeSetsFlag(g, d1, x + 1, data[g.size..]);
      }
    } else {
      WriteSetsFlag(g, d, x, 0, data);
    }
  }

  lemma AllSetsFlag(g: Geometry, d: Dev, x: nat, off: nat, data: seq<Byte>)
    requires Open(g, d) && off < g.size && Pos(x, g.size) + off + |data| <= Pos(|d.loc|, g.size)
    requires FillerAll(g, d, x, off, data) && (data != [] || off > 0) && WriteAll(g, d, x, off, data).Ok?
    ensures Flagged(d, WriteAll(g, d, x, off, data).value)
  {
    hide Core, Open, Contents, Image, Wrote, DoWrite, Fits, Blocks, Splice, Unchanged;
    if off == 0 {
      WholeSetsFlag(g, d, x, data);
    } else {
      OpenImage(g, d);
      var n := Least(|data|, g.size - off);
      PosInside(x, off, |d.loc|, g.size);
      WriteSetsFlag(g, d, x, off, data[..n]);
      BlockWrite(g, d, x, off, data[..n]);
      var d1 := DoWrite(g, d, x, off, data[..n]).value;
      WroteKeepsSize(g, d, d1, Pos(x, g.size) + off, data[..n]);
      if n < |data| {
        WholeSetsFlag(g, d1, x + 1, data[n..]);
      }
    }
  }

  lemma ReadRequest(g: Geometry, d: Dev, x: nat, off: nat, n: nat)
    requires Open(g, d) && off < g.size && Pos(x, g.size) + off + n <= Pos(|d.loc|, g.size)
    ensures ReadBack(g, d, ReadAll(g, d, x, off, n), Pos(x, g.size) + off, n)
  {
    hide Core, Open, Contents, Image, ReadBack, DoRead, Fits, Blocks;
    if off == 0 {
      WholeReadRefines(g, d, x, n);
    } else {
      OpenImage(g, d);
      var m := Least(n, g.size - off);
      PosInside(x, off, |d.loc|, g.size);
      BlockRead(g, d, x, off, m);
      if m < n {
        WholeReadRefines(g, d, x + 1, n - m);
      } else {
        ReadNothing(g, d, Pos(x, g.size) + off + n);
      }
      var r1, r2 := DoRead(g, d, x, off, m), ReadWhole(g, d, x + 1, n - m);
      ReadBackTwice(g, d, r1, r2, Pos(x, g.size) + off, m, n - m);
      ReadBackOk(g, d, r1, Pos(x, g.size) + off, m);
      ReadBackOk(g, d, r2, Pos(x, g.size) + off + m, n - m);
    }
  }

  lemma LastByte(n: nat)
    requires n < TWO64
    ensures (n - 1) % TWO64 == if n == 0 then TWO64 - 1 else n - 1
  {
  }

  /** The bounds check, with its unsigned arithmetic, refuses exactly the requests that reach past the end, and the
      empty request at offset 0, where the last byte's offset wraps around. */
  lemma BoundsCheck(g: Geometry, blocks: nat, cmd: Command)
    requires g.size > 0 && cmd.off < TWO64 / 2 && SizeOf(cmd) < TWO64 / 2 && Pos(blocks, g.size) < TWO64 / 2
    ensures BeyondEnd(g, blocks, cmd) <==>
            cmd.off + SizeOf(cmd) > Pos(blocks, g.size) || cmd.off + SizeOf(cmd) == 0
  {
    hide Pos;
    var n := cmd.off + SizeOf(cmd);
    var last := if n == 0 then TWO64 - 1 else n - 1;
    LastByte(n);
    PosSplit(last, g.size);
    var q := last / g.size;
    if q >= blocks {
      if q > blocks { PosGrows(blocks, q, g.size); }
    } else {
      PosGrows(q, blocks, g.size);
    }
  }

  /** What a flat array of bytes answers to a request, and what becomes of it. */
  function FlatReply(image: seq<Byte>, cmd: Command): (seq<Byte>, Reply) {
    if cmd.off + SizeOf(cmd) > |image| || cmd.off + SizeOf(cmd) == 0 then (image, PastEnd)
    else match cmd
      case Read(off, n) => (image, Bytes(image[off..off + n]))
      case Write(off, data) => (Splice(image, off, data), Bytes([]))
  }

  /** A write that is not refused. */
  predicate Lands(size: nat, cmd: Command) {
    cmd.Write? && 0 < cmd.off + |cmd.data| <= size
  }

  /** A read, and a request that is refused, leave the whole device as it was; a write that causes no switch leaves the
      update flag set. */
  lemma RequestFlags(g: Geometry, d: Dev, cmd: Command)
    requires Open(g, d) && cmd.off < TWO64 / 2 && SizeOf(cmd) < TWO64 / 2 && |Image(g, d)| < TWO64 / 2
    requires Filler(g, d, cmd) && DoReq(g, d, cmd).Ok?
    ensures var r := DoReq(g, d, cmd).value.0;
      if Lands(|Image(g, d)|, cmd) then Flagged(d, r) || (cmd.data == [] && r == d) else r == d
  {
    hide Core, Open, Contents, Image, Fits, Blocks, BeyondEnd, ReadAll, WriteAll, FillerAll, Splice, Pos, Flagged;
    OpenImage(g, d);
    BoundsCheck(g, |d.loc|, cmd);
    PosSplit(cmd.off, g.size);
    if Lands(|Image(g, d)|, cmd) {
      var x, off := cmd.off / g.size, cmd.off % g.size;
      if cmd.data != [] || off > 0 {
        AllSetsFlag(g, d, x, off, cmd.data);
      } else {
        WritesNothing(g, d, x);
      }
    }
  }

  lemma WritesNothing(g: Geometry, d: Dev, x: nat)
    requires Fits(g, d) && g.size > 0
    ensures WriteAll(g, d, x, 0, []) == Ok(d)
  {
  }

  /** do_req answers any request, whatever its offset and length, as a flat array of bytes would. */
  lemma RequestRefines(g: Geometry, d: Dev, cmd: Command)
    requires Open(g, d) && cmd.off < TWO64 / 2 && SizeOf(cmd) < TWO64 / 2 && |Image(g, d)| < TWO64 / 2
    requires Filler(g, d, cmd)
    ensures Answered(DoReq(g, d, cmd))
    ensures var r := DoReq(g, d, cmd);
            r.Ok? ==>
              && Open(g, r.value.0) && Unchanged(d, r.value.0)
              && FlatReply(Image(g, d), cmd) == (Image(g, r.value.0), r.value.1)
  {
    hide Core, Open, Contents, Image, Fits, Blocks, BeyondEnd, ReadAll, WriteAll, FillerAll, Splice, Pos;
    OpenImage(g, d);
    BoundsCheck(g, |d.loc|, cmd);
    PosSplit(cmd.off, g.size);
    if !BeyondEnd(g, |d.loc|, cmd) {
      match cmd {
        case Read(off, n) => ReadRequest(g, d, off / g.size, off % g.size, n);
        case Write(off, data) =>
          WriteRequest(g, d, off / g.size, off % g.size, data);
      }
    }
  }
}
