/** Whole runs: requests, cycles, resizing, and closings and crashes with reopening, in any order and for any random
    words. */
module Sessions {
  import opened Prelude
  import opened Random
  import opened Juggler
  import opened Device
  import opened Bookkeeping
  import opened Steps
  import opened Requests
  import opened Flat
  import opened Recovery
  import opened Torn
  import opened Resizing

  // ----- what is on disk -----

  /** A state in which a macroblock was just written, after evacuation. */
  ghost predicate Saved(g: Geometry, p: Dev) {
    Recoverable(g, p) && Evacuated(p) && |p.loc| > 0
  }

  /** The backing file of d was left behind by a completed write, when the virtual device held image. */
  ghost predicate OnFile(g: Geometry, d: Dev, image: seq<Byte>) {
    exists p: Dev :: LeftBy(g, p, d, image)
  }

  ghost predicate LeftBy(g: Geometry, p: Dev, d: Dev, image: seq<Byte>) {
    Saved(g, p) && Fits(g, p) && SameFile(p, d) && Image(g, p) == image && NextUp(p, d)
  }

  /** If d has a current block, it was the next to be overwritten in p. */
  ghost predicate NextUp(p: Dev, d: Dev) {
    d.cur.Some? ==>
      && d.j.seqno == p.j.seqno + 1
      && (TailOf(p.j) == d.cur || (TailOf(p.j) == None && d.cur.value in p.j.unscheduled))
  }

  ghost predicate SameFile(p: Dev, d: Dev) {
    p.disk == d.disk && p.sealed == d.sealed && |p.infos| == |d.infos|
  }

  ghost predicate RightSize(g: Geometry, d: Dev) {
    |d.loc| == Capacity(g, |d.used|, d.reserved) && |d.loc| > 0
  }

  /** Nothing was written since d, so the current block is still the same. */
  ghost predicate NotWritten(d: Dev, d': Dev) {
    && d'.disk == d.disk && d'.sealed == d.sealed && d'.cur == d.cur && d'.j.seqno == d.j.seqno
    && |d'.infos| == |d.infos|
  }

  lemma StillOnFile(g: Geometry, d: Dev, d': Dev, image: seq<Byte>)
    requires OnFile(g, d, image) && NotWritten(d, d')
    ensures OnFile(g, d', image)
  {
    hide Saved, Image;
    var p :| LeftBy(g, p, d, image);
    assert LeftBy(g, p, d', image);
  }

  /** The block selected was the one promised, or an unscheduled one if none was. */
  lemma SelectsNextUp(g: Geometry, w: Dev)
    requires Core(g, w) && w.cur == None && SelectNext(g, w).Ok?
    ensures NextUp(w, SelectNext(g, w).value)
  {
    hide Core, SelectNext, GetDevblock, Valid, NotStuck;
    SelectAnswers(g, w);
  }

  /** A switch leaves on file what the device held. */
  lemma SwitchSaves(g: Geometry, d: Dev)
    requires Core(g, d) && d.cur.Some? && Evacuated(d) && RightSize(g, d) && Switch(g, d).Ok?
    ensures OnFile(g, Switch(g, d).value, Image(g, d))
  {
    hide MapOk, ListsOk, CountsOk, CurOk, DiskOk, LastWriter, JugglerOk, SealedOk, Inverts, KeepsLength, Contents,
      SelectNext, NewestHeader, Live;
    WriteParks(g, d);
    var w := WriteCurrent(g, d).value;
    assert Saved(g, w);
    SelectFrame(g, w);
    SelectsNextUp(g, w);
    assert LeftBy(g, w, Switch(g, d).value, Image(g, d));
  }

  lemma {:induction false} SelectNewSaves(g: Geometry, d: Dev)
    requires Open(g, d) && d.ready && RightSize(g, d) && SelectNew(g, d).Ok?
    ensures OnFile(g, SelectNew(g, d).value, Image(g, d))
    decreases |d.tape|
  {
    SwitchKeeps(g, d);
    SwitchSaves(g, d);
    var d1 := Switch(g, d).value;
    hide Core, Contents, Switch;
    EvacuateOpens(g, d1);
    var d2 := CopyOld(g, d1).value;
    assert d2 == d2.(ready := true);
    StillOnFile(g, d1, d2, Image(g, d));
    if Full(g, d2) {
      SelectNewSaves(g, d2);
    }
  }

  /** Making room for a write either writes nothing or leaves on file what the device held. */
  ghost predicate Commits(g: Geometry, d: Dev, d': Dev, image: seq<Byte>) {
    NotWritten(d, d') || OnFile(g, d', image)
  }

  lemma MakeRoomSaves(g: Geometry, d: Dev, x: nat)
    requires Open(g, d) && x < |d.loc| && RightSize(g, d) && MakeRoom(g, d, x).Ok?
    ensures Commits(g, d, MakeRoom(g, d, x).value, Image(g, d))
  {
    hide MapOk, ListsOk, CountsOk, CurOk, DiskOk, LastWriter, JugglerOk, SealedOk, Inverts, KeepsLength, SelectNew,
      CopyOld, Live;
    var d0 := d.(updated := true);
    assert Open(g, d0) && Contents(g, d0) == Contents(g, d);
    if !d.ready {
      EvacuateOpens(g, d0);
    }
    InitOutputKeeps(g, d0);
    var d1 := InitOutput(g, d0).value;
    if !InRam(d1, d.loc[x]) && Full(g, d1) {
      SelectNewSaves(g, d1);
    }
  }

  /** Once there is room, do_write touches only memory. */
  lemma WriteFrame(g: Geometry, d: Dev, x: nat, off: nat, data: seq<Byte>)
    requires Fits(g, d) && x < |d.loc| && DoWrite(g, d, x, off, data).Ok?
    ensures MakeRoom(g, d, x).Ok? && NotWritten(MakeRoom(g, d, x).value, DoWrite(g, d, x, off, data).value)
  {
    hide MakeRoom;
  }

  lemma WriteSaves(g: Geometry, d: Dev, x: nat, off: nat, data: seq<Byte>)
    requires Open(g, d) && x < |d.loc| && off + |data| <= g.size && RightSize(g, d) && DoWrite(g, d, x, off, data).Ok?
    ensures Commits(g, d, DoWrite(g, d, x, off, data).value, Image(g, d))
  {
    hide Core, Open, Contents, MakeRoom, DoWrite, OnFile, Image, RightSize, Roomy;
    OpenImage(g, d);
    WriteFrame(g, d, x, off, data);
    MakeRoomSaves(g, d, x);
    MakeRoomKeeps(g, d, x);
    WriteRefines(g, d, x, off, data);
    var d1 := MakeRoom(g, d, x).value;
    var d2 := DoWrite(g, d, x, off, data).value;
    if !NotWritten(d, d1) {
      StillOnFile(g, d1, d2, Image(g, d));
    }
  }

  lemma CycleSaves(g: Geometry, d: Dev)
    requires Open(g, d) && RightSize(g, d) && Cycle(g, d).Ok?
    ensures OnFile(g, Cycle(g, d).value, Image(g, d))
  {
    hide MapOk, ListsOk, CountsOk, CurOk, DiskOk, LastWriter, JugglerOk, SealedOk, Inverts, KeepsLength, Contents,
      OnFile, Live, CopyOld, Image, Capacity;
    var e := d;
    if !d.ready {
      EvacuateOpens(g, d);
      e := CopyOld(g, d).value;
      SameImage(g, d, e);
    }
    SwitchSaves(g, e);
    SwitchKeeps(g, e);
    StillOnFile(g, Switch(g, e).value, Cycle(g, d).value, Image(g, d));
  }

  // ----- a request commits at most a prefix of what it writes -----

  /** If the update flag is clear, at most one mesoblock is missing on file. */
  ghost predicate Rest(g: Geometry, d: Dev, n: int) {
    d.updated || n <= g.size
  }

  /** The file is as before, or holds the image with a prefix of data written at p. */
  ghost predicate CommitsPrefix(g: Geometry, d: Dev, d': Dev, p: nat, data: seq<Byte>) {
    && Fits(g, d) && p + |data| <= |Image(g, d)|
    && (NotWritten(d, d')
        || exists k :: 0 <= k <= |data| && OnFile(g, d', Splice(Image(g, d), p, data[..k])) && Rest(g, d', |data| - k))
  }

  lemma PrefixOfNothing(g: Geometry, d: Dev, d': Dev, p: nat, data: seq<Byte>)
    requires Fits(g, d) && p + |data| <= |Image(g, d)| && |data| <= g.size && Commits(g, d, d', Image(g, d))
    ensures CommitsPrefix(g, d, d', p, data)
  {
    hide Image, OnFile, Fits;
    if !NotWritten(d, d') {
      assert Splice(Image(g, d), p, data[..0]) == Image(g, d);
    }
  }

  /** The first n bytes went in before, the rest now. */
  lemma PrefixOfRest(g: Geometry, d: Dev, d1: Dev, d2: Dev, p: nat, data: seq<Byte>, n: nat)
    requires n <= |data| && Wrote(g, d, d1, p, data[..n]) && Commits(g, d, d1, Image(g, d))
    requires CommitsPrefix(g, d1, d2, p + n, data[n..]) && Unchanged(d1, d2)
    requires NotWritten(d1, d2) ==> Rest(g, d2, |data|)
    ensures CommitsPrefix(g, d, d2, p, data)
  {
    hide OnFile, Image;
    var f := Image(g, d);
    if !NotWritten(d1, d2) {
      var k :| 0 <= k <= |data[n..]| && OnFile(g, d2, Splice(Image(g, d1), p + n, data[n..][..k]))
               && Rest(g, d2, |data[n..]| - k);
      SpliceTwice(f, p, data[..n], data[n..][..k]);
      assert data[..n] + data[n..][..k] == data[..n + k];
      assert OnFile(g, d2, Splice(f, p, data[..n + k]));
    } else if !NotWritten(d, d1) {
      StillOnFile(g, d1, d2, f);
      assert Splice(f, p, data[..0]) == f;
    }
  }

  lemma BlockSaves(g: Geometry, d: Dev, x: nat, off: nat, data: seq<Byte>)
    requires Open(g, d) && x < |d.loc| && off + |data| <= g.size && RightSize(g, d) && DoWrite(g, d, x, off, data).Ok?
    ensures Wrote(g, d, DoWrite(g, d, x, off, data).value, Pos(x, g.size) + off, data)
    ensures Commits(g, d, DoWrite(g, d, x, off, data).value, Image(g, d))
    ensures CommitsPrefix(g, d, DoWrite(g, d, x, off, data).value, Pos(x, g.size) + off, data)
    ensures RightSize(g, DoWrite(g, d, x, off, data).value) && |DoWrite(g, d, x, off, data).value.loc| == |d.loc|
  {
    hide Core, Open, Contents, Image, DoWrite, OnFile, Splice, Capacity;
    BlockWrite(g, d, x, off, data);
    WriteSaves(g, d, x, off, data);
    PrefixOfNothing(g, d, DoWrite(g, d, x, off, data).value, Pos(x, g.size) + off, data);
  }

  lemma {:induction false} WholeSaves(g: Geometry, d: Dev, x: nat, data: seq<Byte>)
    requires Open(g, d) && Pos(x, g.size) + |data| <= Pos(|d.loc|, g.size) && FillerWhole(g, d, x, data)
    requires RightSize(g, d) && WriteWhole(g, d, x, data).Ok?
    ensures CommitsPrefix(g, d, WriteWhole(g, d, x, data).value, Pos(x, g.size), data)
    decreases |data|
  {
    hide Core, Open, Contents, Image, Wrote, Commits, CommitsPrefix, DoWrite, Fits, Blocks, RightSize, OnFile;
    OpenImage(g, d);
    if data == [] {
      PrefixOfSame(g, d, Pos(x, g.size));
    } else {
      PosInside(x, 0, |d.loc|, g.size);
      if |data| >= g.size {
        BlockSaves(g, d, x, 0, data[..g.size]);
        BlockWrite(g, d, x, 0, data[..g.size]);
        var d1 := DoWrite(g, d, x, 0, data[..g.size]).value;
        WholeWriteRefines(g, d1, x + 1, data[g.size..]);
        WholeSaves(g, d1, x + 1, data[g.size..]);
        WroteFrame(g, d1, WriteWhole(g, d, x, data).value, Pos(x + 1, g.size), data[g.size..]);
        RestFlagged(g, d1, x + 1, data[g.size..], |data|);
        PrefixOfRest(g, d, d1, WriteWhole(g, d, x, data).value, Pos(x, g.size), data, g.size);
      } else {
        BlockSaves(g, d, x, 0, data);
      }
    }
  }

  /** What was not switched is marked, if there was more than one mesoblock to write. */
  lemma RestFlagged(g: Geometry, d: Dev, x: nat, data: seq<Byte>, n: nat)
    requires Open(g, d) && Pos(x, g.size) + |data| <= Pos(|d.loc|, g.size) && FillerWhole(g, d, x, data)
    requires WriteWhole(g, d, x, data).Ok? && |data| <= n && (data == [] ==> n <= g.size)
    ensures NotWritten(d, WriteWhole(g, d, x, data).value) ==> Rest(g, WriteWhole(g, d, x, data).value, n)
  {
    hide Core, Open, WriteWhole, FillerWhole;
    if data != [] {
      WholeSetsFlag(g, d, x, data);
    }
  }

  lemma WroteFrame(g: Geometry, d: Dev, d': Dev, p: nat, data: seq<Byte>)
    requires Wrote(g, d, d', p, data)
    ensures Unchanged(d, d')
  {
  }

  lemma PrefixOfSame(g: Geometry, d: Dev, p: nat)
    requires Fits(g, d) && p <= |Image(g, d)|
    ensures CommitsPrefix(g, d, d, p, [])
  {
  }

  lemma RequestSaves(g: Geometry, d: Dev, x: nat, off: nat, data: seq<Byte>)
    requires Open(g, d) && off < g.size && Pos(x, g.size) + off + |data| <= Pos(|d.loc|, g.size)
    requires FillerAll(g, d, x, off, data) && RightSize(g, d) && WriteAll(g, d, x, off, data).Ok?
    ensures CommitsPrefix(g, d, WriteAll(g, d, x, off, data).value, Pos(x, g.size) + off, data)
  {
    hide Core, Open, Contents, Image, CommitsPrefix, DoWrite, Fits, RightSize, OnFile;
    OpenImage(g, d);
    if off == 0 {
      WholeSaves(g, d, x, data);
    } else {
      HeadSaves(g, d, x, off, data);
    }
  }

  lemma HeadSaves(g: Geometry, d: Dev, x: nat, off: nat, data: seq<Byte>)
    requires Open(g, d) && 0 < off < g.size && Pos(x, g.size) + off + |data| <= Pos(|d.loc|, g.size)
    requires FillerAll(g, d, x, off, data) && RightSize(g, d) && WriteAll(g, d, x, off, data).Ok?
    ensures CommitsPrefix(g, d, WriteAll(g, d, x, off, data).value, Pos(x, g.size) + off, data)
  {
    hide Core, Open, Contents, Image, Wrote, Commits, CommitsPrefix, DoWrite, Fits, Blocks, RightSize, OnFile;
    OpenImage(g, d);
    var n := Least(|data|, g.size - off);
    PosInside(x, off, |d.loc|, g.size);
    BlockSaves(g, d, x, off, data[..n]);
    BlockWrite(g, d, x, off, data[..n]);
    var d1 := DoWrite(g, d, x, off, data[..n]).value;
    if n == |data| {
      assert data[..n] == data && data[n..] == [];
    } else {
      WholeWriteRefines(g, d1, x + 1, data[n..]);
      WholeSaves(g, d1, x + 1, data[n..]);
      WroteFrame(g, d1, WriteAll(g, d, x, off, data).value, Pos(x + 1, g.size), data[n..]);
      RestFlagged(g, d1, x + 1, data[n..], |data|);
      PrefixOfRest(g, d, d1, WriteAll(g, d, x, off, data).value, Pos(x, g.size) + off, data, n);
    }
  }

  // ----- every write on the way -----

  /** The state after a write behind which no block can be selected. */
  function LastMark(g: Geometry, d: Dev): seq<Dev>
    requires Fits(g, d)
  {
    match WriteCurrent(g, d)
    case Fail(_) => []
    case Ok(w) => [w]
  }

  /** The states after each completed write of select_new_macroblock: the next block is selected, unless the random
      words run out. */
  function SelectNewMarks(g: Geometry, d: Dev): (m: seq<Dev>)
    requires Fits(g, d)
    decreases |d.tape|
  {
    if !d.ready then []
    else match Switch(g, d)
      case Fail(_) => LastMark(g, d)
      case Ok(d1) =>
        match CopyOld(g, d1)
        case Fail(_) => [d1]
        case Ok(d2) => if Full(g, d2) then [d1] + SelectNewMarks(g, d2) else [d1]
  }

  /** Those of do_write. */
  function BlockMarks(g: Geometry, d: Dev, x: nat): seq<Dev>
    requires Fits(g, d)
  {
    if x >= |d.loc| then []
    else match InitOutput(g, d.(updated := true))
      case Fail(_) => []
      case Ok(d1) => if d1.cur.Some? && !InRam(d1, d.loc[x]) && Full(g, d1) then SelectNewMarks(g, d1) else []
  }

  /** Those of the loop over whole mesoblocks and the last partial one. */
  function WholeMarks(g: Geometry, d: Dev, x: nat, data: seq<Byte>): seq<Dev>
    requires Fits(g, d) && g.size > 0
    decreases |data|
  {
    if |data| >= g.size then
      BlockMarks(g, d, x) + match DoWrite(g, d, x, 0, data[..g.size])
                            case Fail(_) => []
                            case Ok(d1) => WholeMarks(g, d1, x + 1, data[g.size..])
    else if data == [] then []
    else BlockMarks(g, d, x)
  }

  function AllMarks(g: Geometry, d: Dev, x: nat, off: nat, data: seq<Byte>): seq<Dev>
    requires Fits(g, d) && off < g.size
  {
    if off > 0 then
      var n := Least(|data|, g.size - off);
      BlockMarks(g, d, x) + match DoWrite(g, d, x, off, data[..n])
                            case Fail(_) => []
                            case Ok(d1) => WholeMarks(g, d1, x + 1, data[n..])
    else WholeMarks(g, d, x, data)
  }

  /** Those of do_req. */
  function Marks(g: Geometry, d: Dev, cmd: Command): seq<Dev>
    requires Fits(g, d) && g.size > 0
  {
    if cmd.Read? || BeyondEnd(g, |d.loc|, cmd) then []
    else AllMarks(g, d, cmd.off / g.size, cmd.off % g.size, cmd.data)
  }

  // ----- the states are all there: one for each macroblock written -----

  /** The states come after the first, the second, ... write since there were n, and lead to m. */
  ghost predicate Counts(marks: seq<Dev>, n: nat, m: nat) {
    m == n + |marks| && forall i :: 0 <= i < |marks| ==> marks[i].writes == n + i + 1
  }

  lemma CountsBoth(m1: seq<Dev>, m2: seq<Dev>, n: nat, k: nat, m: nat)
    requires Counts(m1, n, k) && Counts(m2, k, m)
    ensures Counts(m1 + m2, n, m)
  {
  }

  lemma {:induction false} SelectNewCounts(g: Geometry, d: Dev)
    requires Open(g, d) && d.ready && SelectNew(g, d).Ok?
    ensures Fits(g, d) && Counts(SelectNewMarks(g, d), d.writes, SelectNew(g, d).value.writes)
    decreases |d.tape|
  {
    hide Core, Contents, Switch, CopyOld, Evacuated, Live;
    OpenedBy(g, d);
    SwitchKeeps(g, d);
    var d1 := Switch(g, d).value;
    EvacuateOpens(g, d1);
    var d2 := CopyOld(g, d1).value;
    assert d2 == d2.(ready := true);
    if Full(g, d2) {
      SelectNewCounts(g, d2);
      CountsBoth([d1], SelectNewMarks(g, d2), d.writes, d1.writes, SelectNew(g, d2).value.writes);
    }
  }

  lemma BlockCounts(g: Geometry, d: Dev, x: nat, off: nat, data: seq<Byte>)
    requires Open(g, d) && x < |d.loc| && off + |data| <= g.size && DoWrite(g, d, x, off, data).Ok?
    ensures Fits(g, d) && Counts(BlockMarks(g, d, x), d.writes, DoWrite(g, d, x, off, data).value.writes)
  {
    hide MapOk, ListsOk, CountsOk, CurOk, DiskOk, LastWriter, JugglerOk, SealedOk, HistoryOk, Inverts, KeepsLength,
         SelectNew, SelectNewMarks, CopyOld, Live, Contents, DoWrite;
    var d0 := d.(updated := true);
    if !d.ready {
      EvacuateOpens(g, d0);
    }
    InitOutputKeeps(g, d0);
    var d1 := InitOutput(g, d0).value;
    WriteCounts(g, d, x, off, data);
    if !InRam(d1, d.loc[x]) && Full(g, d1) {
      SelectNewCounts(g, d1);
    }
  }

  lemma WriteCounts(g: Geometry, d: Dev, x: nat, off: nat, data: seq<Byte>)
    requires Fits(g, d) && x < |d.loc| && DoWrite(g, d, x, off, data).Ok?
    ensures MakeRoom(g, d, x).Ok? && DoWrite(g, d, x, off, data).value.writes == MakeRoom(g, d, x).value.writes
  {
    hide MakeRoom;
  }

  lemma {:induction false} WholeCounts(g: Geometry, d: Dev, x: nat, data: seq<Byte>)
    requires Open(g, d) && Pos(x, g.size) + |data| <= Pos(|d.loc|, g.size) && FillerWhole(g, d, x, data)
    requires WriteWhole(g, d, x, data).Ok?
    ensures Fits(g, d) && g.size > 0
    ensures Counts(WholeMarks(g, d, x, data), d.writes, WriteWhole(g, d, x, data).value.writes)
    decreases |data|
  {
    hide Core, Open, Contents, Image, DoWrite, Fits, Blocks, BlockMarks, Splice;
    OpenImage(g, d);
    if data != [] {
      PosInside(x, 0, |d.loc|, g.size);
      if |data| >= g.size {
        BlockCounts(g, d, x, 0, data[..g.size]);
        BlockWrite(g, d, x, 0, data[..g.size]);
        var d1 := DoWrite(g, d, x, 0, data[..g.size]).value;
        WroteShape(g, d, d1, Pos(x, g.size), data[..g.size]);
        WholeCounts(g, d1, x + 1, data[g.size..]);
        CountsBoth(BlockMarks(g, d, x), WholeMarks(g, d1, x + 1, data[g.size..]), d.writes, d1.writes,
                   WriteWhole(g, d, x, data).value.writes);
      } else {
        BlockCounts(g, d, x, 0, data);
      }
    }
  }

  lemma AllCounts(g: Geometry, d: Dev, x: nat, off: nat, data: seq<Byte>)
    requires Open(g, d) && off < g.size && Pos(x, g.size) + off + |data| <= Pos(|d.loc|, g.size)
    requires FillerAll(g, d, x, off, data) && WriteAll(g, d, x, off, data).Ok?
    ensures Fits(g, d) && Counts(AllMarks(g, d, x, off, data), d.writes, WriteAll(g, d, x, off, data).value.writes)
  {
    hide Core, Open, Contents, Image, DoWrite, Fits, Blocks, BlockMarks, WholeMarks, Splice;
    OpenImage(g, d);
    if off == 0 {
      WholeCounts(g, d, x, data);
    } else {
      var n := Least(|data|, g.size - off);
      PosInside(x, off, |d.loc|, g.size);
      BlockCounts(g, d, x, off, data[..n]);
      BlockWrite(g, d, x, off, data[..n]);
      var d1 := DoWrite(g, d, x, off, data[..n]).value;
      WroteShape(g, d, d1, Pos(x, g.size) + off, data[..n]);
      RestCounts(g, d1, x, off, n, data);
      CountsBoth(BlockMarks(g, d, x), WholeMarks(g, d1, x + 1, data[n..]), d.writes, d1.writes,
                 WriteAll(g, d, x, off, data).value.writes);
    }
  }

  lemma RestCounts(g: Geometry, d: Dev, x: nat, off: nat, n: nat, data: seq<Byte>)
    requires Open(g, d) && 0 < off < g.size && n == Least(|data|, g.size - off)
    requires Pos(x, g.size) + off + |data| <= Pos(|d.loc|, g.size)
    requires FillerWhole(g, d, x + 1, data[n..]) && WriteWhole(g, d, x + 1, data[n..]).Ok?
    ensures Fits(g, d)
    ensures Counts(WholeMarks(g, d, x + 1, data[n..]), d.writes, WriteWhole(g, d, x + 1, data[n..]).value.writes)
  {
    hide Core, Open, Contents, Image, BlockMarks, DoWrite, Fits, FillerWhole;
    OpenImage(g, d);
    if data[n..] != [] {
      WholeCounts(g, d, x + 1, data[n..]);
    }
  }

  /** The states in which a crash may find a request are all there are: one after each macroblock that it writes. */
  lemma MarksAreWrites(g: Geometry, d: Dev, cmd: Command)
    requires Open(g, d) && g.size > 0 && |Image(g, d)| < TWO64 / 2 && Decent(g, d, cmd) && DoReq(g, d, cmd).Ok?
    ensures |Marks(g, d, cmd)| == DoReq(g, d, cmd).value.0.writes - d.writes
    ensures forall i :: 0 <= i < |Marks(g, d, cmd)| ==> Marks(g, d, cmd)[i].writes == d.writes + i + 1
  {
    hide Core, Open, Contents, Image, BeyondEnd, AllMarks, FillerAll, WriteAll, ReadAll, Fits;
    OpenImage(g, d);
    BoundsCheck(g, |d.loc|, cmd);
    PosSplit(cmd.off, g.size);
    if cmd.Write? && !BeyondEnd(g, |d.loc|, cmd) {
      AllCounts(g, d, cmd.off / g.size, cmd.off % g.size, cmd.data);
    }
  }

  // ----- and the file is whole in each of them -----

  ghost predicate AllOnFile(g: Geometry, marks: seq<Dev>, d: Dev, image: seq<Byte>) {
    forall i :: 0 <= i < |marks| ==> OnFile(g, marks[i], image) && Unchanged(d, marks[i])
  }

  /** After each write of the loop the file holds what the device held. */
  lemma {:induction false} SelectNewMarked(g: Geometry, d: Dev)
    requires Open(g, d) && d.ready && RightSize(g, d)
    ensures Fits(g, d) && AllOnFile(g, SelectNewMarks(g, d), d, Image(g, d))
    decreases |d.tape|
  {
    hide MapOk, ListsOk, CountsOk, CurOk, DiskOk, LastWriter, JugglerOk, SealedOk, Inverts, KeepsLength, Contents,
      Image, OnFile, LastMark, Switch, CopyOld, Live, Capacity;
    WriteMarked(g, d);
    SwitchKeeps(g, d);
    if Switch(g, d).Ok? {
      SwitchSaves(g, d);
      var d1 := Switch(g, d).value;
      EvacuateOpens(g, d1);
      var d2 := CopyOld(g, d1).value;
      assert d2 == d2.(ready := true);
      SameImage(g, d, d2);
      if Full(g, d2) {
        SelectNewMarked(g, d2);
      }
    }
  }

  /** The write itself, when no next block can be selected. */
  lemma WriteMarked(g: Geometry, d: Dev)
    requires Core(g, d) && d.cur.Some? && Evacuated(d) && RightSize(g, d)
    ensures AllOnFile(g, LastMark(g, d), d, Image(g, d))
  {
    hide MapOk, ListsOk, CountsOk, CurOk, DiskOk, LastWriter, JugglerOk, SealedOk, Inverts, KeepsLength, Contents,
      NewestHeader, Live;
    WriteParks(g, d);
    var w := WriteCurrent(g, d).value;
    assert Saved(g, w);
    assert LeftBy(g, w, w, Image(g, d));
  }

  lemma SameImage(g: Geometry, d: Dev, d': Dev)
    requires Fits(g, d) && Fits(g, d') && Contents(g, d) == Contents(g, d')
    ensures Image(g, d) == Image(g, d')
  {
  }

  lemma BlockMarked(g: Geometry, d: Dev, x: nat)
    requires Open(g, d) && x < |d.loc| && RightSize(g, d)
    ensures Fits(g, d) && AllOnFile(g, BlockMarks(g, d, x), d, Image(g, d))
  {
    hide MapOk, ListsOk, CountsOk, CurOk, DiskOk, LastWriter, JugglerOk, SealedOk, Inverts, KeepsLength, SelectNew,
      CopyOld, Live, OnFile, Image;
    var d0 := d.(updated := true);
    assert Open(g, d0) && Contents(g, d0) == Contents(g, d);
    if !d.ready {
      EvacuateOpens(g, d0);
    }
    InitOutputKeeps(g, d0);
    var d1 := InitOutput(g, d0).value;
    SameImage(g, d, d1);
    if !InRam(d1, d.loc[x]) && Full(g, d1) {
      SelectNewMarked(g, d1);
    }
  }

  /** After each write of a request the file holds the old contents with a prefix of the data. */
  ghost predicate PrefixOnFile(g: Geometry, m: Dev, image: seq<Byte>, p: nat, data: seq<Byte>) {
    p + |data| <= |image| && exists k :: 0 <= k <= |data| && OnFile(g, m, Splice(image, p, data[..k]))
  }

  ghost predicate AllPrefixes(g: Geometry, marks: seq<Dev>, d: Dev, image: seq<Byte>, p: nat, data: seq<Byte>) {
    forall i :: 0 <= i < |marks| ==> PrefixOnFile(g, marks[i], image, p, data) && Unchanged(d, marks[i])
  }

  lemma PrefixesOfNothing(g: Geometry, marks: seq<Dev>, d: Dev, image: seq<Byte>, p: nat, data: seq<Byte>)
    requires AllOnFile(g, marks, d, image) && p + |data| <= |image|
    ensures AllPrefixes(g, marks, d, image, p, data)
  {
    hide OnFile;
    assert Splice(image, p, data[..0]) == image;
  }

  /** The marks of two parts of a request, where the first part wrote n bytes. */
  lemma PrefixesOfBoth(g: Geometry, m1: seq<Dev>, m2: seq<Dev>, d: Dev, d1: Dev, image: seq<Byte>, p: nat,
                       data: seq<Byte>, n: nat)
    requires n <= |data| && p + |data| <= |image| && AllOnFile(g, m1, d, image) && Unchanged(d, d1)
    requires AllPrefixes(g, m2, d1, Splice(image, p, data[..n]), p + n, data[n..])
    ensures AllPrefixes(g, m1 + m2, d, image, p, data)
  {
    hide OnFile, Splice;
    PrefixesOfNothing(g, m1, d, image, p, data);
    forall i | 0 <= i < |m2|
      ensures PrefixOnFile(g, m2[i], image, p, data)
    {
      var k :| 0 <= k <= |data[n..]| && OnFile(g, m2[i], Splice(Splice(image, p, data[..n]), p + n, data[n..][..k]));
      SpliceTwice(image, p, data[..n], data[n..][..k]);
      assert data[..n] + data[n..][..k] == data[..n + k];
    }
  }

  lemma {:induction false} WholeMarked(g: Geometry, d: Dev, x: nat, data: seq<Byte>)
    requires Open(g, d) && Pos(x, g.size) + |data| <= Pos(|d.loc|, g.size) && FillerWhole(g, d, x, data)
    requires RightSize(g, d)
    ensures Fits(g, d) && AllPrefixes(g, WholeMarks(g, d, x, data), d, Image(g, d), Pos(x, g.size), data)
    decreases |data|
  {
    hide Core, Open, Contents, Image, Wrote, AllOnFile, AllPrefixes, BlockMarks, DoWrite, Fits, Blocks, RightSize,
         Splice;
    OpenImage(g, d);
    if data == [] {
      NoMarks(g, d, Image(g, d), Pos(x, g.size), data);
    } else {
      PosInside(x, 0, |d.loc|, g.size);
      BlockMarked(g, d, x);
      if |data| >= g.size {
        var r := DoWrite(g, d, x, 0, data[..g.size]);
        BlockWrite(g, d, x, 0, data[..g.size]);
        if r.Ok? {
          BlockSaves(g, d, x, 0, data[..g.size]);
          WholeMarked(g, r.value, x + 1, data[g.size..]);
          WroteShape(g, d, r.value, Pos(x, g.size), data[..g.size]);
          PrefixesOfBoth(g, BlockMarks(g, d, x), WholeMarks(g, r.value, x + 1, data[g.size..]), d, r.value, Image(g, d),
            Pos(x, g.size), data, g.size);
        } else {
          PrefixesOfNothing(g, BlockMarks(g, d, x), d, Image(g, d), Pos(x, g.size), data);
          assert BlockMarks(g, d, x) + [] == BlockMarks(g, d, x);
        }
      } else {
        PrefixesOfNothing(g, BlockMarks(g, d, x), d, Image(g, d), Pos(x, g.size), data);
      }
    }
  }

  lemma NoMarks(g: Geometry, d: Dev, image: seq<Byte>, p: nat, data: seq<Byte>)
    ensures AllPrefixes(g, [], d, image, p, data)
  {
  }

  lemma WroteShape(g: Geometry, d: Dev, d': Dev, p: nat, data: seq<Byte>)
    requires Wrote(g, d, d', p, data)
    ensures Fits(g, d) && Fits(g, d') && Unchanged(d, d')
    ensures p + |data| <= |Image(g, d)| && Image(g, d') == Splice(Image(g, d), p, data)
  {
  }

  /** The part of a request behind its first, partial, mesoblock. */
  lemma RestMarked(g: Geometry, d: Dev, x: nat, off: nat, n: nat, data: seq<Byte>)
    requires Open(g, d) && 0 < off < g.size && n == Least(|data|, g.size - off)
    requires Pos(x, g.size) + off + |data| <= Pos(|d.loc|, g.size) && RightSize(g, d)
    requires FillerWhole(g, d, x + 1, data[n..])
    ensures Fits(g, d)
    ensures AllPrefixes(g, WholeMarks(g, d, x + 1, data[n..]), d, Image(g, d), Pos(x, g.size) + off + n, data[n..])
  {
    hide Core, Open, Contents, Image, AllPrefixes, BlockMarks, DoWrite, Fits, RightSize, FillerWhole;
    OpenImage(g, d);
    if data[n..] == [] {
      NoMarks(g, d, Image(g, d), Pos(x, g.size) + off + n, data[n..]);
    } else {
      WholeMarked(g, d, x + 1, data[n..]);
    }
  }

  lemma AllMarked(g: Geometry, d: Dev, x: nat, off: nat, data: seq<Byte>)
    requires Open(g, d) && off < g.size && Pos(x, g.size) + off + |data| <= Pos(|d.loc|, g.size)
    requires FillerAll(g, d, x, off, data) && RightSize(g, d)
    ensures Fits(g, d) && AllPrefixes(g, AllMarks(g, d, x, off, data), d, Image(g, d), Pos(x, g.size) + off, data)
  {
    hide Core, Open, Contents, Image, Wrote, AllOnFile, AllPrefixes, BlockMarks, DoWrite, Fits, Blocks, RightSize,
         Splice, WholeMarks, FillerWhole;
    OpenImage(g, d);
    if off == 0 {
      WholeMarked(g, d, x, data);
    } else {
      var n := Least(|data|, g.size - off);
      PosInside(x, off, |d.loc|, g.size);
      BlockMarked(g, d, x);
      var r := DoWrite(g, d, x, off, data[..n]);
      BlockWrite(g, d, x, off, data[..n]);
      if r.Ok? {
        BlockSaves(g, d, x, off, data[..n]);
        WroteShape(g, d, r.value, Pos(x, g.size) + off, data[..n]);
        RestMarked(g, r.value, x, off, n, data);
        PrefixesOfBoth(g, BlockMarks(g, d, x), WholeMarks(g, r.value, x + 1, data[n..]), d, r.value, Image(g, d),
          Pos(x, g.size) + off, data, n);
      } else {
        PrefixesOfNothing(g, BlockMarks(g, d, x), d, Image(g, d), Pos(x, g.size) + off, data);
        assert BlockMarks(g, d, x) + [] == BlockMarks(g, d, x);
      }
    }
  }

  // ----- reopening -----

  /** Closing without a write, or a crash, and opening again: blockio_dev_init, scubed3_init and the first selection. */
  function Reopen(g: Geometry, d: Dev, order: seq<nat>, tape: seq<Word>): (r: Result<Dev>)
    ensures r.Ok? ==> Fits(g, r.value)
  {
    var r :- Recover(g, d.disk, order, tape);
    if !Fits(g, r) then Fail(AssertionFailed)
    else SelectNext(g, r.(sealed := d.sealed))
  }

  lemma SameRecords(g: Geometry, p: Dev, r: Dev)
    requires Recoverable(g, p) && SameDevice(g, p, r)
    ensures MapOk(r.loc, r.infos, r.used) && ListsOk(g.mmpm, r.infos, r.used)
    ensures CountsOk(r.loc, r.infos, r.used, r.cur) && Sized(g, r)
  {
  }

  lemma SameDisk(g: Geometry, p: Dev, r: Dev)
    requires Recoverable(g, p) && SameDevice(g, p, r)
    ensures DiskOk(g.mmpm, r.infos, r.disk, r.used, r.cur, r.j) && LastWriter(r.loc, r.infos, r.disk, r.used, r.cur)
  {
    forall id, k | id in r.used && id < |r.disk| && Some(id) != r.cur && r.disk[id].header.Some?
                   && 0 <= k < |r.disk[id].header.value.indices|
      ensures Superseded(r.loc, r.infos, r.cur, id, k, r.disk[id].header.value)
    {
      assert Superseded(p.loc, p.infos, p.cur, id, k, p.disk[id].header.value);
      HeadedIfLive(g, p, p.disk[id].header.value.indices[k]);
    }
  }

  lemma SameJuggler(g: Geometry, p: Dev, r: Dev)
    requires Recoverable(g, p) && SameDevice(g, p, r)
    ensures JugglerOk(r.infos, r.used, r.cur, r.j) && TailOf(r.j) == TailOf(p.j)
  {
    forall i, k | 0 <= i < |r.j.scheduled| && 0 <= k < |r.j.unscheduled|
      ensures r.j.scheduled[i].id != r.j.unscheduled[k]
    {
      assert r.j.unscheduled[k] in p.j.unscheduled;
    }
    forall id
      ensures Has(r.j, id) <==> Has(p.j, id)
    {
    }
    forall t | t in r.j.scheduled
      ensures t.id < |r.infos| && r.infos[t.id] == p.infos[t.id]
    {
      var k :| 0 <= k < |p.j.scheduled| && p.j.scheduled[k] == t;
      assert Has(p.j, t.id);
    }
    if p.j.unscheduled != [] {
      assert p.j.unscheduled[0] in r.j.unscheduled;
    }
  }

  /** After a crash the device opens with what it held when the last macroblock was written. */
  lemma ReopenRestores(g: Geometry, d: Dev, order: seq<nat>, tape: seq<Word>, image: seq<Byte>)
    requires OnFile(g, d, image) && ScanOrder(d, order)
    ensures Answered(Reopen(g, d, order, tape))
    ensures var r := Reopen(g, d, order, tape);
            r.Ok? ==>
              && Open(g, r.value) && !r.value.spoiled && !r.value.updated && Image(g, r.value) == image
              && OnFile(g, r.value, image) && r.value.sealed == d.sealed && RightSize(g, r.value)
  {
    hide Core, Open, Contents, Recover, SameDevice, Evacuated, Saved, SelectNext;
    var p :| LeftBy(g, p, d, image);
    SavedIsRecoverable(g, p);
    RecoverRestores(g, p, order, tape);
    var r0 := Recover(g, d.disk, order, tape).value;
    SameCore(g, p, r0);
    var r := r0.(sealed := p.sealed);
    SelectOpens(g, r);
    if SelectNext(g, r).Ok? {
      SelectFrame(g, r);
      OpensUnready(g, SelectNext(g, r).value);
      SelectsNextUp(g, r);
      SamePlan(g, p, r0, SelectNext(g, r).value);
      assert LeftBy(g, p, SelectNext(g, r).value, image);
    }
  }

  lemma SamePlan(g: Geometry, p: Dev, r0: Dev, s: Dev)
    requires SameDevice(g, p, r0) && NextUp(r0.(sealed := p.sealed), s)
    ensures NextUp(p, s)
  {
  }

  lemma SavedIsRecoverable(g: Geometry, p: Dev)
    requires Saved(g, p)
    ensures Recoverable(g, p) && Evacuated(p) && |p.loc| > 0 && Fits(g, p)
  {
  }

  lemma OpensUnready(g: Geometry, s: Dev)
    requires Core(g, s) && s.cur.Some? && s.tail == TailOf(s.j) && s.infos[s.cur.value].indices == [] && !s.ready
    ensures Open(g, s)
  {
  }

  lemma SameCore(g: Geometry, p: Dev, r0: Dev)
    requires Recoverable(g, p) && SameDevice(g, p, r0)
    ensures Fits(g, p) && Fits(g, r0)
    ensures var r := r0.(sealed := p.sealed);
            && Core(g, r) && (Evacuated(r) <==> Evacuated(p)) && Contents(g, r) == Contents(g, p)
            && Unchanged(p, r) && r.disk == p.disk && !r.ready && !r.spoiled && r.cur == None
  {
    hide MapOk, ListsOk, CountsOk, DiskOk, LastWriter, JugglerOk, Inverts, KeepsLength;
    SameRecords(g, p, r0);
    SameDisk(g, p, r0);
    SameJuggler(g, p, r0);
    SameContents(g, p, r0);
    var r := r0.(sealed := p.sealed);
    assert Contents(g, r) == Contents(g, r0);
  }

  // ----- closing -----

  /** blockio_dev_free: the current block is written if the update flag says so. */
  function CloseDevice(g: Geometry, d: Dev): (r: Result<Dev>)
    requires Fits(g, d)
    ensures r.Ok? ==> Fits(g, r.value)
  {
    if d.updated then WriteCurrent(g, d) else Ok(d)
  }

  function CloseAndReopen(g: Geometry, d: Dev, order: seq<nat>, tape: seq<Word>): (r: Result<Dev>)
    requires Fits(g, d)
    ensures r.Ok? ==> Fits(g, r.value)
  {
    var w :- CloseDevice(g, d);
    Reopen(g, w, order, tape)
  }

  /** What is on file after closing: the current contents if the flag is set, else what was there before. */
  ghost function ClosedImage(g: Geometry, d: Dev, saved: Option<seq<Byte>>): Option<seq<Byte>>
    requires Fits(g, d)
  {
    if d.updated then Some(Image(g, d)) else saved
  }

  /** EVAC: a closing that writes has nothing live to overwrite next.  Only a device that was resized before its output
      was initialised can violate this (Hazards.ResizeIsExact says what follows). */
  ghost predicate Evac(d: Dev) {
    d.updated ==> Evacuated(d)
  }

  lemma CloseSaves(g: Geometry, d: Dev, image: seq<Byte>, saved: Option<seq<Byte>>)
    requires Holds(g, d, image, saved) && (d.updated || d.sealed != []) && Evac(d)
    ensures Fits(g, d) && CloseDevice(g, d).Ok?
    ensures var w := CloseDevice(g, d).value;
      && |w.disk| == |d.disk|
      && ClosedImage(g, d, saved).Some? && OnFile(g, w, ClosedImage(g, d, saved).value)
  {
    hide Image, OnFile, Live, Capacity, MapOk, ListsOk, CountsOk, CurOk, DiskOk, LastWriter, JugglerOk, SealedOk,
         Inverts, KeepsLength;
    if d.updated {
      WriteMarked(g, d);
      assert LastMark(g, d)[0] == WriteCurrent(g, d).value;
    }
  }

  /** Closing and opening again keeps the contents exactly if the update flag was set, or they were on file anyway. */
  lemma CloseIsExact(g: Geometry, d: Dev, order: seq<nat>, tape: seq<Word>, image: seq<Byte>, saved: Option<seq<Byte>>)
    requires Holds(g, d, image, saved) && (d.updated || d.sealed != []) && Evac(d) && ScanOrder(d, order)
    ensures Fits(g, d) && Answered(CloseAndReopen(g, d, order, tape))
    ensures var r := CloseAndReopen(g, d, order, tape);
      r.Ok? ==> Open(g, r.value) && (Image(g, r.value) == image <==> d.updated || saved == Some(image))
  {
    hide Core, Open, Image, OnFile, Reopen, CloseDevice;
    HoldsOpen(g, d, image, saved);
    CloseSaves(g, d, image, saved);
    ReopenRestores(g, CloseDevice(g, d).value, order, tape, ClosedImage(g, d, saved).value);
  }

  /** A do_write that finds the current block full leaves its data in memory with the flag cleared. */
  lemma SwitchForgets(g: Geometry, d: Dev, x: nat, off: nat, data: seq<Byte>)
    requires Fits(g, d) && x < |d.loc| && DoWrite(g, d, x, off, data).Ok?
    requires d.ready && d.cur.Some? && !InRam(d, d.loc[x]) && Full(g, d)
    ensures !DoWrite(g, d, x, off, data).value.updated
  {
    hide SelectNew, Append, Update;
  }

  /** So a normal close right after it brings back the contents from before that write. */
  lemma CloseForgets(g: Geometry, d: Dev, x: nat, off: nat, data: seq<Byte>, order: seq<nat>, tape: seq<Word>)
    requires Open(g, d) && d.ready && RightSize(g, d) && x < |d.loc| && off + |data| <= g.size && ScanOrder(d, order)
    requires !InRam(d, d.loc[x]) && Full(g, d) && DoWrite(g, d, x, off, data).Ok?
    ensures Fits(g, d)
    ensures var r := CloseAndReopen(g, DoWrite(g, d, x, off, data).value, order, tape);
      Answered(r) && (r.Ok? ==> Image(g, r.value) == Image(g, d))
  {
    hide MapOk, ListsOk, CountsOk, CurOk, DiskOk, LastWriter, JugglerOk, SealedOk, Inverts, KeepsLength, Image, OnFile,
      Reopen, DoWrite, Live, Capacity, Contents;
    SwitchForgets(g, d, x, off, data);
    SwitchedOnFile(g, d, x, off, data);
    var d' := DoWrite(g, d, x, off, data).value;
    ReopenRestores(g, d', order, tape, Image(g, d));
  }

  lemma SwitchedOnFile(g: Geometry, d: Dev, x: nat, off: nat, data: seq<Byte>)
    requires Open(g, d) && d.ready && RightSize(g, d) && x < |d.loc| && off + |data| <= g.size
    requires !InRam(d, d.loc[x]) && Full(g, d) && DoWrite(g, d, x, off, data).Ok?
    ensures Fits(g, d) && OnFile(g, DoWrite(g, d, x, off, data).value, Image(g, d))
    ensures Unchanged(d, DoWrite(g, d, x, off, data).value) && |DoWrite(g, d, x, off, data).value.disk| == |d.disk|
  {
    hide MapOk, ListsOk, CountsOk, CurOk, DiskOk, LastWriter, JugglerOk, SealedOk, Inverts, KeepsLength, Image, OnFile,
      SelectNew, Live, Capacity, Contents, DoWrite;
    var d0 := d.(updated := true);
    assert Open(g, d0);
    UpdatedImage(g, d, d0);
    WriteFrame(g, d, x, off, data);
    assert MakeRoom(g, d, x) == SelectNew(g, d0);
    SelectNewSaves(g, d0);
    SelectNewKeeps(g, d0);
    WriteRefines(g, d, x, off, data);
    StillOnFile(g, MakeRoom(g, d, x).value, DoWrite(g, d, x, off, data).value, Image(g, d));
  }

  lemma UpdatedImage(g: Geometry, d: Dev, d0: Dev)
    requires Fits(g, d) && d0 == d.(updated := true)
    ensures Fits(g, d0) && Contents(g, d0) == Contents(g, d) && Image(g, d0) == Image(g, d)
  {
    assert Contents(g, d0) == Contents(g, d);
  }

  // ----- crashes -----

  /** The file when the write of the current block was interrupted. */
  function Tear(d: Dev, torn: Option<Sector>): Dev {
    if torn.Some? && d.cur.Some? && d.cur.value < |d.disk| then
      d.(disk := d.disk[d.cur.value := torn.value], cur := None)
    else d
  }

  /** What an interrupted write may leave: any data, behind the old header or an unreadable one.  The newest header of
      all may not be lost, as its seqno would be used again (Torn.LostRecovers says what follows). */
  ghost predicate MayLeave(g: Geometry, d: Dev, torn: Option<Sector>) {
    torn.Some? ==>
      && d.cur.Some? && d.cur.value < |d.disk| && DataSized(g, torn.value.data)
      && (torn.value.header == d.disk[d.cur.value].header
          || (torn.value.header == None && Seqno(d.disk, d.cur.value) + 1 != d.j.seqno))
  }

  /** Nothing is live in the block to be overwritten next. */
  lemma NextIsEmpty(g: Geometry, p: Dev, d: Dev)
    requires Saved(g, p) && NextUp(p, d) && d.cur.Some?
    ensures d.cur.value in p.used && d.cur.value < |p.disk| == |p.infos| && Live(p.loc, d.cur.value) == {}
  {
    hide CountsOk, LastWriter, SealedOk;
    if TailOf(p.j) == d.cur {
      TailIsUsed(g, p);
    } else {
      assert Has(p.j, d.cur.value);
      SelectedIsEmpty(g, p, d.cur.value);
    }
  }

  /** An interrupted write loses nothing that was on file. */
  lemma TornOnFile(g: Geometry, d: Dev, torn: Option<Sector>, image: seq<Byte>)
    requires OnFile(g, d, image) && MayLeave(g, d, torn)
    ensures OnFile(g, Tear(d, torn), image)
  {
    hide Saved, Image, DataSized;
    var p :| LeftBy(g, p, d, image);
    if torn.Some? {
      NextIsEmpty(g, p, d);
      var t := d.cur.value;
      if torn.value.header == d.disk[t].header {
        TornData(g, p, t, torn.value.data, image);
        assert LeftBy(g, WithData(p, t, torn.value.data), Tear(d, torn), image);
      } else {
        TornHeader(g, p, d, torn.value.data, image);
      }
    } else {
      assert LeftBy(g, p, d, image);
    }
  }

  lemma TornData(g: Geometry, p: Dev, t: nat, data: seq<seq<Byte>>, image: seq<Byte>)
    requires Saved(g, p) && Fits(g, p) && Image(g, p) == image && t < |p.disk| && DataSized(g, data)
    requires Live(p.loc, t) == {}
    ensures var q := WithData(p, t, data); Saved(g, q) && Fits(g, q) && Image(g, q) == image
  {
    hide Recoverable, Evacuated, DataSized, Contents;
    OtherDataKeeps(g, p, t, data);
    OtherContents(g, p, t, data);
  }

  lemma TornHeader(g: Geometry, p: Dev, d: Dev, data: seq<seq<Byte>>, image: seq<Byte>)
    requires LeftBy(g, p, d, image) && d.cur.Some? && d.cur.value < |d.disk| && DataSized(g, data)
    requires Headed(d.disk, d.cur.value) && Seqno(d.disk, d.cur.value) + 1 != d.j.seqno
    ensures OnFile(g, Tear(d, Some(Sector(None, data))), image)
  {
    hide Parked, Evacuated, DataSized, Contents, NewestBeside, Losing;
    var t := d.cur.value;
    LostBesideNewest(g, p, d, data);
    var b :| Losing(g, p, t, data, b) && Headed(p.disk, b) && Seqno(p.disk, b) == p.j.seqno;
    LosingShape(g, p, t, data, b);
    NewestAgrees(g, p, b);
    NothingChanged(g, p, b);
    LostIsRecoverable(g, p, t, data, b);
    var q := Lost(g, p, t, data, b);
    RecoverableFits(g, q);
    LostContents(g, p, t, data, b);
    assert Untouched(g, 0) == [];
    assert Contents(g, q) == Contents(g, p) && Saved(g, q);
    assert LeftBy(g, q, Tear(d, Some(Sector(None, data))), image);
  }

  lemma LostBesideNewest(g: Geometry, p: Dev, d: Dev, data: seq<seq<Byte>>)
    requires Saved(g, p) && p.disk == d.disk && NextUp(p, d) && d.cur.Some? && DataSized(g, data)
    requires Headed(d.disk, d.cur.value) && Seqno(d.disk, d.cur.value) + 1 != d.j.seqno
    ensures exists b :: Losing(g, p, d.cur.value, data, b) && Headed(p.disk, b) && Seqno(p.disk, b) == p.j.seqno
  {
    hide MapOk, ListsOk, CountsOk, LastWriter, SealedOk;
    var t := d.cur.value;
    ParkedHeaders(g, p);
    SomeNewest(g, p);
    var b :| Headed(p.disk, b) && Seqno(p.disk, b) == p.j.seqno;
    forall id: nat | Headed(p.disk, id)
      ensures Seqno(p.disk, id) <= p.j.seqno
    {
      TicketIsScheduled(g, p, id);
    }
    assert Losing(g, p, t, data, b);
  }

  // ----- runs -----

  /** A crash may come in the middle of a request, after so many completed writes, and tear the next one. */
  datatype Event =
    | Request(cmd: Command)
    | CycleOnce
    | Grow(ids: seq<nat>, reserved: nat, size: nat)
    | Close(order: seq<nat>, tape: seq<Word>)
    | Crash(cmd: Command, writes: nat, torn: Option<Sector>, order: seq<nat>, tape: seq<Word>)

  /** The state after n writes of a request. */
  function Midway(g: Geometry, d: Dev, cmd: Command, n: nat): Dev
    requires Fits(g, d) && g.size > 0
  {
    if 0 < n <= |Marks(g, d, cmd)| then Marks(g, d, cmd)[n - 1] else d
  }

  function Perform(g: Geometry, d: Dev, e: Event): (r: Result<(Dev, Reply)>)
    requires Fits(g, d) && g.size > 0
    ensures r.Ok? ==> Fits(g, r.value.0)
  {
    match e
    case Request(cmd) => DoReq(g, d, cmd)
    case CycleOnce =>
      var d' :- Cycle(g, d);
      Ok((d', Bytes([])))
    case Grow(ids, reserved, size) =>
      var d' :- Resize(g, d, ids, reserved);
      Ok((d', Bytes([])))
    case Close(order, tape) =>
      var d' :- CloseAndReopen(g, d, order, tape);
      Ok((d', Bytes([])))
    case Crash(cmd, n, torn, order, tape) =>
      var d' :- Reopen(g, Tear(Midway(g, d, cmd, n), torn), order, tape);
      Ok((d', Bytes([])))
  }

  /** The replies given until the run ends or an event fails, and why it failed. */
  datatype Trace = Trace(replies: seq<Reply>, end: Result<Dev>)

  function Run(g: Geometry, d: Dev, events: seq<Event>): Trace
    requires Fits(g, d) && g.size > 0
    decreases |events|
  {
    if events == [] then Trace([], Ok(d))
    else match Perform(g, d, events[0])
      case Fail(why) => Trace([], Fail(why))
      case Ok((d', reply)) =>
        var t := Run(g, d', events[1..]);
        Trace([reply] + t.replies, t.end)
  }

  ghost predicate Decent(g: Geometry, d: Dev, cmd: Command)
    requires Fits(g, d) && g.size > 0
  {
    cmd.off < TWO64 / 2 && SizeOf(cmd) < TWO64 / 2 && Filler(g, d, cmd)
  }

  /** What the environment owes: offsets, lengths and sizes that fit in off_t, blocks that nobody owns, no shrinking,
      scans that reach every macroblock, no end of the session before anything was written, interrupted writes that do
      no more than they may, FILLER, and EVAC. */
  ghost predicate Admissible(g: Geometry, d: Dev, e: Event)
    requires Fits(g, d) && g.size > 0
  {
    match e
    case Request(cmd) => Decent(g, d, cmd)
    case CycleOnce => true
    case Grow(ids, reserved, size) =>
      && Unowned(d, ids) && Grows(g, d, ids, reserved)
      && size == Pos(Capacity(g, |d.used| + |ids|, reserved), g.size) < TWO64 / 2
    case Close(order, tape) => ScanOrder(d, order) && (d.updated || d.sealed != []) && Evac(d)
    case Crash(cmd, n, torn, order, tape) =>
      && Decent(g, d, cmd) && n <= |Marks(g, d, cmd)| && (n > 0 || d.sealed != [])
      && ScanOrder(Midway(g, d, cmd, n), order) && MayLeave(g, Midway(g, d, cmd, n), torn)
  }

  ghost predicate AllAdmissible(g: Geometry, d: Dev, events: seq<Event>)
    requires Fits(g, d) && g.size > 0
    decreases |events|
  {
    events != [] ==>
      && Admissible(g, d, events[0])
      && (var r := Perform(g, d, events[0]); r.Ok? ==> AllAdmissible(g, r.value.0, events[1..]))
  }

  /** A flat array of bytes, a copy of it that is on file, and whether closing will bring the copy up to date. */
  datatype Store = Store(image: seq<Byte>, saved: Option<seq<Byte>>, dirty: bool)

  /** A write either stays in memory and marks the store dirty, or brings the copy up to date with a prefix of its data;
      if that leaves the store clean, no more than the last mesoblock is missing.  A cycle brings the copy up to date.
      Resizing appends zeros and marks the store dirty.  Closing saves a dirty store, and falls back on the copy of a
      clean one.  A crash falls back on the copy, which a write that was under way may have changed. */
  ghost predicate FlatStep(size: nat, s: Store, e: Event, reply: Reply, s': Store) {
    match e
    case Request(cmd) =>
      && (s'.image, reply) == FlatReply(s.image, cmd)
      && (if Lands(|s.image|, cmd) then StaysInMemory(s, cmd, s') || SavesPrefix(s.image, cmd, s'.saved, s'.dirty, size)
          else s' == s)
    case CycleOnce => s' == Store(s.image, Some(s.image), false)
    case Grow(_, _, n) => |s.image| <= n && s' == Store(s.image + Zeros(n - |s.image|), s.saved, true)
    case Close(_, _) =>
      if s.dirty then s' == Store(s.image, Some(s.image), false)
      else s.saved.Some? && s' == Store(s.saved.value, s.saved, false)
    case Crash(cmd, n, _, _, _) =>
      && s' == Store(s'.image, Some(s'.image), false)
      && if n == 0 then s.saved == s'.saved else SavesPrefix(s.image, cmd, s'.saved, true, size)
  }

  ghost predicate StaysInMemory(s: Store, cmd: Command, s': Store)
    requires cmd.Write?
  {
    s'.saved == s.saved && (s'.dirty || (cmd.data == [] && s'.dirty == s.dirty))
  }

  ghost predicate SavesPrefix(image: seq<Byte>, cmd: Command, saved: Option<seq<Byte>>, dirty: bool, size: nat) {
    && cmd.Write? && cmd.off + |cmd.data| <= |image|
    && exists k :: 0 <= k <= |cmd.data| && saved == Some(Splice(image, cmd.off, cmd.data[..k]))
                   && (dirty || |cmd.data| - k <= size)
  }

  /** Such steps lead from s to f. */
  ghost predicate FlatRun(size: nat, s: Store, events: seq<Event>, replies: seq<Reply>, f: Store)
    decreases |replies|
  {
    if replies == [] then f == s
    else
      && events != []
      && exists s' :: FlatStep(size, s, events[0], replies[0], s') && FlatRun(size, s', events[1..], replies[1..], f)
  }

  /** The device holds image, its file saved. */
  ghost predicate Holds(g: Geometry, d: Dev, image: seq<Byte>, saved: Option<seq<Byte>>) {
    && Open(g, d) && RightSize(g, d) && Image(g, d) == image && |image| < TWO64 / 2
    && (saved.None? ==> d.sealed == [])
    && (saved.Some? ==> OnFile(g, d, saved.value) && |saved.value| <= |image|)
  }

  /** The device is the store. */
  ghost predicate Stores(g: Geometry, d: Dev, s: Store) {
    Holds(g, d, s.image, s.saved) && d.updated == s.dirty
  }

  ghost predicate After(g: Geometry, e: Event, r: Dev, reply: Reply, s: Store) {
    exists s' :: FlatStep(g.size, s, e, reply, s') && Stores(g, r, s')
  }

  lemma HoldsAfter(g: Geometry, d: Dev, d': Dev, image: seq<Byte>, saved: Option<seq<Byte>>, saved': Option<seq<Byte>>)
    requires Holds(g, d, image, saved) && Unchanged(d, d') && Open(g, d')
    requires if NotWritten(d, d') then saved' == saved
             else saved'.Some? && OnFile(g, d', saved'.value) && |saved'.value| == |image|
    ensures Holds(g, d', Image(g, d'), saved')
  {
    hide Core, Capacity, Image, OnFile;
    ImageSizes(g, d);
    ImageSizes(g, d');
    if NotWritten(d, d') && saved.Some? {
      StillOnFile(g, d, d', saved.value);
    }
  }

  lemma ImageSizes(g: Geometry, d: Dev)
    requires Open(g, d)
    ensures |Image(g, d)| == Pos(|d.loc|, g.size)
  {
    OpenImage(g, d);
  }

  lemma RequestStep(g: Geometry, d: Dev, cmd: Command, s: Store)
    requires Stores(g, d, s) && Admissible(g, d, Request(cmd))
    ensures var r := DoReq(g, d, cmd);
            && Answered(r)
            && (r.Ok? ==> After(g, Request(cmd), r.value.0, r.value.1, s))
  {
    hide Core, Open, Contents, Image, OnFile, Capacity, Filler, BeyondEnd, FlatReply, Blocks, WriteAll, ReadAll;
    HoldsOpen(g, d, s.image, s.saved);
    RequestRefines(g, d, cmd);
    var r := DoReq(g, d, cmd);
    if r.Ok? {
      RequestFlags(g, d, cmd);
      if Lands(|s.image|, cmd) {
        LandingStep(g, d, cmd, s);
      } else {
        assert FlatStep(g.size, s, Request(cmd), r.value.1, s);
      }
    }
  }

  /** A write that is not refused. */
  lemma LandingStep(g: Geometry, d: Dev, cmd: Command, s: Store)
    requires Stores(g, d, s) && Admissible(g, d, Request(cmd)) && DoReq(g, d, cmd).Ok? && Lands(|s.image|, cmd)
    ensures var r := DoReq(g, d, cmd).value; After(g, Request(cmd), r.0, r.1, s)
  {
    hide Core, Open, Contents, Image, OnFile, Capacity, Filler, BeyondEnd, FlatReply, Blocks, WriteAll, ReadAll, DoReq,
         Splice;
    HoldsOpen(g, d, s.image, s.saved);
    RequestRefines(g, d, cmd);
    RequestFlags(g, d, cmd);
    var d' := DoReq(g, d, cmd).value.0;
    var s' := Store(Image(g, d'), s.saved, d'.updated);
    if NotWritten(d, d') {
      HoldsAfter(g, d, d', s.image, s.saved, s.saved);
      assert FlatStep(g.size, s, Request(cmd), DoReq(g, d, cmd).value.1, s');
    } else {
      RequestCommits(g, d, cmd);
      var k :| 0 <= k <= |cmd.data| && OnFile(g, d', Splice(s.image, cmd.off, cmd.data[..k]))
               && Rest(g, d', |cmd.data| - k);
      s' := s'.(saved := Some(Splice(s.image, cmd.off, cmd.data[..k])));
      HoldsAfter(g, d, d', s.image, s.saved, s'.saved);
      assert SavesPrefix(s.image, cmd, s'.saved, s'.dirty, g.size);
      assert FlatStep(g.size, s, Request(cmd), DoReq(g, d, cmd).value.1, s');
    }
  }

  lemma HoldsOpen(g: Geometry, d: Dev, image: seq<Byte>, saved: Option<seq<Byte>>)
    requires Holds(g, d, image, saved)
    ensures Open(g, d) && Fits(g, d) && g.size > 0 && RightSize(g, d) && Image(g, d) == image
  {
  }

  lemma RequestCommits(g: Geometry, d: Dev, cmd: Command)
    requires Open(g, d) && RightSize(g, d) && |Image(g, d)| < TWO64 / 2 && Admissible(g, d, Request(cmd))
    requires DoReq(g, d, cmd).Ok? && !NotWritten(d, DoReq(g, d, cmd).value.0)
    ensures cmd.Write? && cmd.off + |cmd.data| <= |Image(g, d)|
    ensures exists k :: 0 <= k <= |cmd.data|
                        && OnFile(g, DoReq(g, d, cmd).value.0, Splice(Image(g, d), cmd.off, cmd.data[..k]))
                        && Rest(g, DoReq(g, d, cmd).value.0, |cmd.data| - k)
  {
    hide Core, Open, Contents, Image, OnFile, RightSize, BeyondEnd, WriteAll, ReadAll, FillerAll, Fits, Splice;
    OpenImage(g, d);
    BoundsCheck(g, |d.loc|, cmd);
    PosSplit(cmd.off, g.size);
    assert cmd.Write? && !BeyondEnd(g, |d.loc|, cmd);
    RequestSaves(g, d, cmd.off / g.size, cmd.off % g.size, cmd.data);
  }

  lemma CycleStep(g: Geometry, d: Dev, s: Store)
    requires Stores(g, d, s)
    ensures Answered(Cycle(g, d))
    ensures Cycle(g, d).Ok? ==> After(g, CycleOnce, Cycle(g, d).value, Bytes([]), s)
  {
    hide Core, Open, Contents, Image, OnFile, Capacity, Cycle;
    HoldsOpen(g, d, s.image, s.saved);
    CycleRefines(g, d);
    if Cycle(g, d).Ok? {
      CycleSaves(g, d);
      var d' := Cycle(g, d).value;
      CycleSeals(g, d);
      SameImage(g, d, d');
      HoldsAfter(g, d, d', s.image, s.saved, Some(s.image));
      assert FlatStep(g.size, s, CycleOnce, Bytes([]), Store(Image(g, d'), Some(s.image), false));
    }
  }

  lemma CycleSeals(g: Geometry, d: Dev)
    requires Open(g, d) && Cycle(g, d).Ok?
    ensures Cycle(g, d).value.sealed != d.sealed
  {
    hide MapOk, ListsOk, CountsOk, CurOk, DiskOk, LastWriter, JugglerOk, SealedOk, Inverts, KeepsLength, Live, Contents;
    if !d.ready {
      EvacuateOpens(g, d);
    }
  }

  /** The new size in bytes. */
  lemma GrowStep(g: Geometry, d: Dev, e: Event, s: Store)
    requires e.Grow? && Stores(g, d, s) && Fits(g, d) && g.size > 0 && Admissible(g, d, e)
    ensures var r := Perform(g, d, e);
            r.Ok? && After(g, e, r.value.0, r.value.1, s)
  {
    hide Core, Open, Contents, Image, OnFile, Resize, Joined, Unowned;
    HoldsOpen(g, d, s.image, s.saved);
    ResizeKeepsOpen(g, d, e.ids, e.reserved);
    var r := Resize(g, d, e.ids, e.reserved).value;
    JoinedFrame(g, d, e.ids, e.reserved, r);
    GrownImage(g, d, r, |r.loc| - |d.loc|);
    ImageSizes(g, d);
    ImageSizes(g, r);
    if s.saved.Some? {
      StillOnFile(g, d, r, s.saved.value);
    }
    assert FlatStep(g.size, s, e, Bytes([]), Store(Image(g, r), s.saved, true));
  }

  lemma JoinedFrame(g: Geometry, d: Dev, ids: seq<nat>, reserved: nat, r: Dev)
    requires Joined(g, d, ids, reserved, r)
    ensures NotWritten(d, r) && |d.loc| <= |r.loc| == Capacity(g, |d.used| + |ids|, reserved)
    ensures |r.loc| == Capacity(g, |r.used|, r.reserved)
  {
    hide Capacity;
  }

  lemma GrownImage(g: Geometry, d: Dev, r: Dev, n: nat)
    requires Fits(g, d) && Fits(g, r) && Contents(g, r) == Contents(g, d) + Untouched(g, n)
    ensures Image(g, r) == Image(g, d) + Zeros(Pos(n, g.size))
  {
    hide Contents;
    JoinBoth(Contents(g, d), Untouched(g, n));
    JoinZeros(Untouched(g, n), g.size);
  }

  /** Opening a file that holds an image. */
  lemma ReopenStep(g: Geometry, d: Dev, m: Dev, order: seq<nat>, tape: seq<Word>, image: seq<Byte>,
                   saved: Option<seq<Byte>>, now: seq<Byte>)
    requires Holds(g, d, image, saved) && |now| <= |image| && OnFile(g, m, now) && ScanOrder(m, order)
    ensures var r := Reopen(g, m, order, tape);
      Answered(r) && (r.Ok? ==> Stores(g, r.value, Store(now, Some(now), false)))
  {
    hide Core, Open, Image, OnFile, Capacity, Reopen;
    ReopenRestores(g, m, order, tape, now);
    var r := Reopen(g, m, order, tape);
    if r.Ok? {
      HoldsOpen(g, d, image, saved);
      ImageSizes(g, d);
      ImageSizes(g, r.value);
    }
  }

  lemma CloseStep(g: Geometry, d: Dev, order: seq<nat>, tape: seq<Word>, s: Store)
    requires Stores(g, d, s) && ScanOrder(d, order) && (d.updated || d.sealed != []) && Evac(d)
    ensures Fits(g, d)
    ensures var r := CloseAndReopen(g, d, order, tape);
            && Answered(r)
            && (r.Ok? ==> After(g, Close(order, tape), r.value, Bytes([]), s))
  {
    hide Core, Open, Image, OnFile, Capacity, Reopen, CloseDevice;
    HoldsOpen(g, d, s.image, s.saved);
    CloseSaves(g, d, s.image, s.saved);
    var now := ClosedImage(g, d, s.saved).value;
    ReopenStep(g, d, CloseDevice(g, d).value, order, tape, s.image, s.saved, now);
    assert FlatStep(g.size, s, Close(order, tape), Bytes([]), Store(now, Some(now), false));
  }

  /** After any number of writes of a request, the file holds what a crash may leave. */
  lemma MidwayOnFile(g: Geometry, d: Dev, cmd: Command, n: nat, image: seq<Byte>, saved: Option<seq<Byte>>)
    requires Holds(g, d, image, saved) && Fits(g, d) && g.size > 0
    requires Decent(g, d, cmd) && n <= |Marks(g, d, cmd)| && (n > 0 || d.sealed != [])
    ensures exists now :: OnFile(g, Midway(g, d, cmd, n), now) && |now| <= |image|
                          && if n == 0 then saved == Some(now) else SavesPrefix(image, cmd, Some(now), true, g.size)
  {
    hide Core, Open, Contents, Image, OnFile, Capacity, BeyondEnd, AllMarks, Splice, FillerAll;
    if n > 0 {
      HoldsOpen(g, d, image, saved);
      OpenImage(g, d);
      BoundsCheck(g, |d.loc|, cmd);
      PosSplit(cmd.off, g.size);
      AllMarked(g, d, cmd.off / g.size, cmd.off % g.size, cmd.data);
      var m := Marks(g, d, cmd)[n - 1];
      assert PrefixOnFile(g, m, image, cmd.off, cmd.data);
      var k :| 0 <= k <= |cmd.data| && OnFile(g, m, Splice(image, cmd.off, cmd.data[..k]));
      assert SavesPrefix(image, cmd, Some(Splice(image, cmd.off, cmd.data[..k])), true, g.size);
    }
  }

  lemma CrashStep(g: Geometry, d: Dev, e: Event, s: Store)
    requires e.Crash? && Stores(g, d, s) && Fits(g, d) && g.size > 0 && Admissible(g, d, e)
    ensures var r := Perform(g, d, e);
            Answered(r) && (r.Ok? ==> After(g, e, r.value.0, r.value.1, s))
  {
    hide Core, Open, Image, OnFile, Reopen, Marks, Filler, Midway, Holds, SavesPrefix, MayLeave;
    MidwayOnFile(g, d, e.cmd, e.writes, s.image, s.saved);
    var m := Midway(g, d, e.cmd, e.writes);
    var now :| OnFile(g, m, now) && |now| <= |s.image|
               && if e.writes == 0 then s.saved == Some(now) else SavesPrefix(s.image, e.cmd, Some(now), true, g.size);
    TornOnFile(g, m, e.torn, now);
    ReopenStep(g, d, Tear(m, e.torn), e.order, e.tape, s.image, s.saved, now);
    assert FlatStep(g.size, s, e, Bytes([]), Store(now, Some(now), false));
  }

  lemma EventStep(g: Geometry, d: Dev, e: Event, s: Store)
    requires Stores(g, d, s) && Fits(g, d) && g.size > 0 && Admissible(g, d, e)
    ensures Answered(Perform(g, d, e))
    ensures var r := Perform(g, d, e); r.Ok? ==> After(g, e, r.value.0, r.value.1, s)
  {
    hide Open, Image, OnFile, RightSize, DoReq, Cycle, Reopen, Filler, ScanOrder, After, CloseAndReopen, Midway, Tear,
      MayLeave, Marks, Decent, FlatStep, Holds, Stores;
    match e {
      case Request(cmd) => RequestStep(g, d, cmd, s);
      case CycleOnce => CycleStep(g, d, s);
      case Grow(_, _, _) => GrowStep(g, d, e, s);
      case Close(order, tape) => CloseStep(g, d, order, tape, s);
      case Crash(_, _, _, _, _) => CrashStep(g, d, e, s);
    }
  }

  /** The replies are those of the store; the run ends early only when random words run out; else it ends with a device
      that is the store again, and no seqno was used for two writes. */
  ghost predicate Refines(g: Geometry, s: Store, events: seq<Event>, t: Trace) {
    exists f :: FlatRun(g.size, s, events, t.replies, f) && EndsWell(g, events, t, f)
  }

  ghost predicate EndsWell(g: Geometry, events: seq<Event>, t: Trace, f: Store) {
    && Answered(t.end)
    && (t.end.Ok? ==> |t.replies| == |events| && Stores(g, t.end.value, f) && SeqnosUnique(t.end.value))
  }

  ghost predicate SeqnosUnique(d: Dev) {
    forall i, k :: 0 <= i < k < |d.sealed| ==> d.sealed[i] < d.sealed[k]
  }

  lemma RefinesMore(g: Geometry, s: Store, events: seq<Event>, reply: Reply, s': Store, t: Trace)
    requires events != [] && FlatStep(g.size, s, events[0], reply, s') && Refines(g, s', events[1..], t)
    ensures Refines(g, s, events, Trace([reply] + t.replies, t.end))
  {
    hide FlatStep, Stores;
    var f :| FlatRun(g.size, s', events[1..], t.replies, f) && EndsWell(g, events[1..], t, f);
    assert ([reply] + t.replies)[1..] == t.replies;
    assert EndsWell(g, events, Trace([reply] + t.replies, t.end), f);
    assert FlatRun(g.size, s, events, [reply] + t.replies, f);
  }

  lemma StoresUnique(g: Geometry, d: Dev, s: Store)
    requires Stores(g, d, s)
    ensures Fits(g, d) && g.size > 0 && SeqnosUnique(d)
  {
  }

  lemma RefinesEmpty(g: Geometry, d: Dev, s: Store)
    requires Stores(g, d, s) && Fits(g, d) && g.size > 0 && SeqnosUnique(d)
    ensures Refines(g, s, [], Run(g, d, []))
  {
    hide Stores;
    assert FlatRun(g.size, s, [], [], s) && EndsWell(g, [], Run(g, d, []), s);
  }

  /** Every run of requests, cycles, resizings, closings and crashes answers as a flat array of bytes with a saved copy
      would; it ends early only when random words run out; and no seqno is ever used for two writes. */
  lemma {:induction false} RunRefines(g: Geometry, d: Dev, events: seq<Event>, s: Store)
    requires Stores(g, d, s) && Fits(g, d) && g.size > 0 && AllAdmissible(g, d, events)
    ensures Refines(g, s, events, Run(g, d, events))
    decreases |events|
  {
    hide Open, Image, Perform, FlatStep, Admissible, Stores, Refines, Fits, SeqnosUnique;
    StoresUnique(g, d, s);
    if events == [] {
      RefinesEmpty(g, d, s);
    } else {
      EventStep(g, d, events[0], s);
      var r := Perform(g, d, events[0]);
      if r.Ok? {
        var s' :| FlatStep(g.size, s, events[0], r.value.1, s') && Stores(g, r.value.0, s');
        StoresUnique(g, r.value.0, s');
        RunRefines(g, r.value.0, events[1..], s');
        RefinesMore(g, s, events, r.value.1, s', Run(g, r.value.0, events[1..]));
      } else {
        RefinesNone(g, s, events, r.why);
      }
    }
  }

  lemma RefinesNone(g: Geometry, s: Store, events: seq<Event>, why: Failure)
    requires why == NoEntropy
    ensures Refines(g, s, events, Trace([], Fail(why)))
  {
    assert FlatRun(g.size, s, events, [], s) && EndsWell(g, events, Trace([], Fail(why)), s);
  }

  // ----- a write and an ordinary close -----

  /** A write that caused no switch comes back after an ordinary close: the flag that it sets makes the close write. */
  lemma WriteSurvivesClose(g: Geometry, d: Dev, cmd: Command, s: Store, order: seq<nat>, tape: seq<Word>)
    requires Stores(g, d, s) && Fits(g, d) && g.size > 0 && Decent(g, d, cmd) && ScanOrder(d, order)
    requires Lands(|s.image|, cmd) && cmd.data != [] && DoReq(g, d, cmd).Ok?
    requires DoReq(g, d, cmd).value.0.j.seqno == d.j.seqno
    ensures var r := CloseAndReopen(g, DoReq(g, d, cmd).value.0, order, tape);
      Answered(r) && (r.Ok? ==> Open(g, r.value) && Image(g, r.value) == Splice(s.image, cmd.off, cmd.data))
  {
    hide Core, Open, Contents, Image, OnFile, Capacity, Filler, BeyondEnd, Blocks, WriteAll, ReadAll, DoReq, Splice,
         CloseAndReopen, ScanOrder, FlatStep;
    HoldsOpen(g, d, s.image, s.saved);
    RequestRefines(g, d, cmd);
    RequestFlags(g, d, cmd);
    RequestStep(g, d, cmd, s);
    var d' := DoReq(g, d, cmd).value.0;
    var s' :| FlatStep(g.size, s, Request(cmd), DoReq(g, d, cmd).value.1, s') && Stores(g, d', s');
    ReadyEvac(g, d');
    SameScan(g, d, d', order);
    CloseIsExact(g, d', order, tape, s'.image, s'.saved);
  }

  lemma ReadyEvac(g: Geometry, d: Dev)
    requires Open(g, d) && d.ready
    ensures Evac(d)
  {
  }

  lemma SameScan(g: Geometry, d: Dev, d': Dev, order: seq<nat>)
    requires Fits(g, d) && Fits(g, d') && Unchanged(d, d') && ScanOrder(d, order)
    ensures ScanOrder(d', order)
  {
  }
}
