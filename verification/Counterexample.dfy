/** Three devices that were made of nothing, and what they do not give back: a byte written to a block that is scheduled
    for immediate reselection, a byte in a block that was not evacuated, and the size after an interrupted write. */
module Counterexample {
  import opened Prelude
  import opened Random
  import opened Juggler
  import opened Draws
  import opened Device
  import opened Bookkeeping
  import opened Steps
  import opened Requests
  import opened Flat
  import opened Recovery
  import opened Torn
  import opened Resizing
  import opened Sessions
  import opened Hazards
  import opened Gc

  /** A cipher for mesoblocks of one byte, which adds or subtracts one. */
  function PlusOne(): Cipher {
    Cipher((iv, x) => if |x| == 1 then [if x[0] == 255 then 0 else x[0] + 1] else x,
           (iv, x) => if |x| == 1 then [if x[0] == 0 then 255 else x[0] - 1] else x)
  }

  /** One mesoblock of one byte in each macroblock. */
  function Tiny(): Geometry {
    Geometry(1, 1, PlusOne())
  }

  const NEW := Info(0, 0, [], 0)
  const FREE := Sector(None, [[0]])

  /** A device that has none of the three macroblocks. */
  function Nothing(tape: seq<Word>): Dev {
    Dev([], [NEW, NEW, NEW], [FREE, FREE, FREE], [[0]], EMPTY, None, None, false, false, {}, 0, 0, tape, false, [])
  }

  /** Random words for which k free slots are passed over. */
  function Passing(k: nat, rest: seq<Word>): seq<Word> {
    if k == 0 then [0] + rest else [1] + Passing(k - 1, rest)
  }

  /** The device after it was given two macroblocks and one to reserve; block 0 is current, and promised n. */
  function Made(n: nat, rest: seq<Word>): Dev {
    Dev([Unwritten], [Info(1, n, [], 0), NEW, NEW], [FREE, FREE, FREE], [[0]], Schedule([Ticket(0, 1, n)], [1], 1),
        Some(0), if n == 2 then Some(0) else None, false, true, {0, 1}, 1, 0, rest, false, [])
  }

  /** Then 7 is written. */
  function Holding(n: nat, rest: seq<Word>): Dev {
    Made(n, rest).(loc := [At(0, 0)], infos := [Info(1, n, [0], 0), NEW, NEW], ram := [[7]], ready := true,
                   spoiled := n == 2)
  }

  function Plan(n: nat, m: nat): seq<Ticket> {
    if n < m then [Ticket(0, 1, n), Ticket(1, 2, m)] else [Ticket(1, 2, m), Ticket(0, 1, n)]
  }

  /** And after a cycle, block 1 is current, and promised m. */
  function Cycled(n: nat, m: nat, rest: seq<Word>): Dev {
    Dev([At(0, 0)], [Info(1, n, [0], 1), Info(2, m, [], 0), NEW],
        [Sector(Some(Header(1, n, [0], {0, 1}, 1, [1])), [[8]]), FREE, FREE], [[8]], Schedule(Plan(n, m), [], 2),
        Some(1), Some(if n == 3 then 0 else 1), false, false, {0, 1}, 1, 1, rest, false, [1])
  }

  // ----- the steps -----

  lemma WordDraws(w: Word, rest: seq<Word>)
    requires w < 2
    ensures Custom([w] + rest, 2) == Drawn(w, rest) && (w == 0 ==> Custom([w] + rest, 1) == Drawn(0, rest))
  {
    LimitIsExact(1);
    LimitIsExact(2);
    assert ([w] + rest)[1..] == rest;
  }

  lemma {:induction false} PlacesAfter(g: nat, k: nat, rest: seq<Word>)
    ensures Place([], 0, g, 2, Passing(k, rest)) == Slot(0, g + k, rest)
    decreases k
  {
    hide Custom;
    if k == 0 {
      WordDraws(0, rest);
    } else {
      WordDraws(1, Passing(k - 1, rest));
      PlacesAfter(g + 1, k - 1, rest);
    }
  }

  lemma FirstDraw(n: nat, rest: seq<Word>)
    requires n >= 2
    ensures GetDevblock(Schedule([], [0, 1], 0), false, [0] + Passing(n - 2, rest)) ==
      Handed(Ticket(0, 1, n), Schedule([Ticket(0, 1, n)], [1], 1), rest)
  {
    hide Custom, Place, Passing;
    WordDraws(0, Passing(n - 2, rest));
    PlacesAfter(2, n - 2, rest);
    assert [0 as nat, 1][..0] + [0 as nat, 1][1..] == [1];
    assert Insert([], 0, Ticket(0, 1, n)) == [Ticket(0, 1, n)];
  }

  lemma Given2(tape: seq<Word>)
    ensures var d := Nothing(tape);
      Given(Tiny(), d, [1, 0], 1) ==
        Ok(d.(loc := [Unwritten], j := Schedule([], [0, 1], 0), used := {0, 1}, reserved := 1))
  {
    hide Allocate;
    var d := Nothing(tape);
    NothingIsBare(tape);
    AllocateJoins(d, [1, 0]);
    assert Pushed([1, 0], []) == [0, 1] by {
      assert [1 as nat, 0][1..] == [0] && [0 as nat][1..] == [] && [0 as nat] + ([1 as nat] + []) == [0, 1];
    }
    assert Members([1 as nat, 0]) == {0, 1} && |{0 as nat, 1}| == 2;
    assert Allocate(d, [1, 0]).value.infos == d.infos;
    assert d.loc + seq(1, _ => Unwritten) == [Unwritten];
  }

  lemma Creates(n: nat, rest: seq<Word>)
    requires n >= 2
    ensures Resize(Tiny(), Nothing([0] + Passing(n - 2, rest)), [1, 0], 1) == Ok(Made(n, rest))
  {
    hide Place, Custom, Passing, Allocate, Reinit;
    var tape := [0] + Passing(n - 2, rest);
    Given2(tape);
    FirstDraw(n, rest);
    var f := Given(Tiny(), Nothing(tape), [1, 0], 1).value;
    assert f.infos[0 := Info(1, n, [], 0)] == Made(n, rest).infos;
    assert SelectNext(Tiny(), f) == Ok(Made(n, rest).(updated := false));
  }

  lemma Writes(n: nat, rest: seq<Word>)
    requires n >= 2
    ensures DoWrite(Tiny(), Made(n, rest), 0, 0, [7]) == Ok(Holding(n, rest))
  {
    var d := Made(n, rest);
    assert CopyOld(Tiny(), d) == Ok(d);
    var d1 := d.(ready := true);
    assert MakeRoom(Tiny(), d, 0) == Ok(d1);
    assert Splice(Zeros(1), 0, [7]) == [7];
    assert OnDisk(Tiny(), d1, Unwritten) == Ok(Zeros(1));
    assert d1.infos[0 := Info(1, n, [0], 0)] == Holding(n, rest).infos;
    assert d1.loc[0 := At(0, 0)] == Holding(n, rest).loc && d1.ram[0 := [7]] == Holding(n, rest).ram;
    assert d1.infos[0].indices + [0] == [0];
    assert Append(Tiny(), d1, 0, 0, [7]) == Ok(Holding(n, rest));
  }

  lemma SecondDraw(n: nat, m: nat, rest: seq<Word>)
    requires (n, m) == (3, 4) || (n, m) == (4, 3)
    ensures GetDevblock(Schedule([Ticket(0, 1, n)], [1], 1), false, [0] + ([0] + rest)) ==
      Handed(Ticket(1, 2, m), Schedule(Plan(n, m), [], 2), rest)
  {
    hide Custom;
    WordDraws(0, [0] + rest);
    WordDraws(0, rest);
    var s := [Ticket(0, 1, n)];
    assert [1 as nat][..0] + [1 as nat][1..] == [];
    if n == 3 {
      assert Place(s, 1, 4, 2, [0] + rest) == Slot(1, 4, rest);
      assert Insert(s, 1, Ticket(1, 2, 4)) == Plan(3, 4);
    } else {
      assert Insert(s, 0, Ticket(1, 2, 3)) == Plan(4, 3);
    }
  }

  lemma Cycles(n: nat, m: nat, rest: seq<Word>)
    requires (n, m) == (3, 4) || (n, m) == (4, 3)
    ensures Cycle(Tiny(), Holding(n, [0] + ([0] + rest))) == Ok(Cycled(n, m, rest))
  {
    hide GetDevblock;
    var d := Holding(n, [0] + ([0] + rest));
    SecondDraw(n, m, rest);
    assert Encrypted(Tiny(), d, 0) == [[8]];
    assert ScheduledSeqnos(d.j) == [1];
    var w := WriteCurrent(Tiny(), d).value;
    var c := Cycled(n, m, rest);
    assert w.infos == [Info(1, n, [0], 1), NEW, NEW] && w.disk == c.disk && w.sealed == [1];
    assert w.infos[1 := Info(2, m, [], 0)] == c.infos;
    assert SelectNext(Tiny(), w) == Ok(c.(ready := true));
  }

  lemma TinyIsGood()
    ensures GoodGeometry(Tiny())
  {
  }

  lemma NothingIsBare(tape: seq<Word>)
    ensures Bare(Tiny(), Nothing(tape)) && Unowned(Nothing(tape), [1, 0])
    ensures Pos(Capacity(Tiny(), 2, 1), 1) < TWO64 / 2
  {
    TinyIsGood();
    assert Pos(0, 1) == 0 && Pos(1, 1) == 1;
  }

  lemma HoldingIsOpen(n: nat, rest: seq<Word>)
    requires n > 2
    ensures Open(Tiny(), Made(n, rest)) && Open(Tiny(), Holding(n, rest))
  {
    hide Core, Resize, DoWrite, Contents, Bare, Capacity, OnFile;
    NothingIsBare([0] + Passing(n - 2, rest));
    CreationOpens(Tiny(), Nothing([0] + Passing(n - 2, rest)), [1, 0], 1);
    Creates(n, rest);
    Writes(n, rest);
    WriteRefines(Tiny(), Made(n, rest), 0, 0, [7]);
  }

  /** All these devices satisfy the invariant. */
  lemma CycledIsOpen(n: nat, m: nat, rest: seq<Word>)
    requires (n, m) == (3, 4) || (n, m) == (4, 3)
    ensures Open(Tiny(), Cycled(n, m, rest)) && RightSize(Tiny(), Cycled(n, m, rest))
    ensures Content(Tiny(), Cycled(n, m, rest), 0) == [7]
  {
    hide Core, Cycle, Contents, Capacity;
    var words := [0] + ([0] + rest);
    HoldingIsOpen(n, words);
    Cycles(n, m, rest);
    CycleRefines(Tiny(), Holding(n, words));
    CycledSize(n, m, rest);
  }

  lemma CycledSize(n: nat, m: nat, rest: seq<Word>)
    ensures RightSize(Tiny(), Cycled(n, m, rest)) && Fits(Tiny(), Cycled(n, m, rest))
  {
    assert |{0 as nat, 1}| == 2;
  }

  // ----- FILLER -----

  lemma Reselects(rest: seq<Word>)
    ensures Cycle(Tiny(), Holding(2, [0] + rest)).Ok?
    ensures var d := Cycle(Tiny(), Holding(2, [0] + rest)).value;
      d.cur == Some(0) && d.loc == [At(0, 0)] && d.ram == [[8]]
  {
    hide GetDevblock;
    var d := Holding(2, [0] + rest);
    assert Encrypted(Tiny(), d, 0) == [[8]];
    var w := WriteCurrent(Tiny(), d).value;
    ThirdDraw(rest);
  }

  lemma ThirdDraw(rest: seq<Word>)
    ensures GetDevblock(Schedule([Ticket(0, 1, 2)], [1], 1), false, [0] + rest) ==
      Handed(Ticket(0, 2, 3), Schedule([Ticket(0, 2, 3)], [1], 2), rest)
  {
    hide Custom;
    WordDraws(0, rest);
    assert [Ticket(0, 1, 2)][1..] == [];
    assert Insert([], 0, Ticket(0, 2, 3)) == [Ticket(0, 2, 3)];
  }

  /** A device is made, 7 is written, the block is switched, and 8 is read. */
  lemma ByteIsLost()
    ensures var made := Resize(Tiny(), Nothing([0, 0, 0]), [1, 0], 1);
      && made.Ok?
      && var holding := DoWrite(Tiny(), made.value, 0, 0, [7]);
      && holding.Ok?
      && var cycled := Cycle(Tiny(), holding.value);
      && cycled.Ok? && DoRead(Tiny(), cycled.value, 0, 0, 1) == Ok([8])
  {
    assert [0, 0, 0] == [0] + Passing(0, [0]) && [0] == [0] + [];
    hide Resize, DoWrite, Cycle, Passing, Nothing;
    Creates(2, [0]);
    Writes(2, [0]);
    Reselects([]);
    assert [8 as Byte][0..1] == [8];
  }

  // ----- EVAC -----

  /** With two zero words, closing and opening does not fail. */
  lemma ClosesAtOnce(g: Geometry, d: Dev, order: seq<nat>, tape: seq<Word>)
    requires Open(g, d) && RightSize(g, d) && ScanOrder(d, order) && d.updated && AllZero(tape) && |tape| >= 2
    ensures CloseAndReopen(g, d, order, tape).Ok?
  {
    hide Core, Recover, Parked, WriteCurrent, Contents, SelectNext, SameDevice, Capacity, GetDevblock, AllZero;
    OpenedBy(g, d);
    WriteParks(g, d);
    var w := WriteCurrent(g, d).value;
    Hazards.WriteFrame(g, d);
    RecoverRestores(g, w, order, tape);
    var r0 := Recover(g, w.disk, order, tape).value;
    SameCore(g, w, r0);
    var r := r0.(sealed := w.sealed);
    RecoveredTape(g, w.disk, order, tape);
    OpenJuggler(g, r);
    SelectsAtOnce(r.j, tape);
    SelectStarves(g, r);
    SameTail(g, w, r0);
  }

  lemma RecoveredTape(g: Geometry, disk: seq<Sector>, order: seq<nat>, tape: seq<Word>)
    ensures var r := Recover(g, disk, order, tape); r.Ok? ==> r.value.tape == tape
  {
  }

  lemma SelectStarves(g: Geometry, d: Dev)
    requires Core(g, d) && d.cur == None && GetDevblock(d.j, false, d.tape).Handed?
    ensures SelectNext(g, d).Ok?
  {
    hide Core, GetDevblock;
    SelectAnswers(g, d);
  }

  /** Macroblock 2 is nobody's. */
  lemma ThirdIsFree(n: nat, m: nat, rest: seq<Word>, reserved: nat)
    requires 1 <= reserved <= 2
    ensures Unowned(Cycled(n, m, rest), [2]) && Grows(Tiny(), Cycled(n, m, rest), [2], reserved)
    ensures ScanOrder(Cycled(n, m, rest), [0, 1, 2])
  {
    assert |{0 as nat, 1}| == 2;
    InOrder(Cycled(n, m, rest), [0, 1, 2]);
  }

  lemma InOrder(d: Dev, order: seq<nat>)
    requires |order| == |d.disk| && forall i :: 0 <= i < |order| ==> order[i] == i
    ensures ScanOrder(d, order)
  {
    forall id: nat
      ensures id in order <==> id < |order|
    {
      assert id < |order| ==> order[id] in order;
    }
  }

  /** A device is made, 7 is written, and a cycle brings it on file.  Then the device gets a third macroblock, is closed
      and opened again, and reads 0. */
  lemma ByteIsOverwritten()
    ensures Resize(Tiny(), Nothing([0, 1, 0, 0, 0]), [1, 0], 1) == Ok(Made(3, [0, 0]))
    ensures DoWrite(Tiny(), Made(3, [0, 0]), 0, 0, [7]) == Ok(Holding(3, [0, 0]))
    ensures Cycle(Tiny(), Holding(3, [0, 0])) == Ok(Cycled(3, 4, []))
    ensures DoRead(Tiny(), Cycled(3, 4, []), 0, 0, 1) == Ok([7])
    ensures Resize(Tiny(), Cycled(3, 4, []), [2], 2).Ok?
    ensures var s := CloseAndReopen(Tiny(), Resize(Tiny(), Cycled(3, 4, []), [2], 2).value, [0, 1, 2], [0, 0]);
      s.Ok? && DoRead(Tiny(), s.value, 0, 0, 1) == Ok([0])
  {
    assert [0, 1, 0, 0, 0] == [0] + Passing(1, [0, 0]) && [0, 0] == [0] + ([0] + []);
    var d := Cycled(3, 4, []);
    hide Resize, DoWrite, DoRead, Cycle, Passing, Nothing, Open, CloseAndReopen, RightSize, Content, Made, Holding;
    Creates(3, [0, 0]);
    Writes(3, [0, 0]);
    Cycles(3, 4, []);
    CycledIsOpen(3, 4, []);
    ThirdIsFree(3, 4, [], 2);
    ReadsContent(Tiny(), d, 0);
    ResizedCloses();
  }

  lemma ResizedCloses()
    ensures Resize(Tiny(), Cycled(3, 4, []), [2], 2).Ok?
    ensures var s := CloseAndReopen(Tiny(), Resize(Tiny(), Cycled(3, 4, []), [2], 2).value, [0, 1, 2], [0, 0]);
      s.Ok? && DoRead(Tiny(), s.value, 0, 0, 1) == Ok([0])
  {
    hide Resize, DoRead, Core, Open, CloseAndReopen, Capacity, Content, Joined, Contents, Evacuated;
    var d := Cycled(3, 4, []);
    CycledIsOpen(3, 4, []);
    ThirdIsFree(3, 4, [], 2);
    ResizeKeepsOpen(Tiny(), d, [2], 2);
    var r := Resize(Tiny(), d, [2], 2).value;
    JoinedFrame(Tiny(), d, [2], 2, r);
    ClosesAtOnce(Tiny(), r, [0, 1, 2], [0, 0]);
    var s := CloseAndReopen(Tiny(), r, [0, 1, 2], [0, 0]).value;
    assert 0 in VictimLive(d);
    ResizeOverwrites(Tiny(), d, [2], 2, [0, 1, 2], [0, 0], 0);
    assert Zeros(1) == [0];
    ReopenedHasCurrent(Tiny(), r, [0, 1, 2], [0, 0]);
    ReadsContent(Tiny(), s, 0);
  }

  lemma ReopenedHasCurrent(g: Geometry, d: Dev, order: seq<nat>, tape: seq<Word>)
    requires Fits(g, d) && CloseAndReopen(g, d, order, tape).Ok?
    ensures CloseAndReopen(g, d, order, tape).value.cur.Some?
  {
    hide Recover, CloseDevice, GetDevblock;
  }

  // ----- too little reserve -----

  function Zeroes(n: nat): seq<Word> {
    seq(n, _ => 0)
  }

  lemma FullOfSeven(n: nat)
    ensures Fits(Tiny(), Cycled(3, 4, Zeroes(n))) && InitOutput(Tiny(), Cycled(3, 4, Zeroes(n))).Ok?
    ensures var d := InitOutput(Tiny(), Cycled(3, 4, Zeroes(n))).value;
      Alternating(Tiny(), d, 0, 1) && d.tape == Zeroes(n) && RightSize(Tiny(), d) && d.reserved == |d.j.unscheduled| + 1
  {
    hide Core, CopyOld, Capacity, Contents;
    var d := Cycled(3, 4, Zeroes(n));
    CycledIsOpen(3, 4, Zeroes(n));
    EvacuateOpens(Tiny(), d);
    CopyOldEvacuates(Tiny(), d);
    assert VictimLive(d) == {0};
  }

  /** One reserved block less, and for every number there are words with which garbage collection makes more turns: each
      turn fills the block it selects with what was in the other. */
  lemma ReserveIsSharp(n: nat)
    ensures Fits(Tiny(), Cycled(3, 4, Zeroes(n))) && InitOutput(Tiny(), Cycled(3, 4, Zeroes(n))).Ok?
    ensures var d := InitOutput(Tiny(), Cycled(3, 4, Zeroes(n))).value;
      && Open(Tiny(), d) && d.ready && Full(Tiny(), d) && RightSize(Tiny(), d)
      && d.reserved == |d.j.unscheduled| + 1 && Turns(Tiny(), d) >= n
  {
    hide Core, InitOutput, RightSize, Turns;
    FullOfSeven(n);
    CrowdedForever(Tiny(), InitOutput(Tiny(), Cycled(3, 4, Zeroes(n))).value, 0, 1);
  }

  // ----- the newest header is lost -----

  /** The device after it got a third macroblock and was closed: block 1, promised the next seqno, carries the only
      header that tells of it. */
  function Larger(): Result<Dev> {
    var r :- Resize(Tiny(), Cycled(4, 3, []), [2], 1);
    WriteCurrent(Tiny(), r)
  }

  lemma Grows2()
    ensures var r := Resize(Tiny(), Cycled(4, 3, []), [2], 1);
      && r.Ok? && Open(Tiny(), r.value) && r.value.loc == [At(0, 0), Unwritten] && r.value.disk == Cycled(4, 3, []).disk
      && r.value.j == Schedule(Plan(4, 3), [2], 2) && r.value.cur == Some(1)
      && Contents(Tiny(), r.value) == [[7], [0]]
  {
    hide Resize, Core, Contents, Content, Open, Capacity;
    var d := Cycled(4, 3, []);
    CycledIsOpen(4, 3, []);
    ThirdIsFree(4, 3, [], 1);
    ResizeKeepsOpen(Tiny(), d, [2], 1);
    var r := Resize(Tiny(), d, [2], 1).value;
    OpenFits(Tiny(), d);
    ContentsAt(Tiny(), d, 0);
    assert Pushed([2], []) == [2] by {
      assert [2 as nat][1..] == [];
    }
    ThreeByOne();
    assert Zeros(1) == [0];
    assert Contents(Tiny(), d) == [[7]] && Untouched(Tiny(), 1) == [[0]];
  }

  lemma ThreeByOne()
    ensures Capacity(Tiny(), 3, 1) == 2 && |{0 as nat, 1}| == 2
  {
    assert |{0 as nat, 1}| == 2;
  }

  lemma LargerIsSaved()
    ensures Larger().Ok?
    ensures var p := Larger().value; var d := Cycled(4, 3, []);
      && Recoverable(Tiny(), p) && Fits(Tiny(), p) && p.j.scheduled == d.j.scheduled && p.j.seqno == 2
      && p.loc == [At(0, 0), Unwritten] && |p.disk| == 3 && p.disk[0] == d.disk[0] && p.disk[2] == d.disk[2]
    ensures Contents(Tiny(), Larger().value) == [[7], [0]]
  {
    hide Resize, Contents, Content, MapOk, ListsOk, CountsOk, CurOk, DiskOk, LastWriter, JugglerOk, SealedOk, Live,
         Inverts, KeepsLength, NewestHeader, DigestStored;
    Grows2();
    WriteParks(Tiny(), Resize(Tiny(), Cycled(4, 3, []), [2], 1).value);
  }

  lemma LargerIsLosing(data: seq<seq<Byte>>)
    requires DataSized(Tiny(), data) && Larger().Ok?
    ensures Losing(Tiny(), Larger().value, 1, data, 0)
  {
    hide Larger, Recoverable, DataSized;
    LargerIsSaved();
  }

  /** The device when block 0 was written, and block 1 had no header yet. */
  function Smaller(): Result<Dev> {
    WriteCurrent(Tiny(), Holding(4, [0, 0]))
  }

  lemma WrittenBefore()
    requires Larger().Ok?
    ensures Smaller().Ok?
    ensures var p0 := Smaller().value;
      && Recoverable(Tiny(), p0) && DigestStored(p0) && Headed(p0.disk, 0) && Seqno(p0.disk, 0) == p0.j.seqno
      && OnlyOverwrote(p0, Larger().value, 1) && !Headed(p0.disk, 1)
  {
    hide Larger, MapOk, ListsOk, CountsOk, CurOk, DiskOk, LastWriter, JugglerOk, SealedOk, Live, Inverts, KeepsLength,
         NewestHeader, DigestStored, Contents;
    LargerIsSaved();
    HoldingIsOpen(4, [0, 0]);
    var d := Holding(4, [0, 0]);
    WriteParks(Tiny(), d);
    assert Encrypted(Tiny(), d, 0) == [[8]];
    assert ScheduledSeqnos(d.j) == [1];
  }

  /** An interrupted write of block 1 then takes the size of the device along: two mesoblocks become one.  The digest
      does not tell. */
  lemma SizeIsLost(data: seq<seq<Byte>>, tape: seq<Word>)
    requires DataSized(Tiny(), data)
    ensures Larger().Ok? && 1 < |Larger().value.disk| && Fits(Tiny(), Larger().value)
    ensures Contents(Tiny(), Larger().value) == [[7], [0]]
    ensures var torn := Unheaded(Larger().value.disk, 1, data);
      var r := Recover(Tiny(), torn, [0, 1, 2], tape);
      && r.Ok? && Fits(Tiny(), r.value) && Contents(Tiny(), r.value) == [[7]]
      && StoredSeqnos(torn, [0, 1, 2]) == ScheduledSeqnos(r.value.j)
  {
    hide Larger, Losing, Recover, Contents, SameDevice, Lost, Recoverable, DataSized, StoredSeqnos, ScheduledSeqnos,
         Smaller, DigestStored, OnlyOverwrote;
    LargerIsSaved();
    LargerIsLosing(data);
    WrittenBefore();
    var p := Larger().value;
    ThirdIsFree(4, 3, [], 1);
    LostRecovers(Tiny(), p, 1, data, 0, [0, 1, 2], tape);
    LostIsNoticed(Tiny(), Smaller().value, p, 1, data, 0, [0, 1, 2], tape);
    ThreeByOne();
    assert Left(Tiny(), p.disk, 0) == 1;
    var c := Contents(Tiny(), Recover(Tiny(), Unheaded(p.disk, 1, data), [0, 1, 2], tape).value);
    assert c + Untouched(Tiny(), 1) == [[7], [0]];
    assert (c + Untouched(Tiny(), 1))[..1] == c;
  }
}
