/** The two hypotheses of the refinement are exact: what becomes of a mesoblock that was added to a block scheduled
    for immediate reselection (FILLER), and of one in a block that is overwritten without evacuation (EVAC). */
module Hazards {
  import opened Prelude
  import opened Random
  import opened Juggler
  import opened Draws
  import opened Device
  import opened Bookkeeping
  import opened Steps
  import opened Requests
  import opened Flat
  import opened Recovery
  import opened Resizing
  import opened Sessions

  // ----- FILLER -----

  /** The current block will be selected again next. */
  predicate SelfScheduled(d: Dev) {
    d.cur.Some? && TailOf(d.j) == d.cur
  }

  lemma SlotSealed(g: Geometry, d: Dev, x: nat)
    requires Core(g, d) && d.cur.Some? && x < |d.loc| && InRam(d, d.loc[x])
    ensures WriteCurrent(g, d).Ok? && d.loc[x].slot < g.mmpm
    ensures WriteCurrent(g, d).value.ram[d.loc[x].slot]
            == g.cipher.enc(Iv(d.infos[d.cur.value].seqno, d.loc[x].slot + 1, d.cur.value), d.ram[d.loc[x].slot])
  {
    hide LastWriter, DiskOk, SealedOk, CountsOk, JugglerOk;
  }

  lemma SelfScheduledSwitch(g: Geometry, d: Dev, x: nat)
    requires Core(g, d) && SelfScheduled(d) && x < |d.loc| && InRam(d, d.loc[x]) && Switch(g, d).Ok?
    ensures var s := Switch(g, d).value;
            && s.loc == d.loc && s.cur == d.cur && d.loc[x].slot < g.mmpm
            && s.ram[d.loc[x].slot] == g.cipher.enc(Iv(d.infos[d.cur.value].seqno, d.loc[x].slot + 1, d.cur.value),
                                                    d.ram[d.loc[x].slot])
  {
    hide MapOk, ListsOk, CountsOk, CurOk, DiskOk, LastWriter, JugglerOk, SealedOk, Inverts, KeepsLength, Contents,
      GetDevblock, Valid, NotStuck, WriteCurrent, SelectNext, NewestHeader;
    WriteParks(g, d);
    SlotSealed(g, d, x);
    var w := WriteCurrent(g, d).value;
    SelectAnswers(g, w);
    SelectFrame(g, w);
  }

  /** A mesoblock in RAM survives the next switch exactly if its block is not scheduled for immediate reselection,
      unless the cipher happens to leave it unchanged: what would be read is its ciphertext. */
  lemma FillerIsExact(g: Geometry, d: Dev, x: nat)
    requires Core(g, d) && d.cur.Some? && x < |d.loc| && InRam(d, d.loc[x])
    requires !SelfScheduled(d) ==> Evacuated(d)
    requires Switch(g, d).Ok?
    ensures var key := Iv(d.infos[d.cur.value].seqno, d.loc[x].slot + 1, d.cur.value);
            DoRead(g, Switch(g, d).value, x, 0, g.size) == Ok(Content(g, d, x))
            <==> !SelfScheduled(d) || g.cipher.enc(key, Content(g, d, x)) == Content(g, d, x)
  {
    ContentLength(g, d, x);
    var s := Switch(g, d).value;
    var c := Content(g, d, x);
    if SelfScheduled(d) {
      SelfScheduledSwitch(g, d, x);
      assert c == d.ram[d.loc[x].slot];
      var e := g.cipher.enc(Iv(d.infos[d.cur.value].seqno, d.loc[x].slot + 1, d.cur.value), c);
      assert |e| == g.size;
      assert DoRead(g, s, x, 0, g.size) == Ok(e[0..g.size]);
      assert e[0..g.size] == e;
    } else {
      SwitchKeeps(g, d);
      assert Contents(g, s)[x] == Content(g, s, x);
      assert Contents(g, d)[x] == c;
      ContentLength(g, s, x);
      ReadsContent(g, s, x);
    }
  }

  lemma ReadsContent(g: Geometry, s: Dev, x: nat)
    requires Fits(g, s) && s.cur.Some? && x < |s.loc| && |Content(g, s, x)| == g.size > 0
    ensures DoRead(g, s, x, 0, g.size) == Ok(Content(g, s, x))
  {
    assert Content(g, s, x)[0..g.size] == Content(g, s, x);
  }

  /** do_write adds to such a block without any check, and then the block is not evacuated when it is reselected. */
  lemma SpoiledExactly(g: Geometry, d: Dev, x: nat, off: nat, data: seq<Byte>)
    requires Open(g, d) && !d.spoiled && d.ready && x < |d.loc| && !InRam(d, d.loc[x]) && off + |data| <= g.size
    requires !Full(g, d)
    ensures Append(g, d, x, off, data).Ok?
    ensures Append(g, d, x, off, data).value.spoiled <==> SelfScheduled(d)
    ensures Open(g, Append(g, d, x, off, data).value) <==> !SelfScheduled(d)
  {
    AppendKeeps(g, d, x, off, data);
    var r := Append(g, d, x, off, data).value;
    if SelfScheduled(d) {
      AppendMoves(g, d, x, off, data);
      assert x in Live(r.loc, d.cur.value);
    }
  }

  // ----- EVAC -----

  /** What selecting the next block does to the contents when it was not evacuated: RAM is read in its place. */
  lemma SelectedContent(g: Geometry, r: Dev, x: nat)
    requires Core(g, r) && r.cur == None && SelectNext(g, r).Ok? && x < |r.loc|
    ensures var s := SelectNext(g, r).value;
            && |s.loc| == |r.loc|
            && (if TailOf(r.j).Some? && x in Live(r.loc, TailOf(r.j).value)
                then r.loc[x].slot < g.mmpm && Content(g, s, x) == r.ram[r.loc[x].slot]
                else Content(g, s, x) == Content(g, r, x))
  {
    hide CountsOk, CurOk, LastWriter, Inverts, KeepsLength, JugglerOk, SelectNext, Valid, NotStuck, SealedOk;
    SelectAnswers(g, r);
    SelectFrame(g, r);
    var s := SelectNext(g, r).value;
    var c := s.cur.value;
    if TailOf(r.j) == None {
      assert r.infos[c].indices == [];
    }
  }

  /** An open block that will be selected again next holds nothing. */
  lemma SelfScheduledIsEmpty(g: Geometry, d: Dev)
    requires Open(g, d) && SelfScheduled(d)
    ensures Live(d.loc, d.cur.value) == {}
  {
  }

  /** Closing a device with the update flag set, without evacuation: everything live in the block that is overwritten
      first reads as zeros; the rest is kept. */
  lemma Overwritten(g: Geometry, d: Dev, order: seq<nat>, tape: seq<Word>, x: nat)
    requires Open(g, d) && RightSize(g, d) && ScanOrder(d, order) && x < |d.loc|
    requires d.updated && CloseAndReopen(g, d, order, tape).Ok?
    ensures var s := CloseAndReopen(g, d, order, tape).value;
            && |s.loc| == |d.loc|
            && Content(g, s, x) == if x in VictimLive(d) then Zeros(g.size) else Content(g, d, x)
  {
    hide Core, Recover, Parked, WriteCurrent, Contents, SelectNext, SameDevice, Capacity;
    OpenedBy(g, d);
    if SelfScheduled(d) {
      SelfScheduledIsEmpty(g, d);
    }
    WriteParks(g, d);
    var w := WriteCurrent(g, d).value;
    WriteFrame(g, d);
    RecoverRestores(g, w, order, tape);
    var r0 := Recover(g, w.disk, order, tape).value;
    RecoveredRam(g, w.disk, order, tape);
    SameCore(g, w, r0);
    var r := r0.(sealed := w.sealed);
    SameTail(g, w, r0);
    SelectedContent(g, r, x);
    ContentsAt(g, r, x);
    ContentsAt(g, d, x);
  }

  lemma ContentsAt(g: Geometry, d: Dev, x: nat)
    requires Fits(g, d) && x < |d.loc|
    ensures |Contents(g, d)| == |d.loc| && Contents(g, d)[x] == Content(g, d, x)
  {
  }

  lemma WriteFrame(g: Geometry, d: Dev)
    requires Fits(g, d) && WriteCurrent(g, d).Ok?
    ensures var w := WriteCurrent(g, d).value;
            w.reserved == d.reserved && |w.disk| == |d.disk| && w.j == d.j && w.loc == d.loc
  {
  }

  lemma SameTail(g: Geometry, p: Dev, r: Dev)
    requires SameDevice(g, p, r)
    ensures TailOf(r.j) == TailOf(p.j) && r.loc == p.loc
  {
  }

  lemma RecoveredRam(g: Geometry, disk: seq<Sector>, order: seq<nat>, tape: seq<Word>)
    ensures var r := Recover(g, disk, order, tape); r.Ok? ==> r.value.ram == seq(g.mmpm, _ => Zeros(g.size))
  {
  }

  /** The device comes back whole exactly if everything in the block to be overwritten was zero; in particular if the
      output was initialised or nothing was live there. */
  lemma EvacIsExact(g: Geometry, d: Dev, order: seq<nat>, tape: seq<Word>)
    requires Open(g, d) && RightSize(g, d) && ScanOrder(d, order)
    requires d.updated && CloseAndReopen(g, d, order, tape).Ok?
    ensures Contents(g, CloseAndReopen(g, d, order, tape).value) == Contents(g, d)
            <==> forall x :: x in VictimLive(d) ==> Contents(g, d)[x] == Zeros(g.size)
    ensures d.ready || VictimLive(d) == {} ==> Contents(g, CloseAndReopen(g, d, order, tape).value) == Contents(g, d)
  {
    hide Core, CloseAndReopen, Contents;
    OpenedBy(g, d);
    var s := CloseAndReopen(g, d, order, tape).value;
    var a, b := Contents(g, s), Contents(g, d);
    forall x: nat | x < |d.loc|
      ensures |a| == |s.loc| == |d.loc| == |b| && a[x] == if x in VictimLive(d) then Zeros(g.size) else b[x]
    {
      Overwritten(g, d, order, tape, x);
      ContentsAt(g, s, x);
      ContentsAt(g, d, x);
    }
    Overwritten(g, d, order, tape, 0);
    ContentsAt(g, s, 0);
    ContentsAt(g, d, 0);
    assert forall x :: x in VictimLive(d) ==> x < |b|;
    if forall x :: x in VictimLive(d) ==> b[x] == Zeros(g.size) {
      assert forall x :: 0 <= x < |b| ==> a[x] == b[x];
    }
  }

  lemma JoinedVictim(g: Geometry, d: Dev, ids: seq<nat>, reserved: nat, r: Dev)
    requires Joined(g, d, ids, reserved, r)
    ensures VictimLive(r) == VictimLive(d) && forall x :: x in VictimLive(d) ==> x < |d.loc|
  {
    hide Capacity, Pushed, Prepared;
    JoinedLive(g, d, ids, reserved, r);
  }

  /** The resize command sets the flag without evacuating.  If the device is closed right after it, what was live in the
      next block reads as zeros, and the rest is as before. */
  lemma ResizeOverwrites(g: Geometry, d: Dev, ids: seq<nat>, reserved: nat, order: seq<nat>, tape: seq<Word>, x: nat)
    requires Open(g, d) && RightSize(g, d) && ScanOrder(d, order) && x < |d.loc|
    requires Unowned(d, ids) && Grows(g, d, ids, reserved)
    ensures Resize(g, d, ids, reserved).Ok?
    ensures var s := CloseAndReopen(g, Resize(g, d, ids, reserved).value, order, tape);
      s.Ok? ==> x < |s.value.loc|
                && Content(g, s.value, x) == if x in VictimLive(d) then Zeros(g.size) else Content(g, d, x)
  {
    hide Core, Open, CloseAndReopen, Contents, Capacity, Joined, Content, VictimLive, Resize, Fits;
    OpenFits(g, d);
    ResizeKeepsOpen(g, d, ids, reserved);
    var r := Resize(g, d, ids, reserved).value;
    OpenFits(g, r);
    JoinedFrame(g, d, ids, reserved, r);
    JoinedVictim(g, d, ids, reserved, r);
    if CloseAndReopen(g, r, order, tape).Ok? {
      Overwritten(g, r, order, tape, x);
      ContentsAt(g, d, x);
      ContentsAt(g, r, x);
    }
  }

  lemma OpenFits(g: Geometry, d: Dev)
    requires Open(g, d)
    ensures Fits(g, d) && |Contents(g, d)| == |d.loc|
  {
  }

  /** Everything comes back exactly if all that was zero. */
  lemma ResizeIsExact(g: Geometry, d: Dev, ids: seq<nat>, reserved: nat, order: seq<nat>, tape: seq<Word>)
    requires Open(g, d) && RightSize(g, d) && ScanOrder(d, order)
    requires Unowned(d, ids) && Grows(g, d, ids, reserved)
    ensures Resize(g, d, ids, reserved).Ok? && |Contents(g, d)| == |d.loc|
    ensures var r := Resize(g, d, ids, reserved).value;
      var s := CloseAndReopen(g, r, order, tape);
      s.Ok? ==> (Contents(g, s.value) == Contents(g, r) <==>
                   forall x :: x in VictimLive(d) ==> Contents(g, d)[x] == Zeros(g.size))
  {
    hide Core, Open, CloseAndReopen, Contents, Capacity, Joined, VictimLive, Resize, Fits;
    OpenFits(g, d);
    ResizeKeepsOpen(g, d, ids, reserved);
    var r := Resize(g, d, ids, reserved).value;
    OpenFits(g, r);
    JoinedFrame(g, d, ids, reserved, r);
    JoinedVictim(g, d, ids, reserved, r);
    if CloseAndReopen(g, r, order, tape).Ok? {
      EvacIsExact(g, r, order, tape);
      assert forall x: nat :: x < |d.loc| ==> Contents(g, r)[x] == Contents(g, d)[x];
    }
  }

  // ----- a new device -----

  /** A device that has nothing yet. */
  ghost predicate Bare(g: Geometry, d: Dev) {
    && GoodGeometry(g) && Sized(g, d) && d.used == {} && d.loc == [] && d.j == EMPTY
    && (forall id :: 0 <= id < |d.disk| ==> d.disk[id].header == None)
    && d.cur == None && d.tail == None && !d.ready && !d.spoiled && d.sealed == []
  }

  /** A device that was just created: its blocks were allocated and nothing was written. */
  ghost predicate Fresh(g: Geometry, d: Dev) {
    && GoodGeometry(g) && Sized(g, d) && RightSize(g, d) && d.used != {}
    && (forall x :: 0 <= x < |d.loc| ==> d.loc[x] == Unwritten)
    && (forall id :: id in d.used ==> id < |d.infos| && d.infos[id] == Info(0, 0, [], 0))
    && (forall id :: 0 <= id < |d.disk| ==> d.disk[id].header == None)
    && d.j.scheduled == [] && d.j.seqno == 0 && NoDup(d.j.unscheduled)
    && (forall id :: id in d.j.unscheduled <==> id in d.used)
    && d.cur == None && d.tail == None && !d.ready && !d.spoiled && d.sealed == []
  }

  lemma FreshCore(g: Geometry, d: Dev)
    requires Fresh(g, d)
    ensures Core(g, d) && Evacuated(d)
  {
    hide Capacity, Inverts, KeepsLength, Zeros, JugglerOk;
    FreshPlan(g, d);
    forall id: nat
      ensures Live(d.loc, id) == {} && !Headed(d.disk, id)
    {
    }
  }

  lemma FreshPlan(g: Geometry, d: Dev)
    requires Fresh(g, d)
    ensures JugglerOk(d.infos, d.used, d.cur, d.j)
  {
    hide Capacity, Inverts, KeepsLength;
    var id :| id in d.used;
    assert id in d.j.unscheduled;
  }

  /** A new device opens, and reads as zeros everywhere. */
  lemma FreshOpens(g: Geometry, d: Dev)
    requires Fresh(g, d) && Pos(|d.loc|, g.size) < TWO64 / 2
    ensures Answered(SelectNext(g, d))
    ensures SelectNext(g, d).Ok? ==> Holds(g, SelectNext(g, d).value, Zeros(Pos(|d.loc|, g.size)), None)
  {
    FreshCore(g, d);
    SelectOpens(g, d);
    if SelectNext(g, d).Ok? {
      SelectFrame(g, d);
      hide Core, SelectNext, Capacity;
      JoinZeros(Contents(g, d), g.size);
      OpensUnready(g, SelectNext(g, d).value);
    }
  }

  /** The device that a resize command makes of nothing, before it selects a block. */
  function Given(g: Geometry, d: Dev, ids: seq<nat>, reserved: nat): Result<Dev> {
    var d1 :- Allocate(d, ids);
    Reinit(g, d1.(reserved := reserved))
  }

  lemma GivenIsFresh(g: Geometry, d: Dev, ids: seq<nat>, reserved: nat)
    requires Bare(g, d) && Unowned(d, ids) && reserved < |ids|
    ensures var f := Given(g, d, ids, reserved);
      f.Ok? && Fresh(g, f.value) && |f.value.loc| == Capacity(g, |ids|, reserved)
  {
    hide Capacity, Allocate, Inverts, KeepsLength, Pushed, NoDup, Zeros;
    AllocateJoins(d, ids);
    PushedOnce(ids, []);
    GivenSize(g, |ids|, reserved);
    assert ids[0] in ids;
  }

  lemma GivenSize(g: Geometry, n: nat, reserved: nat)
    requires reserved < n && g.mmpm > 0
    ensures Capacity(g, n, reserved) > 0
  {
  }

  lemma UpdatedHolds(g: Geometry, s: Dev, image: seq<Byte>, saved: Option<seq<Byte>>)
    requires Holds(g, s, image, saved) && saved == None
    ensures Holds(g, s.(updated := true), image, saved)
  {
    hide MapOk, ListsOk, CountsOk, CurOk, DiskOk, LastWriter, JugglerOk, SealedOk, HistoryOk, Inverts, KeepsLength,
         Live, Capacity, Image;
    UpdatedImage(g, s, s.(updated := true));
  }

  lemma FreshLocs(g: Geometry, d: Dev)
    requires Fresh(g, d)
    ensures Fits(g, d) && forall x :: 0 <= x < |d.loc| ==> d.loc[x] == Unwritten
  {
  }

  lemma NothingLive(d: Dev)
    requires forall x :: 0 <= x < |d.loc| ==> d.loc[x] == Unwritten
    ensures Evacuated(d)
  {
  }

  /** The first resize command opens the device, which reads as zeros everywhere. */
  lemma CreationOpens(g: Geometry, d: Dev, ids: seq<nat>, reserved: nat)
    requires Bare(g, d) && Unowned(d, ids) && reserved < |ids|
    requires Pos(Capacity(g, |ids|, reserved), g.size) < TWO64 / 2
    ensures Fits(g, d) && Answered(Resize(g, d, ids, reserved))
    ensures var r := Resize(g, d, ids, reserved);
      r.Ok? ==> Holds(g, r.value, Zeros(Pos(Capacity(g, |ids|, reserved), g.size)), None) && Evac(r.value)
  {
    hide Core, Fresh, SelectNext, Capacity, Allocate, Reinit, Image, Contents, Holds, Evacuated, Pos, Zeros;
    GivenIsFresh(g, d, ids, reserved);
    var f := Given(g, d, ids, reserved).value;
    FreshOpens(g, f);
    AllocateJoins(d, ids);
    if SelectNext(g, f).Ok? {
      var s := SelectNext(g, f).value;
      UpdatedHolds(g, s, Zeros(Pos(|f.loc|, g.size)), None);
      SelectFrame(g, f);
      FreshLocs(g, f);
      NothingLive(s.(updated := true));
    }
  }
}
