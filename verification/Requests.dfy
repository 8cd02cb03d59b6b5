/** The requests of one mesoblock: reading, writing and cycling keep the device open and refine an array of
    mesoblocks, as long as nothing is added to a block that is scheduled for immediate reselection. */
module Requests {
  import opened Prelude
  import opened Random
  import opened Juggler
  import opened Device
  import opened Bookkeeping
  import opened Steps

  /** What no request changes. */
  ghost predicate Unchanged(d: Dev, d': Dev) {
    |d'.loc| == |d.loc| && d'.used == d.used && d'.reserved == d.reserved && |d'.infos| == |d.infos|
  }

  /** A request either completes or fails to read random words; it never trips an assertion. */
  ghost predicate Answered<T>(r: Result<T>) {
    r.Ok? || r == Fail(NoEntropy)
  }

  // ----- switching macroblocks -----

  lemma OpenedBy(g: Geometry, d: Dev)
    requires Core(g, d) && d.cur.Some?
    ensures Fits(g, d) && d.cur.value in d.used && d.cur.value < |d.infos|
    ensures |d.infos[d.cur.value].indices| <= g.mmpm && g.mmpm > 0 && d.infos[d.cur.value].seqno == d.j.seqno
  {
  }

  /** Writing the current block and selecting the next keeps every mesoblock, provided the next is evacuated. */
  lemma SwitchKeeps(g: Geometry, d: Dev)
    requires Core(g, d) && d.cur.Some? && Evacuated(d)
    ensures Answered(Switch(g, d))
    ensures var r := Switch(g, d);
            r.Ok? ==>
              && Core(g, r.value) && r.value.tail == TailOf(r.value.j)
              && r.value.infos[r.value.cur.value].indices == []
              && Contents(g, r.value) == Contents(g, d)
              && r.value.loc == d.loc && Unchanged(d, r.value)
              && r.value.ready == d.ready && r.value.spoiled == d.spoiled
              && r.value.disk == WriteCurrent(g, d).value.disk && r.value.writes == d.writes + 1
              && r.value.sealed == d.sealed + [d.j.seqno] && r.value.j.seqno == d.j.seqno + 1
  {
    hide MapOk, ListsOk, CountsOk, CurOk, DiskOk, LastWriter, JugglerOk, SealedOk, Inverts, KeepsLength, Contents,
      GetDevblock, Valid, NotStuck, SelectNext, NewestHeader, Live;
    OpenedBy(g, d);
    WriteParks(g, d);
    var w := WriteCurrent(g, d).value;
    assert Core(g, w) && Evacuated(w);
    SelectOpens(g, w);
    if SelectNext(g, w).Ok? {
      SelectFrame(g, w);
    }
  }

  lemma EvacuateOpens(g: Geometry, d: Dev)
    requires Core(g, d) && d.cur.Some? && d.tail == TailOf(d.j) && d.infos[d.cur.value].indices == []
    ensures CopyOld(g, d).Ok?
    ensures var d' := CopyOld(g, d).value;
            && Open(g, d'.(ready := true)) && Contents(g, d') == Contents(g, d) && Unchanged(d, d')
            && Core(g, d') && Evacuated(d') && OnlyMoved(d, d')
  {
    CopyOldEvacuates(g, d);
    var d' := CopyOld(g, d).value;
    assert Core(g, d'.(ready := true));
  }

  lemma {:induction false} SelectNewKeeps(g: Geometry, d: Dev)
    requires Open(g, d) && d.ready
    ensures Answered(SelectNew(g, d))
    ensures var r := SelectNew(g, d);
            r.Ok? ==>
              && Open(g, r.value) && r.value.ready && !Full(g, r.value)
              && Contents(g, r.value) == Contents(g, d) && Unchanged(d, r.value) && r.value.spoiled == d.spoiled
              && r.value.j.seqno > d.j.seqno
    decreases |d.tape|
  {
    SwitchKeeps(g, d);
    var r := Switch(g, d);
    if r.Ok? {
      hide Core, Contents;
      EvacuateOpens(g, r.value);
      var d2 := CopyOld(g, r.value).value;
      assert d2 == d2.(ready := true);
      if Full(g, d2) {
        SelectNewKeeps(g, d2);
      }
    }
  }

  lemma InitOutputKeeps(g: Geometry, d: Dev)
    requires Open(g, d)
    ensures InitOutput(g, d).Ok?
    ensures var r := InitOutput(g, d).value;
            && Open(g, r) && r.ready && Contents(g, r) == Contents(g, d) && Unchanged(d, r) && r.spoiled == d.spoiled
            && (d.ready ==> r == d) && r.cur == d.cur
  {
    if !d.ready {
      EvacuateOpens(g, d);
    }
  }

  lemma NothingInRam(g: Geometry, d: Dev, x: nat)
    requires Open(g, d) && !d.ready && x < |d.loc|
    ensures !InRam(d, d.loc[x])
  {
  }

  /** Mesoblock x is in RAM or there is a free slot for it. */
  ghost predicate Roomy(g: Geometry, d: Dev, x: nat) {
    d.cur.Some? && d.cur.value < |d.infos| && x < |d.loc| && (InRam(d, d.loc[x]) || !Full(g, d))
  }

  lemma MakeRoomKeeps(g: Geometry, d: Dev, x: nat)
    requires Open(g, d) && x < |d.loc|
    ensures Answered(MakeRoom(g, d, x))
    ensures var r := MakeRoom(g, d, x);
            r.Ok? ==>
              && Open(g, r.value) && r.value.ready && Roomy(g, r.value, x)
              && Contents(g, r.value) == Contents(g, d) && Unchanged(d, r.value) && r.value.spoiled == d.spoiled
  {
    hide MapOk, ListsOk, CountsOk, CurOk, DiskOk, LastWriter, JugglerOk, SealedOk, Inverts, KeepsLength, Live,
         SelectNew, CopyOld;
    var d0 := d.(updated := true);
    assert Open(g, d0) && Contents(g, d0) == Contents(g, d);
    if !d.ready {
      NothingInRam(g, d, x);
    }
    InitOutputKeeps(g, d0);
    var d1 := InitOutput(g, d0).value;
    if !InRam(d1, d.loc[x]) && Full(g, d1) {
      SelectNewKeeps(g, d1);
    }
  }

  // ----- do_write -----

  lemma UpdateKeeps(g: Geometry, d: Dev, x: nat, off: nat, data: seq<Byte>)
    requires Open(g, d) && x < |d.loc| && InRam(d, d.loc[x]) && off + |data| <= g.size
    ensures Update(g, d, d.loc[x].slot, off, data).Ok?
    ensures var r := Update(g, d, d.loc[x].slot, off, data).value;
            && Open(g, r) && Unchanged(d, r) && r.spoiled == d.spoiled
            && Contents(g, r) == Contents(g, d)[x := Splice(Content(g, d, x), off, data)]
  {
    var k := d.loc[x].slot;
    OpenedBy(g, d);
    var r := Update(g, d, k, off, data).value;
    forall y | 0 <= y < |d.loc| && y != x
      ensures Content(g, r, y) == Content(g, d, y)
    {
      if InRam(d, d.loc[y]) {
        assert d.infos[d.cur.value].indices[d.loc[y].slot] == y;
        assert d.infos[d.cur.value].indices[k] == x;
      }
    }
  }

  /** Mesoblock x is not in RAM: its old version is read, obsoleted and replaced. */
  lemma AppendMoves(g: Geometry, d: Dev, x: nat, off: nat, data: seq<Byte>)
    requires Open(g, d) && x < |d.loc| && !InRam(d, d.loc[x]) && off + |data| <= g.size && !Full(g, d)
    ensures var c := d.cur.value;
            var v := Splice(Content(g, d, x), off, data);
            && |Content(g, d, x)| == g.size
            && CanMove(g, d, c, x, v)
            && Append(g, d, x, off, data) == Ok(Moved(d, c, x, v).(spoiled := d.spoiled || d.tail == d.cur))
  {
    hide LastWriter, DiskOk, SealedOk, JugglerOk, ListsOk, HistoryOk, CurOk, Inverts, NoDup;
    OpenedBy(g, d);
    ContentLength(g, d, x);
    var c := d.cur.value;
    var v := Splice(Content(g, d, x), off, data);
    if d.loc[x].At? {
      MovedInfo(g, d, c, x, v, d.loc[x].id);
      var o := d.loc[x].id;
      assert Obsolete(d, o).value.infos == WithoutOld(d.infos, d.loc[x]);
    }
  }

  lemma AppendKeeps(g: Geometry, d: Dev, x: nat, off: nat, data: seq<Byte>)
    requires Open(g, d) && d.ready && x < |d.loc| && !InRam(d, d.loc[x]) && off + |data| <= g.size && !Full(g, d)
    ensures Append(g, d, x, off, data).Ok? && |Content(g, d, x)| == g.size
    ensures var r := Append(g, d, x, off, data).value;
            && Core(g, r) && Unchanged(d, r) && (!r.spoiled ==> Open(g, r))
            && r.spoiled == (d.spoiled || TailOf(d.j) == d.cur)
            && Contents(g, r) == Contents(g, d)[x := Splice(Content(g, d, x), off, data)]
  {
    hide MapOk, ListsOk, CountsOk, CurOk, DiskOk, LastWriter, JugglerOk, SealedOk, Inverts, KeepsLength, Append;
    AppendMoves(g, d, x, off, data);
    var c := d.cur.value;
    var v := Splice(Content(g, d, x), off, data);
    MoveKeepsCore(g, d, c, x, v);
    MoveContents(g, d, c, x, v);
    var m := Moved(d, c, x, v);
    var r := m.(spoiled := d.spoiled || d.tail == d.cur);
    assert Core(g, r);
    assert Contents(g, r) == Contents(g, m);
    if d.tail.Some? {
      LiveAfterMove(d.loc, x, c, |d.infos[c].indices|, d.tail.value);
    }
  }

  /** do_write replaces the bytes it is given and nothing else, through any number of switches and evacuations. */
  lemma WriteRefines(g: Geometry, d: Dev, x: nat, off: nat, data: seq<Byte>)
    requires Open(g, d) && x < |d.loc| && off + |data| <= g.size
    ensures |Content(g, d, x)| == g.size && Answered(DoWrite(g, d, x, off, data))
    ensures var r := DoWrite(g, d, x, off, data);
            r.Ok? ==>
              && Core(g, r.value) && Unchanged(d, r.value) && (!r.value.spoiled ==> Open(g, r.value) && !d.spoiled)
              && Contents(g, r.value) == Contents(g, d)[x := Splice(Content(g, d, x), off, data)]
  {
    hide Core, Content, Fits, MakeRoom, Update, Append;
    ContentLength(g, d, x);
    OpenedBy(g, d);
    MakeRoomKeeps(g, d, x);
    var r := MakeRoom(g, d, x);
    if r.Ok? {
      assert Contents(g, r.value)[x] == Content(g, r.value, x);
      assert Contents(g, d)[x] == Content(g, d, x);
      if InRam(r.value, r.value.loc[x]) {
        UpdateKeeps(g, r.value, x, off, data);
      } else {
        AppendKeeps(g, r.value, x, off, data);
      }
    }
  }

  /** do_write sets the update flag, and a switch clears it again: afterwards it is set exactly if no block was
      switched. */
  lemma WriteSetsFlag(g: Geometry, d: Dev, x: nat, off: nat, data: seq<Byte>)
    requires Open(g, d) && x < |d.loc| && off + |data| <= g.size && DoWrite(g, d, x, off, data).Ok?
    ensures var r := DoWrite(g, d, x, off, data).value;
      r.ready && d.j.seqno <= r.j.seqno && (r.updated <==> r.j.seqno == d.j.seqno)
  {
    hide Core, Contents, MakeRoom, Open;
    MakeRoomFlag(g, d, x);
  }

  lemma MakeRoomFlag(g: Geometry, d: Dev, x: nat)
    requires Open(g, d) && x < |d.loc| && MakeRoom(g, d, x).Ok?
    ensures var r := MakeRoom(g, d, x).value;
      r.ready && d.j.seqno <= r.j.seqno && (r.updated <==> r.j.seqno == d.j.seqno)
  {
    hide MapOk, ListsOk, CountsOk, CurOk, DiskOk, LastWriter, JugglerOk, SealedOk, HistoryOk, Inverts, KeepsLength,
         Live, SelectNew, CopyOld, Contents;
    var d0 := d.(updated := true);
    if !d.ready {
      EvacuateOpens(g, d0);
    }
    InitOutputKeeps(g, d0);
    var d1 := InitOutput(g, d0).value;
    if !InRam(d1, d.loc[x]) && Full(g, d1) {
      SelectNewKeeps(g, d1);
    }
  }

  /** do_write switches exactly if the mesoblock was not in memory when it was called and the current block is full, or
      will be once the next block is evacuated into it. */
  lemma SwitchIsExact(g: Geometry, d: Dev, x: nat)
    requires Open(g, d) && x < |d.loc| && MakeRoom(g, d, x).Ok?
    ensures MakeRoom(g, d, x).value.j.seqno > d.j.seqno <==>
              && (d.loc[x].At? ==> Some(d.loc[x].id) != d.cur)
              && |d.infos[d.cur.value].indices| + (if d.ready then 0 else |VictimLive(d)|) == g.mmpm
  {
    hide MapOk, ListsOk, CountsOk, CurOk, DiskOk, LastWriter, JugglerOk, SealedOk, HistoryOk, Inverts, KeepsLength,
         Live, SelectNew, CopyOld, Contents, VictimLive;
    var d0 := d.(updated := true);
    SameVictim(d, d0);
    if !d.ready {
      EvacuateOpens(g, d0);
      CopyOldEvacuates(g, d0);
    }
    InitOutputKeeps(g, d0);
    var d1 := InitOutput(g, d0).value;
    if !InRam(d1, d.loc[x]) && Full(g, d1) {
      SelectNewKeeps(g, d1);
    }
  }

  lemma SameVictim(d: Dev, d': Dev)
    requires d' == d.(updated := d'.updated)
    ensures VictimLive(d') == VictimLive(d)
  {
  }

  // ----- do_read and scubed3_cycle -----

  /** do_read returns what the array of mesoblocks holds. */
  lemma ReadRefines(g: Geometry, d: Dev, x: nat, off: nat, len: nat)
    requires Open(g, d) && x < |d.loc| && off + len <= g.size
    ensures |Content(g, d, x)| == g.size
    ensures DoRead(g, d, x, off, len) == Ok(Content(g, d, x)[off..off + len])
  {
    ContentLength(g, d, x);
    OpenedBy(g, d);
  }

  /** scubed3_cycle changes no contents, and writes one macroblock, under the seqno of the current one. */
  lemma CycleRefines(g: Geometry, d: Dev)
    requires Open(g, d)
    ensures Answered(Cycle(g, d))
    ensures var r := Cycle(g, d);
            r.Ok? ==>
              && Open(g, r.value) && Contents(g, r.value) == Contents(g, d) && Unchanged(d, r.value)
              && r.value.spoiled == d.spoiled && !r.value.ready && !r.value.updated
              && r.value.writes == d.writes + 1 && r.value.sealed == d.sealed + [d.j.seqno]
              && r.value.j.seqno == d.j.seqno + 1
  {
    hide Contents, Switch, CopyOld, MapOk, ListsOk, CountsOk, CurOk, DiskOk, LastWriter, JugglerOk, SealedOk, Sized,
         GoodGeometry;
    OpenedBy(g, d);
    var e := d;
    if !d.ready {
      EvacuateOpens(g, d);
      e := CopyOld(g, d).value;
    }
    SwitchKeeps(g, e);
    var r := Switch(g, e);
    if r.Ok? {
      UnreadyKeeps(g, r.value);
    }
  }

  lemma UnreadyKeeps(g: Geometry, s: Dev)
    requires Core(g, s) && s.cur.Some? && s.tail == TailOf(s.j) && s.infos[s.cur.value].indices == []
    ensures Fits(g, s) && Open(g, s.(ready := false)) && Contents(g, s.(ready := false)) == Contents(g, s)
  {
  }
}
