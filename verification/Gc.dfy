/** select_new_macroblock ends: with enough reserved blocks there is always a block with room, and the loop cannot
    pass the seqno at which that block comes up. */
module Gc {
  import opened Prelude
  import opened Random
  import opened Juggler
  import opened Draws
  import opened Device
  import opened Bookkeeping
  import opened Steps
  import opened Requests
  import opened Recovery

  /** A block promised for later than the next seqno that is not full of live mesoblocks. */
  ghost predicate HasRoom(g: Geometry, d: Dev, t: Ticket) {
    && t in d.j.scheduled
    && Some(t.id) != d.cur && Some(t.id) != TailOf(d.j)
    && |Live(d.loc, t.id)| < g.mmpm
  }

  // ----- the loop ends when that block comes up -----

  lemma LaterTicket(j: Schedule, t: Ticket)
    requires Valid(j) && t in j.scheduled && TailOf(j) != Some(t.id)
    ensures t.next > j.seqno + 1
  {
    var i :| 0 <= i < |j.scheduled| && j.scheduled[i] == t;
    if i > 0 {
      assert j.scheduled[0].next < j.scheduled[i].next;
    }
  }

  lemma TailTicket(j: Schedule, t: Ticket)
    requires Valid(j) && t in j.scheduled && TailOf(j) == Some(t.id)
    ensures t.next == j.seqno + 1
  {
    var i :| 0 <= i < |j.scheduled| && j.scheduled[i] == t;
    if i > 0 {
      assert j.scheduled[0].id != j.scheduled[i].id;
    }
  }

  /** A switch leaves the block where it is, and does not select it. */
  lemma SwitchSkips(g: Geometry, d: Dev, t: Ticket)
    requires Core(g, d) && d.cur.Some? && Evacuated(d) && HasRoom(g, d, t) && Switch(g, d).Ok?
    ensures var s := Switch(g, d).value; t in s.j.scheduled && s.cur != Some(t.id)
  {
    WriteParks(g, d);
    var w := WriteCurrent(g, d).value;
    hide Core, Parked, WriteCurrent;
    assert Core(g, w) && w.cur == None by {
      ParkedIsCore(g, w);
    }
    SelectAnswers(g, w);
    var b := GetDevblock(w.j, false, w.tape).block;
    assert b.id != t.id by {
      ScheduledNotUnscheduled(g, d, t);
    }
  }

  lemma ParkedIsCore(g: Geometry, w: Dev)
    requires Parked(g, w)
    ensures Core(g, w) && w.cur == None
  {
  }

  lemma ScheduledNotUnscheduled(g: Geometry, d: Dev, t: Ticket)
    requires Core(g, d) && t in d.j.scheduled
    ensures t.id !in d.j.unscheduled && t.id in d.used
  {
    var i :| 0 <= i < |d.j.scheduled| && d.j.scheduled[i] == t;
    assert Has(d.j, t.id);
  }

  /** Evacuating block t fills the current block only as far as t was live. */
  lemma EvacuationCounts(g: Geometry, d: Dev, t: Ticket)
    requires Core(g, d) && d.cur.Some? && d.tail == TailOf(d.j) && d.infos[d.cur.value].indices == []
    requires t in d.j.scheduled && d.cur != Some(t.id) && |Live(d.loc, t.id)| < g.mmpm
    ensures CopyOld(g, d).Ok?
    ensures var e := CopyOld(g, d).value;
            && e.j == d.j && e.cur == d.cur
            && (if TailOf(d.j) == Some(t.id) then !Full(g, e) else HasRoom(g, e, t))
  {
    CopyOldEvacuates(g, d);
  }

  /** The turns that the loop of select_new_macroblock makes: the switches completed, whether or not the random words
      last until it is done. */
  function Turns(g: Geometry, d: Dev): nat
    requires Fits(g, d)
    decreases |d.tape|
  {
    if !d.ready then 0
    else match Switch(g, d)
      case Fail(_) => 0
      case Ok(d1) =>
        match CopyOld(g, d1)
        case Fail(_) => 1
        case Ok(d2) => if Full(g, d2) then 1 + Turns(g, d2) else 1
  }

  /** The turns are those of the loop: every one raises the seqno. */
  lemma {:induction false} TurnsRaiseSeqno(g: Geometry, d: Dev)
    requires Open(g, d) && d.ready && SelectNew(g, d).Ok?
    ensures Fits(g, d) && SelectNew(g, d).value.j.seqno == d.j.seqno + Turns(g, d)
    decreases |d.tape|
  {
    SwitchKeeps(g, d);
    var d1 := Switch(g, d).value;
    EvacuateOpens(g, d1);
    hide Core, Contents, Switch, CopyOld;
    var d2 := CopyOld(g, d1).value;
    assert d2 == d2.(ready := true);
    if Full(g, d2) {
      TurnsRaiseSeqno(g, d2);
    }
  }

  /** Whatever is drawn, and however many words there are, the loop makes no more turns than there are seqnos before
      the one promised to a block with room. */
  lemma {:induction false} GcEnds(g: Geometry, d: Dev, t: Ticket)
    requires Open(g, d) && d.ready && HasRoom(g, d, t)
    ensures Answered(SelectNew(g, d))
    ensures Fits(g, d) && d.j.seqno + Turns(g, d) < t.next
    decreases |d.tape|
  {
    SwitchKeeps(g, d);
    LaterThanNow(d.j, t);
    var r := Switch(g, d);
    if r.Ok? {
      SwitchSkips(g, d, t);
      EvacuateOpens(g, r.value);
      EvacuationCounts(g, r.value, t);
      OpenJuggler(g, r.value);
      hide Core, Contents, Switch, CopyOld;
      var e := CopyOld(g, r.value).value;
      assert e == e.(ready := true);
      if TailOf(r.value.j) == Some(t.id) {
        TailTicket(r.value.j, t);
      } else {
        LaterTicket(r.value.j, t);
        if Full(g, e) {
          GcEnds(g, e, t);
        }
      }
    }
  }

  lemma LaterThanNow(j: Schedule, t: Ticket)
    requires Valid(j) && t in j.scheduled
    ensures t.next > j.seqno
  {
  }

  lemma OpenJuggler(g: Geometry, d: Dev)
    requires Core(g, d)
    ensures Valid(d.j) && NotStuck(d.j)
  {
  }

  // ----- such a block exists -----

  ghost function LiveIn(loc: seq<Loc>, ids: set<nat>): set<nat> {
    set x: nat | x < |loc| && loc[x].At? && loc[x].id in ids
  }

  lemma LiveInSplit(loc: seq<Loc>, ids: set<nat>, id: nat)
    requires id in ids
    ensures |LiveIn(loc, ids)| == |LiveIn(loc, ids - {id})| + |Live(loc, id)|
  {
    assert LiveIn(loc, ids) == LiveIn(loc, ids - {id}) + Live(loc, id);
    assert LiveIn(loc, ids - {id}) !! Live(loc, id);
  }

  lemma {:induction false} FullBlocks(loc: seq<Loc>, ids: set<nat>, m: nat)
    requires forall id :: id in ids ==> |Live(loc, id)| >= m
    ensures |LiveIn(loc, ids)| >= |ids| * m
    decreases |ids|
  {
    hide LiveIn, Live;
    if ids != {} {
      var id :| id in ids;
      FullBlocks(loc, ids - {id}, m);
      LiveInSplit(loc, ids, id);
      assert |ids| * m == (|ids| - 1) * m + m;
    }
  }

  lemma {:induction false} LiveInSize(loc: seq<Loc>, ids: set<nat>)
    ensures |LiveIn(loc, ids)| <= |loc|
  {
    if loc != [] {
      var last := |loc| - 1;
      LiveInSize(loc[..last], ids);
      SubsetSize(LiveIn(loc, ids), LiveIn(loc[..last], ids) + {last});
    }
  }

  ghost function ScheduledIds(j: Schedule): set<nat> {
    set i | 0 <= i < |j.scheduled| :: j.scheduled[i].id
  }

  /** Every block of the device is scheduled or unscheduled. */
  lemma BlockCount(g: Geometry, d: Dev)
    requires Core(g, d)
    ensures |d.used| == |ScheduledIds(d.j)| + |d.j.unscheduled|
  {
    MemberCount(d.j.unscheduled);
    forall id
      ensures id in d.used <==> id in ScheduledIds(d.j) + Members(d.j.unscheduled)
    {
      assert id in d.used <==> Has(d.j, id);
    }
    assert d.used == ScheduledIds(d.j) + Members(d.j.unscheduled);
    assert ScheduledIds(d.j) !! Members(d.j.unscheduled);
  }

  lemma ProductOrder(a: nat, b: nat, m: nat)
    requires m > 0 && a * m <= b * m
    ensures a <= b
  {
    AtLeastFactor(m, a - b);
    assert m * (a - b) == a * m - b * m;
  }

  /** With two more reserved blocks than unscheduled ones, a full current block implies a block with room: otherwise
      every scheduled block but the evacuated one would be full, and there are not that many mesoblocks. */
  lemma RoomExists(g: Geometry, d: Dev)
    requires Open(g, d) && d.ready && Full(g, d)
    requires d.reserved >= |d.j.unscheduled| + 2
    ensures exists t :: HasRoom(g, d, t)
  {
    if forall t :: !HasRoom(g, d, t) {
      var c := d.cur.value;
      CurLive(d.loc, d.infos, d.used, c);
      assert Has(d.j, c);
      var tails := if TailOf(d.j).Some? then {TailOf(d.j).value} else {};
      var ids := ScheduledIds(d.j) - tails;
      forall id | id in ids
        ensures |Live(d.loc, id)| >= g.mmpm
      {
        var i :| 0 <= i < |d.j.scheduled| && d.j.scheduled[i].id == id;
        assert id == c || !HasRoom(g, d, d.j.scheduled[i]);
      }
      BlockCount(g, d);
      hide Core, Open;
      FullBlocks(d.loc, ids, g.mmpm);
      LiveInSize(d.loc, ids);
      assert |ids| >= |ScheduledIds(d.j)| - 1 by {
        SubsetSize(ScheduledIds(d.j), ids + tails);
      }
      Crowded(g, |ids|, |d.used|, d.reserved, |d.j.unscheduled|, |d.loc|);
    }
  }

  lemma Crowded(g: Geometry, full: nat, used: nat, reserved: nat, unscheduled: nat, n: nat)
    requires g.mmpm > 0 && full * g.mmpm <= n == Capacity(g, used, reserved)
    requires full >= used - unscheduled - 1 && full > 0
    ensures reserved <= unscheduled + 1
  {
    if used <= reserved {
      ProductOrder(full, 0, g.mmpm);
    } else {
      ProductOrder(full, used - reserved, g.mmpm);
    }
  }

  /** Garbage collection ends: called with a full block, select_new_macroblock makes fewer turns than a bound that was
      fixed before the first draw, and it fails only for want of random words. */
  lemma GcTerminates(g: Geometry, d: Dev)
    requires Open(g, d) && d.ready && Full(g, d)
    requires d.reserved >= |d.j.unscheduled| + 2
    ensures Answered(SelectNew(g, d)) && Fits(g, d)
    ensures exists t :: t in d.j.scheduled && HasRoom(g, d, t) && d.j.seqno + Turns(g, d) < t.next
  {
    RoomExists(g, d);
    var t :| HasRoom(g, d, t);
    GcEnds(g, d, t);
  }

  // ----- and with enough words it succeeds -----

  lemma SwitchesAtOnce(g: Geometry, d: Dev)
    requires Core(g, d) && d.cur.Some? && Evacuated(d) && AllZero(d.tape) && |d.tape| >= 2
    ensures Switch(g, d).Ok? && Drew(d.tape, Switch(g, d).value.tape, 2)
  {
    hide MapOk, ListsOk, CountsOk, CurOk, DiskOk, LastWriter, SealedOk, Inverts, KeepsLength, Contents, GetDevblock,
      Valid, NotStuck, NewestHeader, Live;
    WriteParks(g, d);
    var w := WriteCurrent(g, d).value;
    OpenJuggler(g, w);
    SelectsAtOnce(w.j, w.tape);
    SelectAnswers(g, w);
  }

  /** With two zero words for every seqno before the promised one, the loop comes to its end. */
  lemma {:induction false} GcSucceeds(g: Geometry, d: Dev, t: Ticket)
    requires Open(g, d) && d.ready && HasRoom(g, d, t)
    requires AllZero(d.tape) && |d.tape| >= 2 * (t.next - d.j.seqno)
    ensures SelectNew(g, d).Ok?
    decreases t.next - d.j.seqno
  {
    OpenJuggler(g, d);
    LaterThanNow(d.j, t);
    SwitchesAtOnce(g, d);
    SwitchKeeps(g, d);
    var d1 := Switch(g, d).value;
    SwitchSkips(g, d, t);
    EvacuateOpens(g, d1);
    EvacuationCounts(g, d1, t);
    OpenJuggler(g, d1);
    hide Core, Contents, Switch, CopyOld;
    var e := CopyOld(g, d1).value;
    assert e == e.(ready := true) && e.tape == d1.tape;
    if TailOf(d1.j) != Some(t.id) {
      LaterTicket(d1.j, t);
      if Full(g, e) {
        GcSucceeds(g, e, t);
      }
    }
  }

  lemma OtherTape(g: Geometry, d: Dev, tape: seq<Word>)
    requires Open(g, d)
    ensures Open(g, d.(tape := tape))
  {
  }

  /** So there are words with which garbage collection succeeds. */
  lemma GcCanSucceed(g: Geometry, d: Dev)
    requires Open(g, d) && d.ready && Full(g, d)
    requires d.reserved >= |d.j.unscheduled| + 2
    ensures exists tape :: Fits(g, d.(tape := tape)) && SelectNew(g, d.(tape := tape)).Ok?
  {
    RoomExists(g, d);
    var t :| HasRoom(g, d, t);
    OpenJuggler(g, d);
    LaterThanNow(d.j, t);
    var tape: seq<Word> := seq(2 * (t.next - d.j.seqno), _ => 0);
    OtherTape(g, d, tape);
    assert HasRoom(g, d.(tape := tape), t);
    GcSucceeds(g, d.(tape := tape), t);
  }

  // ----- with less reserve it need not end -----

  /** Two blocks take turns, and there is no room in either: the current one is full, and must be copied next. */
  ghost predicate Alternating(g: Geometry, d: Dev, o: nat, c: nat) {
    && Open(g, d) && d.ready && d.cur == Some(c) && Full(g, d)
    && d.j.unscheduled == [] && |d.j.scheduled| == 2
    && d.j.scheduled[0].id == o && d.j.scheduled[0].next == d.j.seqno + 1
    && d.j.scheduled[1].id == c && d.j.scheduled[1].next == d.j.seqno + 2
  }

  lemma TakesTurns(j: Schedule, tape: seq<Word>, o: nat, c: nat)
    requires j.unscheduled == [] && |j.scheduled| == 2 && AllZero(tape) && tape != []
    requires j.scheduled[0].id == o && j.scheduled[0].next == j.seqno + 1
    requires j.scheduled[1].id == c && j.scheduled[1].next == j.seqno + 2
    ensures GetDevblock(j, false, tape) ==
      Handed(Ticket(o, j.seqno + 1, j.seqno + 3),
             Schedule([j.scheduled[1], Ticket(o, j.seqno + 1, j.seqno + 3)], [], j.seqno + 1), tape[1..])
  {
    hide AllZero;
    ZeroDraws(tape, 2);
    var s := j.scheduled[1..];
    var n := j.seqno + 1;
    assert Place(s, 1, n + 2, 2, tape) == Slot(1, n + 2, tape[1..]);
    assert Place(s, 0, n + 1, 1, tape) == Slot(1, n + 2, tape[1..]);
    assert Insert(s, 1, Ticket(o, n, n + 2)) == [j.scheduled[1], Ticket(o, n, n + 2)];
  }

  /** A turn of the loop leaves it as it was, with the roles exchanged. */
  lemma CrowdedTurn(g: Geometry, d: Dev, o: nat, c: nat)
    requires Alternating(g, d, o, c) && AllZero(d.tape) && d.tape != [] && o != c
    ensures Fits(g, d) && Switch(g, d).Ok? && CopyOld(g, Switch(g, d).value).Ok?
    ensures var e := CopyOld(g, Switch(g, d).value).value;
      Alternating(g, e, c, o) && e.tape == d.tape[1..] && AllZero(e.tape)
  {
    hide MapOk, ListsOk, CountsOk, DiskOk, LastWriter, SealedOk, HistoryOk, Inverts, KeepsLength, Contents, GetDevblock,
         NewestHeader, Live, Switch, CopyOld, JugglerOk, AllZero;
    ZeroDraws(d.tape, 2);
    CurrentIsLive(g, d, c);
    WriteParks(g, d);
    var w := WriteCurrent(g, d).value;
    TakesTurns(w.j, d.tape, o, c);
    SelectAnswers(g, w);
    SwitchIs(g, d);
    SwitchKeeps(g, d);
    var s := Switch(g, d).value;
    EvacuateOpens(g, s);
    CopyOldEvacuates(g, s);
    var e := CopyOld(g, s).value;
    assert e == e.(ready := true);
    assert VictimLive(s) == Live(d.loc, c);
  }

  lemma CurrentIsLive(g: Geometry, d: Dev, c: nat)
    requires Core(g, d) && d.cur == Some(c) && Full(g, d)
    ensures |Live(d.loc, c)| == g.mmpm
  {
    hide CountsOk, DiskOk, LastWriter, JugglerOk, SealedOk, HistoryOk;
    CurLive(d.loc, d.infos, d.used, c);
  }

  lemma SwitchIs(g: Geometry, d: Dev)
    requires Fits(g, d) && WriteCurrent(g, d).Ok?
    ensures Switch(g, d) == SelectNext(g, WriteCurrent(g, d).value) && WriteCurrent(g, d).value.tape == d.tape
    ensures var r := Switch(g, d); r.Ok? ==>
      && GetDevblock(WriteCurrent(g, d).value.j, false, d.tape).Handed?
      && r.value.tape == GetDevblock(WriteCurrent(g, d).value.j, false, d.tape).tape
    ensures GetDevblock(WriteCurrent(g, d).value.j, false, d.tape).Handed? ==> Switch(g, d) != Fail(NoEntropy)
  {
    hide WriteCurrent, GetDevblock;
  }

  /** So the loop goes on as long as there are words. */
  lemma {:induction false} CrowdedForever(g: Geometry, d: Dev, o: nat, c: nat)
    requires Alternating(g, d, o, c) && AllZero(d.tape) && o != c
    ensures Fits(g, d) && Turns(g, d) >= |d.tape|
    decreases |d.tape|
  {
    hide Switch, CopyOld, Alternating, AllZero, Fits;
    CrowdedFull(g, d, o, c);
    if d.tape != [] {
      CrowdedTurn(g, d, o, c);
      var e := CopyOld(g, Switch(g, d).value).value;
      CrowdedFull(g, e, c, o);
      CrowdedForever(g, e, c, o);
    }
  }

  lemma CrowdedFull(g: Geometry, d: Dev, o: nat, c: nat)
    requires Alternating(g, d, o, c)
    ensures Fits(g, d) && d.ready && d.cur.Some? && d.cur.value < |d.infos| && Full(g, d)
  {
  }
}
