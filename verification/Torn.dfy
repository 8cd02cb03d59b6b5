/** Writes that were interrupted: what is recovered when the macroblock that was being overwritten is left with an
    unreadable header, with its old one, or with the new one and other data. */
module Torn {
  import opened Prelude
  import opened Random
  import opened Juggler
  import opened Device
  import opened Bookkeeping
  import opened Steps
  import opened Recovery

  ghost predicate DataSized(g: Geometry, data: seq<seq<Byte>>) {
    |data| == g.mmpm && forall k :: 0 <= k < g.mmpm ==> |data[k]| == g.size
  }

  /** Block b carries the newest header beside that of block t. */
  ghost predicate NewestBeside(disk: seq<Sector>, t: nat, b: nat) {
    && b != t && Headed(disk, b)
    && forall id: nat :: Headed(disk, id) && id != t ==> Seqno(disk, id) <= Seqno(disk, b)
  }

  function Unheaded(disk: seq<Sector>, t: nat, data: seq<seq<Byte>>): seq<Sector>
    requires t < |disk|
  {
    disk[t := Sector(None, data)]
  }

  /** The mesoblocks of the device as the header of block b describes it. */
  function Left(g: Geometry, disk: seq<Sector>, b: nat): nat
    requires Headed(disk, b)
  {
    Capacity(g, |disk[b].header.value.used|, disk[b].header.value.reserved)
  }

  ghost predicate Shaped(g: Geometry, p: Dev, t: nat, b: nat) {
    && t < |p.disk| == |p.infos| && p.j.scheduled != []
    && Headed(p.disk, b) && Left(g, p.disk, b) <= |p.loc|
  }

  /** The state that p becomes when the header of block t, which was promised next, is lost: the block is unscheduled,
      and the device has the blocks, the size and the seqno that the newest header left tells of. */
  function Lost(g: Geometry, p: Dev, t: nat, data: seq<seq<Byte>>, b: nat): Dev
    requires Shaped(g, p, t, b)
  {
    var h := p.disk[b].header.value;
    var torn := Unheaded(p.disk, t, data);
    p.(loc := p.loc[..Left(g, p.disk, b)], disk := torn, infos := p.infos[t := Info(0, 0, [], 0)],
       j := Schedule(p.j.scheduled[1..], Claimed(torn, h.used, |torn|), h.seqno),
       used := h.used, reserved := h.reserved, sealed := if h.seqno == p.j.seqno then p.sealed else [])
  }

  /** Block t, with nothing live in it, is promised next, and its header is lost. */
  ghost predicate Losing(g: Geometry, p: Dev, t: nat, data: seq<seq<Byte>>, b: nat) {
    && Recoverable(g, p) && Evacuated(p) && TailOf(p.j) == Some(t) && DataSized(g, data) && NewestBeside(p.disk, t, b)
  }

  lemma LosingShape(g: Geometry, p: Dev, t: nat, data: seq<seq<Byte>>, b: nat)
    requires Losing(g, p, t, data, b)
    ensures Shaped(g, p, t, b) && t in p.used && Live(p.loc, t) == {} && b in p.used && b !in p.j.unscheduled
    ensures p.j.scheduled[0].id == t && t !in p.j.unscheduled
    ensures p.disk[b].header.value.used <= p.used && forall id :: id in p.used ==> id < |p.disk|
  {
    hide MapOk, ListsOk, CountsOk, LastWriter, SealedOk, Capacity;
    ParkedHeaders(g, p);
    TailIsUsed(g, p);
    HeaderTells(g, p, b);
  }

  lemma HeaderTells(g: Geometry, p: Dev, id: nat)
    requires Parked(g, p) && Headed(p.disk, id)
    ensures var h := p.disk[id].header.value;
      Tells(g, id, h) && Grown(g, h, p.used, |p.loc|) && (Followed(p.disk, id) || h.used == p.used)
  {
    hide MapOk, ListsOk, CountsOk, DiskOk, LastWriter, SealedOk, JugglerOk, Capacity, Tells, Grown, Followed;
    assert Followed(p.disk, id) || !Followed(p.disk, id);
  }

  /** The newest header left knows of a block that has none. */
  lemma SomeClaimed(g: Geometry, p: Dev, t: nat, data: seq<seq<Byte>>, b: nat)
    requires Losing(g, p, t, data, b) && Shaped(g, p, t, b)
    ensures Lost(g, p, t, data, b).j.unscheduled != []
  {
    hide Parked, Evacuated, Left, Claimed, Tells, Grown, Capacity;
    LosingShape(g, p, t, data, b);
    HeaderTells(g, p, b);
    LosingFits(g, p, t, data, b);
    var h := p.disk[b].header.value;
    var c: nat := t;
    if Followed(p.disk, b) {
      c :| c in h.used && (Headed(p.disk, c) ==> Seqno(p.disk, b) < Seqno(p.disk, c));
    }
    assert c in Lost(g, p, t, data, b).j.unscheduled;
  }

  /** The header left knows of all that is left. */
  lemma LostKnows(g: Geometry, p: Dev, t: nat, data: seq<seq<Byte>>, b: nat, id: nat)
    requires Losing(g, p, t, data, b) && Shaped(g, p, t, b) && Headed(p.disk, id) && id != t
    ensures id in p.disk[b].header.value.used && id in p.used
    ensures forall x :: x in p.disk[id].header.value.indices ==> x < Left(g, p.disk, b)
  {
    hide Parked, Evacuated, Capacity, Followed;
    LosingParked(g, p, t, data, b);
    HeaderTells(g, p, id);
    HeadersGrow(g, p, id, b);
  }

  lemma HeadersGrow(g: Geometry, p: Dev, a: nat, b: nat)
    requires Parked(g, p) && NotAfter(p.disk, a, b)
    ensures Grown(g, p.disk[a].header.value, p.disk[b].header.value.used, Left(g, p.disk, b))
  {
    hide MapOk, ListsOk, CountsOk, DiskOk, LastWriter, SealedOk, JugglerOk, Capacity, Tells, Grown, Followed;
  }

  /** What is live is in other blocks, and was there when that header was written. */
  lemma LostLive(g: Geometry, p: Dev, t: nat, data: seq<seq<Byte>>, b: nat, x: nat)
    requires Losing(g, p, t, data, b) && Shaped(g, p, t, b) && x < |p.loc| && p.loc[x].At?
    ensures x < Left(g, p.disk, b) && p.loc[x].id != t && p.loc[x].id in p.disk[b].header.value.used
  {
    hide MapOk, ListsOk, CountsOk, LastWriter, SealedOk, JugglerOk, HistoryOk, Capacity, Left;
    LosingShape(g, p, t, data, b);
    var id := p.loc[x].id;
    assert x in Live(p.loc, id);
    HeadedIfLive(g, p, x);
    assert x == p.disk[id].header.value.indices[p.loc[x].slot] && x in p.disk[id].header.value.indices;
    LostKnows(g, p, t, data, b, id);
  }

  /** So every block keeps what is live in it. */
  lemma LostKeepsLive(g: Geometry, p: Dev, t: nat, data: seq<seq<Byte>>, b: nat)
    requires Losing(g, p, t, data, b) && Shaped(g, p, t, b)
    ensures forall id: nat :: Live(Lost(g, p, t, data, b).loc, id) == Live(p.loc, id)
  {
    hide Losing, Capacity, Left;
    forall x: nat | x < |p.loc| && p.loc[x].At?
      ensures x < Left(g, p.disk, b)
    {
      LostLive(g, p, t, data, b, x);
    }
  }

  lemma LostRecords(g: Geometry, p: Dev, t: nat, data: seq<seq<Byte>>, b: nat)
    requires Losing(g, p, t, data, b) && Shaped(g, p, t, b)
    ensures var q := Lost(g, p, t, data, b);
      && Sized(g, q) && MapOk(q.loc, q.infos, q.used) && ListsOk(g.mmpm, q.infos, q.used)
      && CountsOk(q.loc, q.infos, q.used, q.cur)
  {
    hide DiskOk, LastWriter, JugglerOk, SealedOk, HistoryOk, Live, Left, NewestBeside;
    LosingShape(g, p, t, data, b);
    LostKeepsLive(g, p, t, data, b);
    forall x: nat | x < |p.loc| && p.loc[x].At?
      ensures p.loc[x].id != t && p.loc[x].id in p.disk[b].header.value.used
    {
      LostLive(g, p, t, data, b, x);
    }
  }

  lemma LostOnDisk(g: Geometry, p: Dev, t: nat, data: seq<seq<Byte>>, b: nat)
    requires Losing(g, p, t, data, b) && Shaped(g, p, t, b)
    ensures var q := Lost(g, p, t, data, b);
      && DiskOk(g.mmpm, q.infos, q.disk, q.used, q.cur, q.j) && LastWriter(q.loc, q.infos, q.disk, q.used, q.cur)
  {
    hide MapOk, ListsOk, CountsOk, JugglerOk, SealedOk, HistoryOk, Left, NewestBeside;
    LosingShape(g, p, t, data, b);
    var q := Lost(g, p, t, data, b);
    forall id: nat | Headed(q.disk, id)
      ensures id in q.used
      ensures forall k :: 0 <= k < |q.disk[id].header.value.indices| ==>
        Superseded(q.loc, q.infos, q.cur, id, k, q.disk[id].header.value)
    {
      LostKnows(g, p, t, data, b, id);
      forall k | 0 <= k < |q.disk[id].header.value.indices|
        ensures Superseded(q.loc, q.infos, q.cur, id, k, q.disk[id].header.value)
      {
        var x := p.disk[id].header.value.indices[k];
        assert Superseded(p.loc, p.infos, p.cur, id, k, p.disk[id].header.value);
        LostLive(g, p, t, data, b, x);
      }
    }
  }

  /** Every header left still tells what it told, and is followed or knows of all blocks. */
  lemma LostTells(g: Geometry, p: Dev, t: nat, data: seq<seq<Byte>>, b: nat, id: nat)
    requires Losing(g, p, t, data, b) && Shaped(g, p, t, b) && Headed(p.disk, id) && id != t
    ensures var q := Lost(g, p, t, data, b);
      var h := p.disk[id].header.value;
      Tells(g, id, h) && Grown(g, h, q.used, |q.loc|) && (Followed(q.disk, id) || h.used == q.used)
  {
    hide Parked, Evacuated, Capacity, Left, Tells, Claimed;
    LosingParked(g, p, t, data, b);
    HeaderTells(g, p, id);
    HeaderTells(g, p, b);
    HeadersGrow(g, p, id, b);
    var q := Lost(g, p, t, data, b);
    var h := p.disk[id].header.value;
    if Followed(p.disk, id) {
      var c: nat :| c in h.used && (Headed(p.disk, c) ==> Seqno(p.disk, id) < Seqno(p.disk, c));
      assert Headed(q.disk, c) ==> Seqno(q.disk, id) < Seqno(q.disk, c);
    }
  }

  lemma LostHistory(g: Geometry, p: Dev, t: nat, data: seq<seq<Byte>>, b: nat)
    requires Losing(g, p, t, data, b) && Shaped(g, p, t, b)
    ensures var q := Lost(g, p, t, data, b); HistoryOk(g, |q.loc|, q.disk, q.used, q.reserved, q.cur)
  {
    hide Losing, Parked, Capacity, Tells, Grown, Followed, Claimed;
    LosingParked(g, p, t, data, b);
    LosingRecovers(g, p, t, data, b);
    RecoverableJuggler(g, p);
    var q := Lost(g, p, t, data, b);
    forall x: nat, y: nat | NotAfter(q.disk, x, y)
      ensures var h := q.disk[y].header.value;
        Grown(g, q.disk[x].header.value, h.used, Capacity(g, |h.used|, h.reserved))
    {
      assert NotAfter(p.disk, x, y);
      HeadersGrow(g, p, x, y);
    }
    forall id: nat | Headed(q.disk, id)
      ensures var h := q.disk[id].header.value;
        Tells(g, id, h) && Grown(g, h, q.used, |q.loc|) && (Followed(q.disk, id) || h.used == q.used)
    {
      LostTells(g, p, t, data, b, id);
    }
  }

  /** The seqnos left are at most the newest of them, which is not above the old one. */
  lemma LostSeqnos(g: Geometry, p: Dev, t: nat, data: seq<seq<Byte>>, b: nat, i: nat)
    requires Losing(g, p, t, data, b) && i + 1 < |p.j.scheduled|
    ensures 0 < p.j.scheduled[i + 1].seqno <= Seqno(p.disk, b) <= p.j.seqno < p.j.scheduled[i + 1].next
    ensures p.j.seqno + 1 < p.j.scheduled[i + 1].next
  {
    hide MapOk, ListsOk, CountsOk, DiskOk, LastWriter, SealedOk, HistoryOk;
    LosingShape(g, p, t, data, b);
    ScheduledIsHeaded(g, p, p.j.scheduled[i + 1]);
    TicketIsScheduled(g, p, b);
  }

  lemma LostPlan(g: Geometry, p: Dev, t: nat, data: seq<seq<Byte>>, b: nat)
    requires Losing(g, p, t, data, b) && Shaped(g, p, t, b)
    ensures var q := Lost(g, p, t, data, b); Valid(q.j) && NotStuck(q.j) && Obsoleted(q.j) == None && Evacuated(q)
  {
    hide MapOk, ListsOk, CountsOk, DiskOk, LastWriter, SealedOk, Recoverable, Left, Claimed, NewestBeside;
    var q := Lost(g, p, t, data, b);
    LosingShape(g, p, t, data, b);
    RecoverableJuggler(g, p);
    LostLists(g, p, t, data, b);
    forall i: nat | i < |q.j.scheduled|
      ensures q.j.scheduled[i] == p.j.scheduled[i + 1]
      ensures 0 < q.j.scheduled[i].seqno <= q.j.seqno < q.j.scheduled[i].next && q.j.scheduled[i].next > q.j.seqno + 1
    {
      LostSeqnos(g, p, t, data, b, i);
    }
    SomeClaimed(g, p, t, data, b);
  }

  lemma RecoverableJuggler(g: Geometry, p: Dev)
    requires Recoverable(g, p)
    ensures JugglerOk(p.infos, p.used, p.cur, p.j) && SealedOk(p.sealed, p.cur, p.j) && p.cur == None
  {
  }

  /** The blocks scheduled are those that have a header left. */
  lemma LostScheduled(g: Geometry, p: Dev, t: nat, data: seq<seq<Byte>>, b: nat)
    requires Losing(g, p, t, data, b) && Shaped(g, p, t, b)
    ensures var s, torn := p.j.scheduled[1..], Unheaded(p.disk, t, data);
      && (forall i :: 0 <= i < |s| ==> Headed(torn, s[i].id) && s[i] == TicketOf(torn, s[i].id))
      && (forall id: nat :: Headed(torn, id) ==> TicketOf(torn, id) in s)
  {
    hide Losing, Parked, Left, DistinctTickets;
    LosingShape(g, p, t, data, b);
    LosingParked(g, p, t, data, b);
    var s, torn := p.j.scheduled[1..], Unheaded(p.disk, t, data);
    forall i | 0 <= i < |s|
      ensures Headed(torn, s[i].id) && s[i] == TicketOf(torn, s[i].id)
    {
      assert p.j.scheduled[i + 1] in p.j.scheduled;
      ScheduledIsHeaded(g, p, p.j.scheduled[i + 1]);
      DistinctIds(p.j.scheduled, 0, i + 1);
    }
    forall id: nat | Headed(torn, id)
      ensures TicketOf(torn, id) in s
    {
      TicketIsScheduled(g, p, id);
      var i :| 0 <= i < |p.j.scheduled| && p.j.scheduled[i] == TicketOf(p.disk, id);
      assert s[i - 1] == p.j.scheduled[i];
    }
  }

  lemma LosingParked(g: Geometry, p: Dev, t: nat, data: seq<seq<Byte>>, b: nat)
    requires Losing(g, p, t, data, b)
    ensures Parked(g, p) && Valid(p.j)
  {
  }

  lemma DistinctIds(s: seq<Ticket>, i: nat, k: nat)
    requires DistinctTickets(s) && i < k < |s|
    ensures s[i].id != s[k].id
  {
  }

  /** The lists of the juggler without the first scheduled block. */
  lemma LostLists(g: Geometry, p: Dev, t: nat, data: seq<seq<Byte>>, b: nat)
    requires Losing(g, p, t, data, b) && Shaped(g, p, t, b)
    ensures var j := Lost(g, p, t, data, b).j;
      && Sorted(j.scheduled) && DistinctTickets(j.scheduled) && NoDup(j.unscheduled)
      && Disjoint(j.scheduled, j.unscheduled)
  {
    hide Losing, Parked, Left, TicketOf;
    LosingParked(g, p, t, data, b);
    LostScheduled(g, p, t, data, b);
    var j := Lost(g, p, t, data, b).j;
    forall i, k | 0 <= i < |j.scheduled| && 0 <= k < |j.unscheduled|
      ensures j.scheduled[i].id != j.unscheduled[k]
    {
      assert j.unscheduled[k] in j.unscheduled;
    }
  }

  lemma LostHas(g: Geometry, p: Dev, t: nat, data: seq<seq<Byte>>, b: nat, id: nat)
    requires Losing(g, p, t, data, b) && Shaped(g, p, t, b)
    ensures var q := Lost(g, p, t, data, b); id in q.used <==> Has(q.j, id)
  {
    hide Losing, Left, Claimed;
    LosingShape(g, p, t, data, b);
    LosingFits(g, p, t, data, b);
    LostScheduled(g, p, t, data, b);
    var q := Lost(g, p, t, data, b);
    if Headed(q.disk, id) {
      LostKnows(g, p, t, data, b, id);
      var i :| 0 <= i < |q.j.scheduled| && q.j.scheduled[i] == TicketOf(q.disk, id);
    }
  }

  lemma LostJuggler(g: Geometry, p: Dev, t: nat, data: seq<seq<Byte>>, b: nat)
    requires Losing(g, p, t, data, b) && Shaped(g, p, t, b)
    ensures var q := Lost(g, p, t, data, b); JugglerOk(q.infos, q.used, q.cur, q.j) && SealedOk(q.sealed, q.cur, q.j)
  {
    hide Recoverable, NotStuck, Evacuated, NewestBeside, Losing, Has, Left, Claimed, DistinctTickets;
    LosingRecovers(g, p, t, data, b);
    RecoverableJuggler(g, p);
    LosingShape(g, p, t, data, b);
    LostPlan(g, p, t, data, b);
    var q := Lost(g, p, t, data, b);
    forall id
      ensures id in q.used <==> Has(q.j, id)
    {
      LostHas(g, p, t, data, b, id);
    }
    forall k | k in q.j.scheduled
      ensures k in p.j.scheduled && k.id != t
    {
      LostScheduled(g, p, t, data, b);
    }
  }

  lemma LosingRecovers(g: Geometry, p: Dev, t: nat, data: seq<seq<Byte>>, b: nat)
    requires Losing(g, p, t, data, b)
    ensures Recoverable(g, p)
  {
  }

  lemma LostIsRecoverable(g: Geometry, p: Dev, t: nat, data: seq<seq<Byte>>, b: nat)
    requires Losing(g, p, t, data, b) && Shaped(g, p, t, b)
    ensures Recoverable(g, Lost(g, p, t, data, b)) && Evacuated(Lost(g, p, t, data, b))
  {
    hide MapOk, ListsOk, CountsOk, CurOk, DiskOk, LastWriter, JugglerOk, SealedOk, HistoryOk, Sized, Evacuated,
         Capacity;
    LostRecords(g, p, t, data, b);
    LostOnDisk(g, p, t, data, b);
    LostJuggler(g, p, t, data, b);
    LostHistory(g, p, t, data, b);
    LostPlan(g, p, t, data, b);
    LostHeaders(g, p, t, data, b);
    NoCurrent(Lost(g, p, t, data, b));
    RecoverableGeometry(g, p);
  }

  lemma NoCurrent(d: Dev)
    requires d.cur == None
    ensures CurOk(d.loc, d.infos, d.used, d.cur)
  {
  }

  lemma RecoverableGeometry(g: Geometry, p: Dev)
    requires Recoverable(g, p)
    ensures GoodGeometry(g) && p.cur == None
  {
  }

  lemma LostHeaders(g: Geometry, p: Dev, t: nat, data: seq<seq<Byte>>, b: nat)
    requires Losing(g, p, t, data, b) && Shaped(g, p, t, b)
    ensures var q := Lost(g, p, t, data, b);
      && NewestHeader(q)
      && exists id :: id in q.used && id < |q.infos| && q.infos[id].seqno == q.j.seqno && id !in q.j.unscheduled
  {
    hide MapOk, ListsOk, CountsOk, LastWriter, SealedOk, HistoryOk, Left;
    LosingShape(g, p, t, data, b);
    ParkedHeaders(g, p);
    LostKnows(g, p, t, data, b, b);
    var q := Lost(g, p, t, data, b);
    assert q.infos[b] == p.infos[b] && p.infos[b].seqno == Seqno(p.disk, b);
    assert Headed(q.disk, b) && b !in q.j.unscheduled;
    forall id | id in q.used && id < |q.disk| && q.disk[id].header.Some? && q.disk[id].header.value.seqno == q.j.seqno
      ensures id == b
    {
      assert Headed(p.disk, id) && Seqno(p.disk, id) == Seqno(p.disk, b);
    }
  }

  /** Nothing live is lost with the block: the device may be shorter, by mesoblocks that were never written. */
  lemma LostContents(g: Geometry, p: Dev, t: nat, data: seq<seq<Byte>>, b: nat)
    requires Losing(g, p, t, data, b) && Shaped(g, p, t, b) && Fits(g, p) && Fits(g, Lost(g, p, t, data, b))
    ensures Contents(g, p) == Contents(g, Lost(g, p, t, data, b)) + Untouched(g, |p.loc| - Left(g, p.disk, b))
  {
    hide Losing, Left, Claimed;
    LosingRecovers(g, p, t, data, b);
    RecoverableGeometry(g, p);
    hide Recoverable;
    var q := Lost(g, p, t, data, b);
    forall x: nat | x < |p.loc|
      ensures Content(g, p, x) == if x < |q.loc| then Content(g, q, x) else Zeros(g.size)
    {
      if p.loc[x].At? {
        LostLive(g, p, t, data, b, x);
      }
    }
  }

  // ----- opening after the header was lost -----

  /** The scan of what is left ends with the newest header that is left. */
  lemma LostScan(g: Geometry, p: Dev, t: nat, data: seq<seq<Byte>>, b: nat, order: seq<nat>)
    requires Losing(g, p, t, data, b) && t < |p.disk| && ScanOrder(p, order)
    ensures Scan(Unheaded(p.disk, t, data), order, []).Ok?
    ensures var list := Scan(Unheaded(p.disk, t, data), order, []).value; list != [] && list[|list| - 1] == b
  {
    hide Parked, Evacuated, Scan, DataSized;
    var torn := Unheaded(p.disk, t, data);
    ParkedHeaders(g, p);
    assert forall id: nat :: Headed(torn, id) <==> Headed(p.disk, id) && id != t;
    assert forall id: nat :: id != t ==> Seqno(torn, id) == Seqno(p.disk, id);
    ScanSorts(torn, order, []);
    LastIsGreatest(torn, Scan(torn, order, []).value, b);
  }

  /** The header of the block that was being overwritten is lost.  The device opens from the other macroblocks alone,
      whichever header is the newest left, and everything that was ever written comes back.  The size is the one that
      this header tells, so all contents come back exactly if it has room for as many mesoblocks as there were;
      otherwise zeros at the end are missing.  The seqno is the old one exactly if the lost header was not the newest;
      else it will be used again. */
  lemma LostRecovers(g: Geometry, p: Dev, t: nat, data: seq<seq<Byte>>, b: nat, order: seq<nat>, tape: seq<Word>)
    requires Losing(g, p, t, data, b) && ScanOrder(p, order)
    ensures Shaped(g, p, t, b) && Fits(g, p)
    ensures Recoverable(g, Lost(g, p, t, data, b)) && Evacuated(Lost(g, p, t, data, b))
    ensures var r := Recover(g, Unheaded(p.disk, t, data), order, tape);
      && r.Ok? && SameDevice(g, Lost(g, p, t, data, b), r.value) && Fits(g, r.value)
      && Contents(g, p) == Contents(g, r.value) + Untouched(g, |p.loc| - Left(g, p.disk, b))
      && (Contents(g, r.value) == Contents(g, p) <==> Left(g, p.disk, b) == |p.loc|)
      && r.value.j.seqno == Seqno(p.disk, b) <= p.j.seqno
      && (r.value.j.seqno == p.j.seqno <==> p.infos[t].seqno != p.j.seqno)
  {
    hide Parked, Evacuated, Recover, Contents, NewestBeside, DataSized, Losing, Left;
    LosingShape(g, p, t, data, b);
    LosingFits(g, p, t, data, b);
    var q := Lost(g, p, t, data, b);
    LostIsRecoverable(g, p, t, data, b);
    RecoverRestores(g, q, order, tape);
    SameContents(g, q, Recover(g, q.disk, order, tape).value);
    RecoverableFits(g, q);
    LostContents(g, p, t, data, b);
    LostSeqno(g, p, t, data, b);
    assert |Contents(g, q) + Untouched(g, |p.loc| - Left(g, p.disk, b))| == |Contents(g, p)|;
    if Left(g, p.disk, b) == |p.loc| {
      assert Untouched(g, 0) == [];
    }
  }

  /** A header that says what the device is now has room for all its mesoblocks. */
  lemma NothingChanged(g: Geometry, p: Dev, b: nat)
    requires Recoverable(g, p) && Headed(p.disk, b)
    requires p.disk[b].header.value.used == p.used && p.disk[b].header.value.reserved == p.reserved
    ensures Left(g, p.disk, b) == |p.loc|
  {
  }

  lemma RecoverableFits(g: Geometry, p: Dev)
    requires Recoverable(g, p)
    ensures Fits(g, p)
  {
  }

  /** Without the newest header the seqno falls back. */
  lemma LostSeqno(g: Geometry, p: Dev, t: nat, data: seq<seq<Byte>>, b: nat)
    requires Losing(g, p, t, data, b) && t < |p.infos|
    ensures Seqno(p.disk, b) <= p.j.seqno
    ensures Seqno(p.disk, b) == p.j.seqno <==> p.infos[t].seqno != p.j.seqno
  {
    hide MapOk, ListsOk, CountsOk, LastWriter, SealedOk;
    LosingShape(g, p, t, data, b);
    ParkedHeaders(g, p);
    SomeNewest(g, p);
    var id :| Headed(p.disk, id) && Seqno(p.disk, id) == p.j.seqno;
    SeqnosDiffer(g, p, b, t);
    if id != t {
      SeqnosDiffer(g, p, id, t);
    }
  }

  lemma LosingFits(g: Geometry, p: Dev, t: nat, data: seq<seq<Byte>>, b: nat)
    requires Losing(g, p, t, data, b)
    ensures Fits(g, p) && Headed(p.disk, b) && b != t
  {
  }

  /** With no other header there is nothing to open. */
  lemma LostAlone(g: Geometry, p: Dev, t: nat, data: seq<seq<Byte>>, order: seq<nat>, tape: seq<Word>)
    requires Recoverable(g, p) && ScanOrder(p, order) && t < |p.disk| && Headed(p.disk, t)
    requires forall id :: Headed(p.disk, id) ==> id == t
    ensures Recover(g, Unheaded(p.disk, t, data), order, tape) == Fail(NoBlocks)
  {
    var torn := Unheaded(p.disk, t, data);
    ParkedHeaders(g, p);
    assert forall id: nat :: !Headed(torn, id);
    ScanSorts(torn, order, []);
    var list := Scan(torn, order, []).value;
    SortedHasNoDup(torn, list);
    assert Members(list) == {};
    MemberCount(list);
  }

  /** The newest header says what the device is. */
  lemma NewestAgrees(g: Geometry, p: Dev, b: nat)
    requires Recoverable(g, p) && Headed(p.disk, b) && Seqno(p.disk, b) == p.j.seqno
    ensures p.disk[b].header.value.used == p.used && p.disk[b].header.value.reserved == p.reserved
    ensures DigestStored(p) ==> p.disk[b].header.value.seqnos == ScheduledSeqnos(p.j)
  {
    ParkedHeaders(g, p);
  }

  // ----- the digest of the scheduled seqnos, stored in the newest header left -----

  /** Only block t was overwritten since the state p0. */
  ghost predicate OnlyOverwrote(p0: Dev, p: Dev, t: nat) {
    |p0.disk| == |p.disk| && forall id :: 0 <= id < |p.disk| && id != t ==> p0.disk[id].header == p.disk[id].header
  }

  /** The blocks scheduled in p0, apart from t, are those that are scheduled when the header of t is lost. */
  lemma ScheduledBefore(g: Geometry, p0: Dev, p: Dev, t: nat, data: seq<seq<Byte>>, b: nat)
    requires Losing(g, p, t, data, b) && Shaped(g, p, t, b) && Recoverable(g, p0) && OnlyOverwrote(p0, p, t)
    ensures forall k :: k in p.j.scheduled[1..] <==> k in p0.j.scheduled && k.id != t
    ensures Sorted(p0.j.scheduled) && DistinctTickets(p0.j.scheduled) && Sorted(p.j.scheduled[1..])
  {
    hide Losing, Parked, Left, DistinctTickets, Sorted;
    LosingParked(g, p, t, data, b);
    RecoverableLists(g, p0);
    LostScheduled(g, p, t, data, b);
    LostLists(g, p, t, data, b);
    var torn := Unheaded(p.disk, t, data);
    assert forall id: nat :: id != t ==> TicketOf(torn, id) == TicketOf(p0.disk, id);
    forall k | k in p0.j.scheduled && k.id != t
      ensures k in p.j.scheduled[1..]
    {
      ScheduledIsHeaded(g, p0, k);
    }
    forall k | k in p.j.scheduled[1..]
      ensures k in p0.j.scheduled && k.id != t
    {
      TicketIsScheduled(g, p0, k.id);
    }
  }

  lemma RecoverableLists(g: Geometry, p: Dev)
    requires Recoverable(g, p)
    ensures Sorted(p.j.scheduled) && DistinctTickets(p.j.scheduled) && Parked(g, p)
  {
  }

  /** Without the ticket at i. */
  lemma Dropping(s: seq<Ticket>, i: nat)
    requires i < |s| && Sorted(s) && DistinctTickets(s)
    ensures Sorted(s[..i] + s[i + 1..])
    ensures forall k :: k in s[..i] + s[i + 1..] <==> k in s && k.id != s[i].id
  {
    assert s == s[..i] + [s[i]] + s[i + 1..];
  }

  /** If block b was the newest in p0, and only t was overwritten since, the digest tells that a block is missing
      exactly if t was in use already: if it carried a header then. */
  lemma LostIsNoticed(g: Geometry, p0: Dev, p: Dev, t: nat, data: seq<seq<Byte>>, b: nat, order: seq<nat>,
                      tape: seq<Word>)
    requires Losing(g, p, t, data, b) && ScanOrder(p, order)
    requires Recoverable(g, p0) && DigestStored(p0) && Headed(p0.disk, b) && Seqno(p0.disk, b) == p0.j.seqno
    requires OnlyOverwrote(p0, p, t)
    ensures t < |p.disk|
    ensures var torn := Unheaded(p.disk, t, data);
      && Recover(g, torn, order, tape).Ok?
      && (StoredSeqnos(torn, order) != ScheduledSeqnos(Recover(g, torn, order, tape).value.j) <==> Headed(p0.disk, t))
  {
    hide Parked, Evacuated, Scan, Recover, Contents, DataSized, NewestBeside, Losing, Recoverable, Left, OnlyOverwrote;
    LostRecovers(g, p, t, data, b, order, tape);
    LosingFits(g, p, t, data, b);
    LostScan(g, p, t, data, b, order);
    ScheduledBefore(g, p0, p, t, data, b);
    NewestAgrees(g, p0, b);
    HeaderKept(p0, p, t, b);
    var torn := Unheaded(p.disk, t, data);
    assert StoredSeqnos(torn, order) == ScheduledSeqnos(p0.j);
    RecoverableLists(g, p0);
    if Headed(p0.disk, t) {
      TicketIsScheduled(g, p0, t);
      var i :| 0 <= i < |p0.j.scheduled| && p0.j.scheduled[i] == TicketOf(p0.disk, t);
      Dropping(p0.j.scheduled, i);
      SortedIsUnique(p0.j.scheduled[..i] + p0.j.scheduled[i + 1..], p.j.scheduled[1..]);
      assert |ScheduledSeqnos(p0.j)| == |p0.j.scheduled| == |p.j.scheduled[1..]| + 1;
    } else {
      forall k | k in p0.j.scheduled
        ensures k.id != t
      {
        ScheduledIsHeaded(g, p0, k);
      }
      SortedIsUnique(p0.j.scheduled, p.j.scheduled[1..]);
    }
  }

  lemma HeaderKept(p0: Dev, p: Dev, t: nat, b: nat)
    requires OnlyOverwrote(p0, p, t) && b != t && Headed(p0.disk, b)
    ensures Headed(p.disk, b) && p.disk[b].header == p0.disk[b].header
  {
  }

  /** In particular it does if the lost header was not the newest. */
  lemma OlderIsNoticed(g: Geometry, p: Dev, t: nat, data: seq<seq<Byte>>, b: nat, order: seq<nat>, tape: seq<Word>)
    requires Losing(g, p, t, data, b) && ScanOrder(p, order) && DigestStored(p) && t < |p.infos|
    requires p.infos[t].seqno != p.j.seqno
    ensures t < |p.disk|
    ensures var torn := Unheaded(p.disk, t, data);
      Recover(g, torn, order, tape).Ok?
      && StoredSeqnos(torn, order) != ScheduledSeqnos(Recover(g, torn, order, tape).value.j)
  {
    hide Parked, Evacuated, Recover, DataSized, NewestBeside, Losing;
    LosingShape(g, p, t, data, b);
    LosingRecovers(g, p, t, data, b);
    LosingFits(g, p, t, data, b);
    LostSeqno(g, p, t, data, b);
    TailIsHeaded(g, p, t, data, b);
    LostIsNoticed(g, p, p, t, data, b, order, tape);
  }

  lemma TailIsHeaded(g: Geometry, p: Dev, t: nat, data: seq<seq<Byte>>, b: nat)
    requires Losing(g, p, t, data, b)
    ensures Headed(p.disk, t)
  {
    LosingShape(g, p, t, data, b);
    ParkedHeaders(g, p);
  }

  // ----- the header is whole, the data may not be -----

  function WithData(p: Dev, t: nat, data: seq<seq<Byte>>): Dev
    requires t < |p.disk|
  {
    p.(disk := p.disk[t := p.disk[t].(data := data)])
  }

  /** Opening does not look at the data: with other data in block t, the device comes back as it was, and so do its
      contents exactly if what is live in the block decrypts to what it was; in particular if nothing is. */
  lemma OtherDataRecovers(g: Geometry, p: Dev, t: nat, data: seq<seq<Byte>>, order: seq<nat>, tape: seq<Word>)
    requires Recoverable(g, p) && t < |p.disk| && DataSized(g, data) && ScanOrder(p, order)
    ensures Recoverable(g, WithData(p, t, data)) && Fits(g, p) && t < |p.infos|
    ensures var r := Recover(g, WithData(p, t, data).disk, order, tape);
      && r.Ok? && SameDevice(g, WithData(p, t, data), r.value) && Fits(g, r.value)
      && (Contents(g, r.value) == Contents(g, p) <==>
            forall x: nat :: x in Live(p.loc, t) ==> ReadsAs(g, p, t, data, x))
      && (Live(p.loc, t) == {} ==> Contents(g, r.value) == Contents(g, p))
  {
    hide Parked, Recover, Contents, SameDevice, DataSized, Live;
    var q := WithData(p, t, data);
    OtherDataKeeps(g, p, t, data);
    RecoverRestores(g, q, order, tape);
    SameContents(g, q, Recover(g, q.disk, order, tape).value);
    OtherContents(g, p, t, data);
  }

  ghost predicate ReadsAs(g: Geometry, p: Dev, t: nat, data: seq<seq<Byte>>, x: nat)
    requires Fits(g, p) && t < |p.infos|
  {
    && x < |p.loc| && p.loc[x].At? && p.loc[x].slot < |data|
    && g.cipher.dec(Iv(p.infos[t].seqno, p.loc[x].slot + 1, t), data[p.loc[x].slot]) == Content(g, p, x)
  }

  /** The history is a matter of headers. */
  lemma SameHistory(g: Geometry, n: nat, a: seq<Sector>, b: seq<Sector>, used: set<nat>, reserved: nat,
                    cur: Option<nat>)
    requires HistoryOk(g, n, a, used, reserved, cur)
    requires |a| == |b| && forall id :: 0 <= id < |a| ==> a[id].header == b[id].header
    ensures HistoryOk(g, n, b, used, reserved, cur)
  {
    hide Capacity, Tells, Grown;
    forall x: nat, y: nat | NotAfter(b, x, y)
      ensures NotAfter(a, x, y)
    {
    }
    forall x: nat | Headed(b, x)
      ensures Headed(a, x) && (Followed(a, x) ==> Followed(b, x))
    {
      if Followed(a, x) {
        var c: nat :| c in a[x].header.value.used && (Headed(a, c) ==> Seqno(a, x) < Seqno(a, c));
        assert Headed(b, c) ==> Seqno(b, x) < Seqno(b, c);
      }
    }
  }

  lemma OtherDataKeeps(g: Geometry, p: Dev, t: nat, data: seq<seq<Byte>>)
    requires Recoverable(g, p) && t < |p.disk| && DataSized(g, data)
    ensures Recoverable(g, WithData(p, t, data)) && Fits(g, p) && Fits(g, WithData(p, t, data)) && t < |p.infos|
    ensures Evacuated(p) ==> Evacuated(WithData(p, t, data))
  {
    hide MapOk, ListsOk, CountsOk, JugglerOk, SealedOk, Inverts, KeepsLength, Capacity, HistoryOk;
    var q := WithData(p, t, data);
    SameHistory(g, |p.loc|, p.disk, q.disk, p.used, p.reserved, p.cur);
    forall id, k | id in q.used && id < |q.disk| && q.disk[id].header.Some?
                   && 0 <= k < |q.disk[id].header.value.indices|
      ensures Superseded(q.loc, q.infos, q.cur, id, k, q.disk[id].header.value)
    {
      assert Superseded(p.loc, p.infos, p.cur, id, k, p.disk[id].header.value);
    }
  }

  lemma OtherContents(g: Geometry, p: Dev, t: nat, data: seq<seq<Byte>>)
    requires Recoverable(g, p) && t < |p.disk| && DataSized(g, data)
    requires Fits(g, p) && Fits(g, WithData(p, t, data)) && t < |p.infos|
    ensures Contents(g, WithData(p, t, data)) == Contents(g, p) <==>
            forall x: nat :: x in Live(p.loc, t) ==> ReadsAs(g, p, t, data, x)
  {
    hide CountsOk, DiskOk, LastWriter, JugglerOk, SealedOk, Inverts, KeepsLength, Capacity;
    var q := WithData(p, t, data);
    forall x: nat | x < |p.loc|
      ensures Contents(g, q)[x] == Contents(g, p)[x] <==> (x in Live(p.loc, t) ==> ReadsAs(g, p, t, data, x))
    {
    }
  }
}
