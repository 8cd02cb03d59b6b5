/** Opening a device (blockio_dev_init and scubed3_init): the headers alone give back the state in which the newest
    macroblock was written. */
module Recovery {
  import opened Prelude
  import opened Random
  import opened Juggler
  import opened Device
  import opened Bookkeeping
  import opened Steps

  // ----- scanning headers -----

  function Listed(disk: seq<Sector>, id: nat): seq<nat> {
    if Headed(disk, id) then disk[id].header.value.indices else []
  }

  /** sort_to_replay: block id goes before the first block of the list with a greater seqno. */
  function SortToReplay(disk: seq<Sector>, list: seq<nat>, id: nat, i: nat): Result<seq<nat>>
    requires i <= |list|
    decreases |list| - i
  {
    if i == |list| then Ok(list + [id])
    else if Seqno(disk, id) == Seqno(disk, list[i]) then Fail(AssertionFailed)
    else if Seqno(disk, id) > Seqno(disk, list[i]) then SortToReplay(disk, list, id, i + 1)
    else Ok(list[..i] + [id] + list[i..])
  }

  /** blockio_dev_scan_header on every macroblock, in the given order. */
  function Scan(disk: seq<Sector>, order: seq<nat>, list: seq<nat>): Result<seq<nat>>
    decreases |order|
  {
    if order == [] then Ok(list)
    else if !Headed(disk, order[0]) then Scan(disk, order[1..], list)
    else
      var l :- SortToReplay(disk, list, order[0], 0);
      Scan(disk, order[1..], l)
  }

  // ----- replay -----

  /** The body of the loop in replay. */
  function ReplaySlot(d: Dev, id: nat, k: nat): (r: Result<Dev>)
    requires id < |d.infos| && k < |d.infos[id].indices|
    ensures r.Ok? ==> |r.value.infos| == |d.infos| && r.value.infos[id] == d.infos[id] && |r.value.loc| == |d.loc|
    ensures r.Ok? ==> r.value == d.(loc := r.value.loc, infos := r.value.infos)
  {
    var x := d.infos[id].indices[k];
    if x >= |d.loc| then Ok(d)
    else if d.loc[x].At? && d.loc[x].id == id then Fail(AssertionFailed)
    else
      var d1 :- if d.loc[x].At? then Obsolete(d, d.loc[x].id) else Ok(d);
      Ok(d1.(loc := d1.loc[x := At(id, k)]))
  }

  function ReplayFrom(d: Dev, id: nat, k: nat): (r: Result<Dev>)
    requires id < |d.infos|
    ensures r.Ok? ==> |r.value.infos| == |d.infos| && |r.value.loc| == |d.loc|
    ensures r.Ok? ==> r.value == d.(loc := r.value.loc, infos := r.value.infos)
    decreases |d.infos[id].indices| - k
  {
    if k >= |d.infos[id].indices| then Ok(d)
    else
      var d1 :- ReplaySlot(d, id, k);
      ReplayFrom(d1, id, k + 1)
  }

  /** replay on every block of the list */
  function ReplayAll(d: Dev, list: seq<nat>): (r: Result<Dev>)
    ensures r.Ok? ==> |r.value.infos| == |d.infos| && |r.value.loc| == |d.loc|
    ensures r.Ok? ==> r.value == d.(loc := r.value.loc, infos := r.value.infos)
    decreases |list|
  {
    if list == [] then Ok(d)
    else if list[0] >= |d.infos| then Fail(AssertionFailed)
    else
      var d1 :- ReplayFrom(d, list[0], 0);
      ReplayAll(d1, list[1..])
  }

  // ----- opening -----

  /** blockio_prepare_block, or what the header says */
  function InfoOf(s: Sector): Info {
    match s.header
    case None => Info(0, 0, [], 0)
    case Some(h) => Info(h.seqno, h.next, h.indices, |h.indices|)
  }

  /** The blocks below n that the bitmap claims although they carry no header, each put in front of the last. */
  function Claimed(disk: seq<Sector>, used: set<nat>, n: nat): (u: seq<nat>)
    ensures forall id :: id in u <==> id in used && id < n && !Headed(disk, id)
    ensures NoDup(u)
  {
    if n == 0 then []
    else
      var u := Claimed(disk, used, n - 1);
      if n - 1 in used && !Headed(disk, n - 1) then [n - 1] + u else u
  }

  /** The greatest number comes first. */
  lemma {:induction false} ClaimedDescends(disk: seq<Sector>, used: set<nat>, n: nat)
    ensures forall i, k :: 0 <= i < k < |Claimed(disk, used, n)| ==>
      Claimed(disk, used, n)[i] > Claimed(disk, used, n)[k]
  {
    if n > 0 {
      ClaimedDescends(disk, used, n - 1);
      var u := Claimed(disk, used, n - 1);
      forall k | 0 <= k < |u|
        ensures u[k] < n - 1
      {
        assert u[k] in u;
      }
    }
  }

  function TicketOf(disk: seq<Sector>, id: nat): Ticket {
    if Headed(disk, id) then Ticket(id, disk[id].header.value.seqno, disk[id].header.value.next) else Ticket(id, 0, 0)
  }

  /** The replay list is emptied into the juggler from its end. */
  function Tickets(disk: seq<Sector>, list: seq<nat>): seq<Ticket> {
    seq(|list|, i requires 0 <= i < |list| => TicketOf(disk, list[|list| - 1 - i]))
  }

  /** scubed3_init before the replay, with the header of the newest block. */
  function Blank(g: Geometry, disk: seq<Sector>, h: Header, tape: seq<Word>): Dev {
    Dev(seq(Capacity(g, |h.used|, h.reserved), _ => Unwritten),
        seq(|disk|, i requires 0 <= i < |disk| => InfoOf(disk[i])),
        disk, seq(g.mmpm, _ => Zeros(g.size)), EMPTY, None, None, false, false, h.used, h.reserved, 0, tape, false, [])
  }

  /** blockio_dev_init and scubed3_init; a FATAL exit counts as a failed assertion. */
  function Recover(g: Geometry, disk: seq<Sector>, order: seq<nat>, tape: seq<Word>): Result<Dev> {
    var list :- Scan(disk, order, []);
    if list == [] || !Headed(disk, list[|list| - 1]) then Fail(NoBlocks)
    else
      var h := disk[list[|list| - 1]].header.value;
      var claimed := Claimed(disk, h.used, |disk|);
      if (exists id :: id in h.used && id >= |disk|) || |h.used| != |list| + |claimed| then Fail(AssertionFailed)
      else
        var d :- ReplayAll(Blank(g, disk, h, tape), list);
        match Load(Schedule([], claimed, 0), Tickets(disk, list))
        case None => Fail(AssertionFailed)
        case Some(j) => Ok(d.(j := j))
  }

  // ----- the replay list is sorted, whatever the order of the scan -----

  ghost predicate SortedBySeqno(disk: seq<Sector>, list: seq<nat>) {
    forall i, k :: 0 <= i < k < |list| ==> Seqno(disk, list[i]) < Seqno(disk, list[k])
  }

  ghost predicate DistinctSeqnos(disk: seq<Sector>) {
    forall a, b :: Headed(disk, a) && Headed(disk, b) && a != b ==> Seqno(disk, a) != Seqno(disk, b)
  }

  lemma InsertedSorts(disk: seq<Sector>, list: seq<nat>, id: nat, i: nat)
    requires i < |list| && SortedBySeqno(disk, list) && Seqno(disk, id) < Seqno(disk, list[i])
    requires forall k :: 0 <= k < i ==> Seqno(disk, list[k]) < Seqno(disk, id)
    ensures SortedBySeqno(disk, list[..i] + [id] + list[i..])
    ensures forall x :: x in list[..i] + [id] + list[i..] <==> x in list || x == id
  {
    hide Seqno;
    var l := list[..i] + [id] + list[i..];
    forall m, k | 0 <= m < k < |l|
      ensures Seqno(disk, l[m]) < Seqno(disk, l[k])
    {
      assert m != i ==> l[m] == list[if m < i then m else m - 1];
      assert k != i ==> l[k] == list[if k < i then k else k - 1];
    }
    assert list == list[..i] + list[i..];
  }

  lemma {:induction false} SortToReplaySorts(disk: seq<Sector>, list: seq<nat>, id: nat, i: nat)
    requires i <= |list| && SortedBySeqno(disk, list) && DistinctSeqnos(disk)
    requires Headed(disk, id) && id !in list && forall x :: x in list ==> Headed(disk, x)
    requires forall k :: 0 <= k < i ==> Seqno(disk, list[k]) < Seqno(disk, id)
    ensures SortToReplay(disk, list, id, i).Ok?
    ensures SortedBySeqno(disk, SortToReplay(disk, list, id, i).value)
    ensures forall x :: x in SortToReplay(disk, list, id, i).value <==> x in list || x == id
    decreases |list| - i
  {
    hide Headed, Seqno;
    if i < |list| {
      assert list[i] in list;
      if Seqno(disk, id) > Seqno(disk, list[i]) {
        SortToReplaySorts(disk, list, id, i + 1);
      } else {
        InsertedSorts(disk, list, id, i);
      }
    }
  }

  /** Where a header goes into the list; two with the same seqno trip an assertion. */
  lemma {:induction false} SortToReplayIsExact(disk: seq<Sector>, list: seq<nat>, id: nat, i: nat)
    requires i <= |list| && SortedBySeqno(disk, list)
    requires forall k :: 0 <= k < i ==> Seqno(disk, list[k]) < Seqno(disk, id)
    ensures SortToReplay(disk, list, id, i).Ok? <==> forall x :: x in list ==> Seqno(disk, x) != Seqno(disk, id)
    ensures SortToReplay(disk, list, id, i).Ok? ==>
      && SortedBySeqno(disk, SortToReplay(disk, list, id, i).value)
      && forall x :: x in SortToReplay(disk, list, id, i).value <==> x in list || x == id
    decreases |list| - i
  {
    hide Seqno;
    if i < |list| {
      assert list[i] in list;
      if Seqno(disk, id) > Seqno(disk, list[i]) {
        SortToReplayIsExact(disk, list, id, i + 1);
      } else if Seqno(disk, id) < Seqno(disk, list[i]) {
        InsertedSorts(disk, list, id, i);
      }
    }
  }

  /** The headers among ids and list have different seqnos. */
  ghost predicate NoTwins(disk: seq<Sector>, order: seq<nat>, list: seq<nat>) {
    forall a: nat, b: nat :: Listing(disk, order, list, a) && Listing(disk, order, list, b) && a != b ==>
      Seqno(disk, a) != Seqno(disk, b)
  }

  ghost predicate Listing(disk: seq<Sector>, order: seq<nat>, list: seq<nat>, id: nat) {
    id in list || (id in order && Headed(disk, id))
  }

  /** For any file, the scan succeeds exactly if no two headers have the same seqno. */
  lemma {:induction false} ScanIsExact(disk: seq<Sector>, order: seq<nat>, list: seq<nat>)
    requires SortedBySeqno(disk, list) && NoDup(order) && forall x :: x in list ==> x !in order
    ensures Scan(disk, order, list).Ok? <==> NoTwins(disk, order, list)
    ensures Scan(disk, order, list).Ok? ==>
      && SortedBySeqno(disk, Scan(disk, order, list).value)
      && forall x: nat :: x in Scan(disk, order, list).value <==> Listing(disk, order, list, x)
    decreases |order|
  {
    hide Seqno, Headed, SortToReplay;
    if order != [] {
      var id := order[0];
      assert order == [id] + order[1..];
      if !Headed(disk, id) {
        assert forall x: nat :: Listing(disk, order, list, x) <==> Listing(disk, order[1..], list, x);
        ScanIsExact(disk, order[1..], list);
      } else {
        SortToReplayIsExact(disk, list, id, 0);
        if SortToReplay(disk, list, id, 0).Ok? {
          var l := SortToReplay(disk, list, id, 0).value;
          assert forall x: nat :: Listing(disk, order, list, x) <==> Listing(disk, order[1..], l, x);
          ScanIsExact(disk, order[1..], l);
        } else {
          var x :| x in list && Seqno(disk, x) == Seqno(disk, id);
          assert Listing(disk, order, list, x) && Listing(disk, order, list, id);
        }
      }
    }
  }

  lemma {:induction false} ScanSorts(disk: seq<Sector>, order: seq<nat>, list: seq<nat>)
    requires SortedBySeqno(disk, list) && DistinctSeqnos(disk) && NoDup(order)
    requires forall x :: x in list ==> Headed(disk, x) && x !in order
    ensures Scan(disk, order, list).Ok?
    ensures SortedBySeqno(disk, Scan(disk, order, list).value)
    ensures forall x :: x in Scan(disk, order, list).value <==> x in list || (x in order && Headed(disk, x))
    decreases |order|
  {
    if order != [] {
      assert order == [order[0]] + order[1..];
      if !Headed(disk, order[0]) {
        ScanSorts(disk, order[1..], list);
      } else {
        SortToReplaySorts(disk, list, order[0], 0);
        ScanSorts(disk, order[1..], SortToReplay(disk, list, order[0], 0).value);
      }
    }
  }

  // ----- replay: the last writer wins -----

  ghost predicate Entry(disk: seq<Sector>, id: nat, k: nat, x: nat) {
    k < |Listed(disk, id)| && Listed(disk, id)[k] == x
  }

  /** The blocks of done were replayed, and the first k entries of block c. */
  ghost predicate Seen(done: set<nat>, c: nat, k: nat, id: nat, slot: nat) {
    id in done || (id == c && slot < k)
  }

  ghost predicate PointsToSeen(disk: seq<Sector>, loc: seq<Loc>, done: set<nat>, c: nat, k: nat) {
    forall x :: 0 <= x < |loc| && loc[x].At? ==>
      Entry(disk, loc[x].id, loc[x].slot, x) && Seen(done, c, k, loc[x].id, loc[x].slot)
  }

  ghost predicate Newest(disk: seq<Sector>, loc: seq<Loc>, id: nat, k: nat, x: nat) {
    x < |loc| && loc[x].At? && (loc[x] == At(id, k) || Seqno(disk, id) < Seqno(disk, loc[x].id))
  }

  ghost predicate NewestSeen(disk: seq<Sector>, loc: seq<Loc>, done: set<nat>, c: nat, k: nat) {
    forall id, s, x :: Entry(disk, id, s, x) && Seen(done, c, k, id, s) ==> Newest(disk, loc, id, s, x)
  }

  /** The record of a replayed block. */
  function Settled(i: Info, n: nat): Info {
    i.(nonobsolete := n, indices := if n == 0 then [] else i.indices)
  }

  ghost predicate Records(disk: seq<Sector>, loc: seq<Loc>, infos: seq<Info>, done: set<nat>) {
    && |infos| == |disk|
    && forall id :: 0 <= id < |disk| ==>
         infos[id] == if id in done then Settled(InfoOf(disk[id]), |Live(loc, id)|) else InfoOf(disk[id])
  }

  ghost predicate GoodHeaders(disk: seq<Sector>, n: nat) {
    && DistinctSeqnos(disk)
    && forall id :: Headed(disk, id) ==> NoDup(Listed(disk, id)) && forall x :: x in Listed(disk, id) ==> x < n
  }

  ghost predicate Replaying(disk: seq<Sector>, d: Dev, done: set<nat>, c: nat, k: nat) {
    && GoodHeaders(disk, |d.loc|)
    && PointsToSeen(disk, d.loc, done, c, k)
    && NewestSeen(disk, d.loc, done, c, k)
    && Records(disk, d.loc, d.infos, done)
    && Headed(disk, c) && c !in done
    && forall id :: id in done ==> Headed(disk, id) && Seqno(disk, id) < Seqno(disk, c)
  }

  /** The location that a replayed slot overwrites belongs to an earlier block. */
  lemma ReplaySlotTarget(disk: seq<Sector>, d: Dev, done: set<nat>, c: nat, k: nat)
    requires Replaying(disk, d, done, c, k) && k < |Listed(disk, c)|
    ensures c < |d.infos| && d.infos[c] == InfoOf(disk[c])
    ensures var x := Listed(disk, c)[k];
            && x < |d.loc|
            && (d.loc[x].At? ==> d.loc[x].id in done && x in Live(d.loc, d.loc[x].id)
                                 && d.loc[x].id < |d.infos| && d.infos[d.loc[x].id].nonobsolete > 0)
  {
    var x := Listed(disk, c)[k];
    assert x in Listed(disk, c);
    if d.loc[x].At? {
      assert Entry(disk, d.loc[x].id, d.loc[x].slot, x);
      assert x in Live(d.loc, d.loc[x].id);
    }
  }

  lemma ReplaySlotRecords(disk: seq<Sector>, d: Dev, done: set<nat>, c: nat, k: nat)
    requires Replaying(disk, d, done, c, k) && k < |Listed(disk, c)|
    ensures ReplaySlot(d, c, k).Ok?
    ensures var d' := ReplaySlot(d, c, k).value;
            && Listed(disk, c)[k] < |d.loc| && d'.loc == d.loc[Listed(disk, c)[k] := At(c, k)]
            && Records(disk, d'.loc, d'.infos, done)
  {
    hide GoodHeaders, NewestSeen;
    ReplaySlotTarget(disk, d, done, c, k);
    var x := Listed(disk, c)[k];
    var d' := ReplaySlot(d, c, k).value;
    forall id | 0 <= id < |disk|
      ensures d'.infos[id] == if id in done then Settled(InfoOf(disk[id]), |Live(d'.loc, id)|) else InfoOf(disk[id])
    {
      LiveAfterMove(d.loc, x, c, k, id);
    }
  }

  lemma ReplaySlotNewest(disk: seq<Sector>, d: Dev, done: set<nat>, c: nat, k: nat)
    requires Replaying(disk, d, done, c, k) && k < |Listed(disk, c)| && Listed(disk, c)[k] < |d.loc|
    ensures var loc' := d.loc[Listed(disk, c)[k] := At(c, k)];
            PointsToSeen(disk, loc', done, c, k + 1) && NewestSeen(disk, loc', done, c, k + 1)
  {
    hide Records;
    var x := Listed(disk, c)[k];
    var loc' := d.loc[x := At(c, k)];
    forall id, s, y | Entry(disk, id, s, y) && Seen(done, c, k + 1, id, s)
      ensures Newest(disk, loc', id, s, y)
    {
      if Seen(done, c, k, id, s) {
        assert Newest(disk, d.loc, id, s, y);
      } else {
        assert y == x;
      }
    }
  }

  lemma {:induction false} ReplayFromKeeps(disk: seq<Sector>, d: Dev, done: set<nat>, c: nat, k: nat)
    requires Replaying(disk, d, done, c, k) && k <= |Listed(disk, c)|
    ensures c < |d.infos| && ReplayFrom(d, c, k).Ok?
    ensures Replaying(disk, ReplayFrom(d, c, k).value, done, c, |Listed(disk, c)|)
    decreases |Listed(disk, c)| - k
  {
    assert d.infos[c] == InfoOf(disk[c]);
    if k < |Listed(disk, c)| {
      ReplaySlotTarget(disk, d, done, c, k);
      ReplaySlotRecords(disk, d, done, c, k);
      ReplaySlotNewest(disk, d, done, c, k);
      ReplayFromKeeps(disk, ReplaySlot(d, c, k).value, done, c, k + 1);
    }
  }

  /** A block just replayed in full has all its entries live. */
  lemma ReplayedBlockLive(disk: seq<Sector>, d: Dev, done: set<nat>, c: nat)
    requires Replaying(disk, d, done, c, |Listed(disk, c)|)
    ensures |Live(d.loc, c)| == |Listed(disk, c)|
  {
    var l := Listed(disk, c);
    forall x
      ensures x in Live(d.loc, c) <==> x in Members(l)
    {
      if x in l {
        var s :| 0 <= s < |l| && l[s] == x;
        assert Entry(disk, c, s, x) && Seen(done, c, |l|, c, s);
        assert Newest(disk, d.loc, c, s, x);
      }
    }
    assert Live(d.loc, c) == Members(l);
    MemberCount(l);
  }

  ghost predicate ReplayedAll(disk: seq<Sector>, d: Dev, done: set<nat>) {
    && GoodHeaders(disk, |d.loc|)
    && (forall x :: 0 <= x < |d.loc| && d.loc[x].At? ==>
          Entry(disk, d.loc[x].id, d.loc[x].slot, x) && d.loc[x].id in done)
    && (forall id, s, x :: Entry(disk, id, s, x) && id in done ==> Newest(disk, d.loc, id, s, x))
    && Records(disk, d.loc, d.infos, done)
  }

  lemma ReplayStarts(disk: seq<Sector>, d: Dev, done: set<nat>, c: nat)
    requires ReplayedAll(disk, d, done) && Headed(disk, c) && c !in done
    requires forall id :: id in done ==> Headed(disk, id) && Seqno(disk, id) < Seqno(disk, c)
    ensures Replaying(disk, d, done, c, 0)
  {
  }

  lemma ReplayEnds(disk: seq<Sector>, d: Dev, done: set<nat>, c: nat)
    requires Replaying(disk, d, done, c, |Listed(disk, c)|)
    ensures ReplayedAll(disk, d, done + {c})
  {
    ReplayedBlockLive(disk, d, done, c);
    forall id, s, x | Entry(disk, id, s, x) && id in done + {c}
      ensures Newest(disk, d.loc, id, s, x)
    {
      assert Seen(done, c, |Listed(disk, c)|, id, s);
    }
  }

  lemma {:induction false} ReplayAllKeeps(disk: seq<Sector>, d: Dev, done: set<nat>, list: seq<nat>)
    requires ReplayedAll(disk, d, done) && SortedBySeqno(disk, list)
    requires forall x :: x in list ==> Headed(disk, x)
    requires forall id, x :: id in done && x in list ==> Headed(disk, id) && Seqno(disk, id) < Seqno(disk, x)
    ensures ReplayAll(d, list).Ok?
    ensures ReplayedAll(disk, ReplayAll(d, list).value, done + Members(list))
    decreases |list|
  {
    hide ReplayedAll, Replaying, ReplayFrom, Headed, Seqno, Listed;
    if list == [] {
      assert done + Members(list) == done;
    } else {
      var c := list[0];
      SortedTail(disk, list);
      ReplayStarts(disk, d, done, c);
      ReplayFromKeeps(disk, d, done, c, 0);
      ReplayEnds(disk, ReplayFrom(d, c, 0).value, done, c);
      ReplayAllKeeps(disk, ReplayFrom(d, c, 0).value, done + {c}, list[1..]);
      assert done + {c} + Members(list[1..]) == done + Members(list);
    }
  }

  lemma SortedTail(disk: seq<Sector>, list: seq<nat>)
    requires SortedBySeqno(disk, list) && list != []
    ensures SortedBySeqno(disk, list[1..])
    ensures list[0] in list && forall x :: x in list <==> x == list[0] || x in list[1..]
    ensures forall x :: x in list[1..] ==> Seqno(disk, list[0]) < Seqno(disk, x)
  {
    assert list == [list[0]] + list[1..];
    forall x | x in list[1..]
      ensures Seqno(disk, list[0]) < Seqno(disk, x)
    {
      var k :| 0 <= k < |list[1..]| && list[1..][k] == x;
      assert list[k + 1] == x;
    }
  }

  // ----- recovery -----

  /** The scan reaches every macroblock once. */
  ghost predicate ScanOrder(d: Dev, order: seq<nat>) {
    NoDup(order) && forall id: nat :: id in order <==> id < |d.disk|
  }

  ghost predicate Recoverable(g: Geometry, d: Dev) {
    Parked(g, d) && |d.loc| == Capacity(g, |d.used|, d.reserved)
  }

  /** The state after recovery is the one when the newest block was written, up to the order of unscheduled blocks. */
  ghost predicate SameDevice(g: Geometry, d: Dev, r: Dev) {
    && !r.ready && !r.spoiled && r.sealed == [] && r.tail == None
    && |r.ram| == g.mmpm && (forall k :: 0 <= k < g.mmpm ==> |r.ram[k]| == g.size)
    && r.loc == d.loc && r.disk == d.disk && r.used == d.used && r.reserved == d.reserved && r.cur == None
    && |r.infos| == |d.infos| && (forall id :: id in d.used && id < |d.infos| ==> r.infos[id] == d.infos[id])
    && r.j.scheduled == d.j.scheduled && r.j.seqno == d.j.seqno
    && NoDup(r.j.unscheduled) && forall id :: id in r.j.unscheduled <==> id in d.j.unscheduled
  }

  lemma ParkedHeaders(g: Geometry, d: Dev)
    requires Parked(g, d)
    ensures GoodHeaders(d.disk, |d.loc|)
    ensures forall id :: Headed(d.disk, id) <==> id in d.used && id !in d.j.unscheduled
    ensures forall id: nat :: Headed(d.disk, id) ==>
      TicketOf(d.disk, id) == Ticket(id, d.infos[id].seqno, d.infos[id].next)
  {
    forall a, b | Headed(d.disk, a) && Headed(d.disk, b) && a != b
      ensures Seqno(d.disk, a) != Seqno(d.disk, b)
    {
      SeqnosDiffer(g, d, a, b);
    }
    forall id: nat, x | Headed(d.disk, id) && x in Listed(d.disk, id)
      ensures x < |d.loc|
    {
      var k :| 0 <= k < |Listed(d.disk, id)| && Listed(d.disk, id)[k] == x;
      assert Superseded(d.loc, d.infos, d.cur, id, k, d.disk[id].header.value);
    }
  }

  /** Two maps that both point to the newest entry of every mesoblock are equal. */
  lemma NewestIsUnique(disk: seq<Sector>, a: seq<Loc>, b: seq<Loc>)
    requires |a| == |b| && GoodHeaders(disk, |a|)
    requires forall x :: 0 <= x < |a| && a[x].At? ==> Entry(disk, a[x].id, a[x].slot, x)
    requires forall x :: 0 <= x < |b| && b[x].At? ==> Entry(disk, b[x].id, b[x].slot, x)
    requires forall id, s, x :: Entry(disk, id, s, x) ==> Newest(disk, a, id, s, x)
    requires forall id, s, x :: Entry(disk, id, s, x) ==> Newest(disk, b, id, s, x)
    ensures a == b
  {
    forall x | 0 <= x < |a|
      ensures a[x] == b[x]
    {
      if a[x].At? {
        assert Newest(disk, b, a[x].id, a[x].slot, x);
        assert Entry(disk, b[x].id, b[x].slot, x);
      }
      if b[x].At? {
        assert Newest(disk, a, b[x].id, b[x].slot, x);
      }
    }
  }

  lemma ParkedNewest(g: Geometry, d: Dev)
    requires Parked(g, d)
    ensures forall x :: 0 <= x < |d.loc| && d.loc[x].At? ==> Entry(d.disk, d.loc[x].id, d.loc[x].slot, x)
    ensures forall id, s, x :: Entry(d.disk, id, s, x) ==> Newest(d.disk, d.loc, id, s, x)
  {
    forall id: nat, s: nat, x: nat | Entry(d.disk, id, s, x)
      ensures Newest(d.disk, d.loc, id, s, x)
    {
      assert Superseded(d.loc, d.infos, d.cur, id, s, d.disk[id].header.value);
      HeadedIfLive(g, d, x);
    }
    forall x | 0 <= x < |d.loc| && d.loc[x].At?
      ensures Entry(d.disk, d.loc[x].id, d.loc[x].slot, x)
    {
      HeadedIfLive(g, d, x);
    }
  }

  /** A live mesoblock of a parked device is listed by a header on disk. */
  lemma HeadedIfLive(g: Geometry, d: Dev, x: nat)
    requires Parked(g, d) && x < |d.loc| && d.loc[x].At?
    ensures var id := d.loc[x].id;
            && id in d.used && id < |d.infos| && Headed(d.disk, id)
            && d.disk[id].header.value.seqno == d.infos[id].seqno
            && d.disk[id].header.value.indices == d.infos[id].indices
            && d.loc[x].slot < |d.infos[id].indices| && d.infos[id].indices[d.loc[x].slot] == x
  {
  }

  lemma ParkedRecords(g: Geometry, d: Dev, id: nat)
    requires Parked(g, d) && id in d.used
    ensures id < |d.infos|
    ensures d.infos[id] ==
      if Headed(d.disk, id) then Settled(InfoOf(d.disk[id]), |Live(d.loc, id)|) else InfoOf(d.disk[id])
  {
    if Headed(d.disk, id) && Live(d.loc, id) != {} {
      var x :| x in Live(d.loc, id);
      HeadedIfLive(g, d, x);
    }
  }

  lemma ReplayRestores(g: Geometry, d: Dev, list: seq<nat>, tape: seq<Word>, h: Header)
    requires Recoverable(g, d) && h.used == d.used && h.reserved == d.reserved
    requires SortedBySeqno(d.disk, list) && forall x :: x in list <==> Headed(d.disk, x)
    ensures var r := ReplayAll(Blank(g, d.disk, h, tape), list);
            && r.Ok? && r.value.loc == d.loc && |r.value.infos| == |d.infos|
            && forall id :: id in d.used && id < |d.infos| ==> r.value.infos[id] == d.infos[id]
  {
    ParkedHeaders(g, d);
    var b := Blank(g, d.disk, h, tape);
    BlankIsReplayed(d.disk, b);
    ReplayAllKeeps(d.disk, b, {}, list);
    var r := ReplayAll(b, list).value;
    var done := {} + Members(list);
    forall id: nat, s: nat, x: nat | Entry(d.disk, id, s, x)
      ensures Newest(d.disk, r.loc, id, s, x)
    {
      assert id in done;
    }
    ParkedNewest(g, d);
    NewestIsUnique(d.disk, r.loc, d.loc);
    forall id | id in d.used && id < |d.infos|
      ensures r.infos[id] == d.infos[id]
    {
      ParkedRecords(g, d, id);
      assert id in done <==> Headed(d.disk, id);
    }
  }

  lemma BlankIsReplayed(disk: seq<Sector>, b: Dev)
    requires GoodHeaders(disk, |b.loc|) && forall x :: 0 <= x < |b.loc| ==> b.loc[x] == Unwritten
    requires |b.infos| == |disk| && forall id :: 0 <= id < |disk| ==> b.infos[id] == InfoOf(disk[id])
    ensures ReplayedAll(disk, b, {})
  {
  }

  /** Every block of the device either carries a header or is claimed by the bitmap. */
  lemma CountsMatch(g: Geometry, d: Dev, list: seq<nat>)
    requires Parked(g, d) && NoDup(list) && forall x :: x in list <==> Headed(d.disk, x)
    ensures |d.used| == |list| + |Claimed(d.disk, d.used, |d.disk|)|
    ensures forall id :: id in Claimed(d.disk, d.used, |d.disk|) <==> id in d.j.unscheduled
  {
    ParkedHeaders(g, d);
    var u := Claimed(d.disk, d.used, |d.disk|);
    forall id
      ensures id in u <==> id in d.j.unscheduled
    {
      if id in d.j.unscheduled { assert Has(d.j, id); }
    }
    MemberCount(list);
    MemberCount(u);
    assert d.used == Members(list) + Members(u);
    assert Members(list) !! Members(u);
  }

  lemma JugglerRestores(g: Geometry, d: Dev, list: seq<nat>, claimed: seq<nat>)
    requires Parked(g, d) && NoDup(list) && forall x :: x in list <==> Headed(d.disk, x)
    ensures Load(Schedule([], claimed, 0), Tickets(d.disk, list)) == Some(d.j.(unscheduled := claimed))
  {
    ParkedHeaders(g, d);
    var blocks := Tickets(d.disk, list);
    TicketsAreScheduled(g, d, list);
    SomeNewest(g, d);
    ReloadRestores(d.j, blocks, claimed);
  }

  lemma SomeNewest(g: Geometry, d: Dev)
    requires Parked(g, d)
    ensures SeqnoIsNewest(d.j)
    ensures exists id :: Headed(d.disk, id) && Seqno(d.disk, id) == d.j.seqno
  {
    var id :| id in d.used && id < |d.infos| && d.infos[id].seqno == d.j.seqno && id !in d.j.unscheduled;
    assert Has(d.j, id);
    var i :| 0 <= i < |d.j.scheduled| && d.j.scheduled[i].id == id;
    assert d.j.scheduled[i] in d.j.scheduled;
    ParkedHeaders(g, d);
    assert Headed(d.disk, id) && Seqno(d.disk, id) == d.j.seqno;
  }

  /** The ticket made from a header is the juggler's, and every scheduled block has one. */
  lemma TicketIsScheduled(g: Geometry, d: Dev, id: nat)
    requires Parked(g, d) && Headed(d.disk, id)
    ensures TicketOf(d.disk, id) in d.j.scheduled
  {
    ParkedHeaders(g, d);
    assert Has(d.j, id);
    var k :| 0 <= k < |d.j.scheduled| && d.j.scheduled[k].id == id;
    assert d.j.scheduled[k] in d.j.scheduled;
  }

  lemma ScheduledIsHeaded(g: Geometry, d: Dev, t: Ticket)
    requires Parked(g, d) && t in d.j.scheduled
    ensures Headed(d.disk, t.id) && TicketOf(d.disk, t.id) == t
  {
    ParkedHeaders(g, d);
    var k :| 0 <= k < |d.j.scheduled| && d.j.scheduled[k] == t;
    assert Has(d.j, t.id);
    assert t.id !in d.j.unscheduled;
  }

  lemma TicketsAreScheduled(g: Geometry, d: Dev, list: seq<nat>)
    requires Parked(g, d) && NoDup(list) && forall x :: x in list <==> Headed(d.disk, x)
    ensures forall t :: t in Tickets(d.disk, list) <==> t in d.j.scheduled
    ensures DistinctPromises(Tickets(d.disk, list))
  {
    hide Parked, Headed;
    var blocks := Tickets(d.disk, list);
    forall i | 0 <= i < |blocks|
      ensures blocks[i] == TicketOf(d.disk, list[|list| - 1 - i]) && blocks[i] in d.j.scheduled
    {
      assert list[|list| - 1 - i] in list;
      TicketIsScheduled(g, d, list[|list| - 1 - i]);
    }
    forall t | t in d.j.scheduled
      ensures t in blocks
    {
      ScheduledIsHeaded(g, d, t);
      var i :| 0 <= i < |list| && list[i] == t.id;
      assert blocks[|list| - 1 - i] == t;
    }
    forall i, k | 0 <= i < k < |blocks|
      ensures blocks[i].next != blocks[k].next
    {
      PromisesDiffer(g, d, blocks[i], blocks[k]);
    }
  }

  lemma PromisesDiffer(g: Geometry, d: Dev, a: Ticket, b: Ticket)
    requires Parked(g, d) && a in d.j.scheduled && b in d.j.scheduled && a.id != b.id
    ensures a.next != b.next
  {
    assert Sorted(d.j.scheduled);
  }

  lemma SortedHasNoDup(disk: seq<Sector>, list: seq<nat>)
    requires SortedBySeqno(disk, list)
    ensures NoDup(list)
  {
  }

  lemma LastIsGreatest(disk: seq<Sector>, list: seq<nat>, id: nat)
    requires SortedBySeqno(disk, list) && id in list && forall x :: x in list ==> Seqno(disk, x) <= Seqno(disk, id)
    ensures list != [] && list[|list| - 1] == id
  {
    hide Seqno;
    var i :| 0 <= i < |list| && list[i] == id;
    assert list[|list| - 1] in list;
  }

  /** The last block of the replay list carries the newest header. */
  lemma LastIsNewest(g: Geometry, d: Dev, list: seq<nat>)
    requires Parked(g, d) && SortedBySeqno(d.disk, list) && forall x :: x in list <==> Headed(d.disk, x)
    ensures list != [] && Headed(d.disk, list[|list| - 1])
    ensures var h := d.disk[list[|list| - 1]].header.value;
            h.used == d.used && h.reserved == d.reserved && h.seqno == d.j.seqno
    ensures DigestStored(d) ==> d.disk[list[|list| - 1]].header.value.seqnos == ScheduledSeqnos(d.j)
  {
    hide MapOk, ListsOk, CountsOk, LastWriter, SealedOk, HistoryOk, Inverts, KeepsLength, SortedBySeqno, JugglerOk;
    SomeNewest(g, d);
    ParkedHeaders(g, d);
    var id :| Headed(d.disk, id) && Seqno(d.disk, id) == d.j.seqno;
    forall x | x in list
      ensures Seqno(d.disk, x) <= d.j.seqno
    {
      if x != id {
        SeqnosDiffer(g, d, x, id);
      }
    }
    LastIsGreatest(d.disk, list, id);
  }

  lemma RecoverUnfolds(g: Geometry, disk: seq<Sector>, order: seq<nat>, tape: seq<Word>, list: seq<nat>, h: Header,
                       d: Dev, j: Schedule)
    requires Scan(disk, order, []) == Ok(list) && list != [] && disk != []
    requires Headed(disk, list[|list| - 1]) && disk[list[|list| - 1]].header.value == h
    requires (forall id :: id in h.used ==> id < |disk|) && |h.used| == |list| + |Claimed(disk, h.used, |disk|)|
    requires ReplayAll(Blank(g, disk, h, tape), list) == Ok(d)
    requires Load(Schedule([], Claimed(disk, h.used, |disk|), 0), Tickets(disk, list)) == Some(j)
    ensures Recover(g, disk, order, tape) == Ok(d.(j := j))
  {
    hide Scan, Headed, ReplayAll, Load, Claimed, Tickets, Blank;
  }

  /** Recovery: scanning the headers in any order and replaying them by seqno gives back the map, the records, the
      juggler and the contents as they were when the newest macroblock was written. */
  lemma RecoverRestores(g: Geometry, d: Dev, order: seq<nat>, tape: seq<Word>)
    requires Recoverable(g, d) && ScanOrder(d, order)
    ensures Recover(g, d.disk, order, tape).Ok?
    ensures SameDevice(g, d, Recover(g, d.disk, order, tape).value)
  {
    hide Parked, Scan, ReplayAll, Load, Claimed, Capacity, Tickets, Recover, Recoverable, ScanOrder, Blank;
    ScanFinds(g, d, order);
    var list := Scan(d.disk, order, []).value;
    SortedHasNoDup(d.disk, list);
    LastIsNewest(g, d, list);
    var h := d.disk[list[|list| - 1]].header.value;
    CountsMatch(g, d, list);
    ReplayRestores(g, d, list, tape, h);
    var claimed := Claimed(d.disk, d.used, |d.disk|);
    JugglerRestores(g, d, list, claimed);
    RecoverUnfolds(g, d.disk, order, tape, list, h, ReplayAll(Blank(g, d.disk, h, tape), list).value,
                   d.j.(unscheduled := claimed));
    BlankFields(g, d.disk, h, tape);
  }

  /** The same device has the same contents. */
  lemma SameContents(g: Geometry, p: Dev, r: Dev)
    requires Recoverable(g, p) && SameDevice(g, p, r)
    ensures Fits(g, r) && Contents(g, r) == Contents(g, p)
  {
    forall x | 0 <= x < |p.loc|
      ensures Content(g, r, x) == Content(g, p, x)
    {
      if p.loc[x].At? {
        HeadedIfLive(g, p, x);
      }
    }
  }

  lemma BlankFields(g: Geometry, disk: seq<Sector>, h: Header, tape: seq<Word>)
    ensures var b := Blank(g, disk, h, tape);
            && b.disk == disk && b.used == h.used && b.reserved == h.reserved && b.cur == None
            && !b.ready && !b.spoiled && b.sealed == [] && b.tail == None
            && |b.ram| == g.mmpm && forall k :: 0 <= k < g.mmpm ==> |b.ram[k]| == g.size
  {
  }

  lemma ScanFinds(g: Geometry, d: Dev, order: seq<nat>)
    requires Recoverable(g, d) && ScanOrder(d, order)
    ensures Scan(d.disk, order, []).Ok?
    ensures var list := Scan(d.disk, order, []).value;
            SortedBySeqno(d.disk, list) && forall x :: x in list <==> Headed(d.disk, x)
    ensures Parked(g, d) && |d.disk| == |d.infos| && forall id :: id in d.used ==> id < |d.disk|
  {
    ParkedHeaders(g, d);
    ScanSorts(d.disk, order, []);
  }

  /** The seqnos whose digest the newest header stores; scubed3_init compares it with that of the reloaded juggler. */
  function StoredSeqnos(disk: seq<Sector>, order: seq<nat>): seq<nat> {
    match Scan(disk, order, [])
    case Fail(_) => []
    case Ok(list) =>
      if list != [] && Headed(disk, list[|list| - 1]) then disk[list[|list| - 1]].header.value.seqnos else []
  }

  /** The digest check at open never warns about what a completed write left (see Steps.WriteParks). */
  lemma DigestAgrees(g: Geometry, d: Dev, order: seq<nat>, tape: seq<Word>)
    requires Recoverable(g, d) && ScanOrder(d, order) && DigestStored(d)
    ensures Recover(g, d.disk, order, tape).Ok?
    ensures StoredSeqnos(d.disk, order) == ScheduledSeqnos(Recover(g, d.disk, order, tape).value.j)
  {
    RecoverRestores(g, d, order, tape);
    ScanFinds(g, d, order);
    LastIsNewest(g, d, Scan(d.disk, order, []).value);
  }

  // ----- any file -----

  /** Indices beyond the end of the device are passed over. */
  lemma {:induction false} ReplayPassesOver(d: Dev, id: nat, k: nat)
    requires id < |d.infos| && forall i :: k <= i < |d.infos[id].indices| ==> d.infos[id].indices[i] >= |d.loc|
    ensures ReplayFrom(d, id, k) == Ok(d)
    decreases |d.infos[id].indices| - k
  {
    if k < |d.infos[id].indices| {
      ReplayPassesOver(d, id, k + 1);
    }
  }

  /** A mesoblock that is in the block already trips the assertion when it is listed again. */
  lemma {:induction false} ReplayTrips(d: Dev, id: nat, k: nat, m: nat)
    requires id < |d.infos| && k <= m < |d.infos[id].indices| && d.infos[id].indices[m] < |d.loc|
    requires d.loc[d.infos[id].indices[m]].At? && d.loc[d.infos[id].indices[m]].id == id
    ensures ReplayFrom(d, id, k) == Fail(AssertionFailed)
    decreases m - k
  {
    if k < m && ReplaySlot(d, id, k).Ok? {
      ReplayTrips(ReplaySlot(d, id, k).value, id, k + 1, m);
    }
  }

  /** So, whatever is on file, the replay of a block succeeds only if no mesoblock of the device is listed twice, and
      none was replayed from this block before. */
  lemma {:induction false} ReplayedOnce(d: Dev, id: nat, k: nat)
    requires id < |d.infos| && ReplayFrom(d, id, k).Ok?
    ensures forall i, m :: k <= i < m < |d.infos[id].indices| && d.infos[id].indices[m] < |d.loc| ==>
      d.infos[id].indices[i] != d.infos[id].indices[m]
    ensures forall m :: k <= m < |d.infos[id].indices| && d.infos[id].indices[m] < |d.loc| ==>
      d.loc[d.infos[id].indices[m]].At? ==> d.loc[d.infos[id].indices[m]].id != id
    decreases |d.infos[id].indices| - k
  {
    var l := d.infos[id].indices;
    forall m: nat | k <= m < |l| && l[m] < |d.loc| && d.loc[l[m]].At? && d.loc[l[m]].id == id
      ensures false
    {
      ReplayTrips(d, id, k, m);
    }
    if k < |l| {
      ReplayedOnce(ReplaySlot(d, id, k).value, id, k + 1);
    }
  }

  /** Whatever is on file: if opening succeeds, there is a header, no two have the same seqno, and the newest of them
      decides; its bitmap marks every macroblock that has a header, and only such as exist. */
  lemma OpenedIsConsistent(g: Geometry, disk: seq<Sector>, order: seq<nat>, tape: seq<Word>)
    requires NoDup(order) && (forall id: nat :: id in order <==> id < |disk|) && Recover(g, disk, order, tape).Ok?
    ensures NoTwins(disk, order, [])
    ensures exists b: nat :: Decides(g, disk, b, Recover(g, disk, order, tape).value)
  {
    hide ReplayAll, Load, Tickets, Claimed, Seqno, Capacity, Scan;
    ScanIsExact(disk, order, []);
    var list := Scan(disk, order, []).value;
    var b := list[|list| - 1];
    assert b in list;
    SortedHasNoDup(disk, list);
    var h := disk[b].header.value;
    forall id: nat | Headed(disk, id)
      ensures Seqno(disk, id) <= Seqno(disk, b)
    {
      assert Listing(disk, order, [], id);
      var i :| 0 <= i < |list| && list[i] == id;
    }
    AllMarked(disk, order, list, h.used);
    assert Decides(g, disk, b, Recover(g, disk, order, tape).value);
  }

  ghost predicate Decides(g: Geometry, disk: seq<Sector>, b: nat, r: Dev) {
    && Headed(disk, b) && (forall id: nat :: Headed(disk, id) ==> Seqno(disk, id) <= Seqno(disk, b))
    && r.used == disk[b].header.value.used && r.reserved == disk[b].header.value.reserved
    && |r.loc| == Capacity(g, |r.used|, r.reserved) && r.disk == disk && r.cur == None && !r.ready && !r.updated
    && (forall id: nat :: Headed(disk, id) ==> id in r.used) && (forall id :: id in r.used ==> id < |disk|)
  }

  /** As many blocks as the bitmap marks, each with a header or without: so none with a header is left out. */
  lemma AllMarked(disk: seq<Sector>, order: seq<nat>, list: seq<nat>, used: set<nat>)
    requires NoDup(list) && (forall x: nat :: x in list <==> Headed(disk, x))
    requires forall id :: id in used ==> id < |disk|
    requires |used| == |list| + |Claimed(disk, used, |disk|)|
    ensures forall id: nat :: Headed(disk, id) ==> id in used
  {
    var u := Claimed(disk, used, |disk|);
    MemberCount(list);
    MemberCount(u);
    var both := used * Members(list);
    assert used == both + Members(u) && both !! Members(u);
    if both != Members(list) {
      var x :| x in Members(list) && x !in both;
      SubsetSize(both, Members(list) - {x});
    }
  }
}
