/** The resize command: blocks join the device, its map grows, and everything else stays as it was. */
module Resizing {
  import opened Prelude
  import opened Random
  import opened Juggler
  import opened Draws
  import opened Device
  import opened Bookkeeping
  import opened Steps
  import opened Requests

  /** Blocks that the device does not have, each once (see Ownership.Pool.Allocate). */
  ghost predicate Unowned(d: Dev, ids: seq<nat>) {
    NoDup(ids) && forall id :: id in ids ==> id < |d.disk| && id !in d.used
  }

  /** Block records after the blocks of ids were prepared. */
  ghost predicate Prepared(infos: seq<Info>, ids: seq<nat>, infos': seq<Info>) {
    |infos'| == |infos|
    && forall id :: 0 <= id < |infos| ==> infos'[id] == if id in ids then Info(0, 0, [], 0) else infos[id]
  }

  lemma {:induction false} PushedOnce(ids: seq<nat>, u: seq<nat>)
    requires NoDup(ids) && NoDup(u) && forall id :: id in ids ==> id !in u
    ensures NoDup(Pushed(ids, u))
  {
    if ids != [] {
      forall id | id in ids[1..]
        ensures id != ids[0]
      {
        var k :| 0 <= k < |ids[1..]| && ids[1..][k] == id;
        assert ids[k + 1] == id;
      }
      assert [ids[0]] + u != [] && forall k :: 0 < k <= |u| ==> ([ids[0]] + u)[k] == u[k - 1] && u[k - 1] in u;
      PushedOnce(ids[1..], [ids[0]] + u);
    }
  }

  /** The rest of a list without duplicates. */
  lemma RestOnce(ids: seq<nat>)
    requires NoDup(ids) && ids != []
    ensures NoDup(ids[1..]) && ids[0] in ids && ids[0] !in ids[1..]
    ensures Members(ids) == {ids[0]} + Members(ids[1..])
    ensures forall id :: id in ids <==> id == ids[0] || id in ids[1..]
  {
    assert ids == [ids[0]] + ids[1..];
    forall k | 0 <= k < |ids[1..]|
      ensures ids[1..][k] != ids[0]
    {
      assert ids[k + 1] == ids[1..][k];
    }
  }

  lemma PreparedMore(infos: seq<Info>, ids: seq<nat>, infos': seq<Info>)
    requires ids != [] && ids[0] < |infos| && Prepared(infos[ids[0] := Info(0, 0, [], 0)], ids[1..], infos')
    ensures Prepared(infos, ids, infos')
  {
    assert ids == [ids[0]] + ids[1..];
  }

  lemma AdoptJoins(d: Dev, ids: seq<nat>)
    requires Unowned(d, ids) && |d.infos| == |d.disk| && ids != []
    ensures Adopt(d, ids[0]) == Ok(d.(infos := d.infos[ids[0] := Info(0, 0, [], 0)], used := d.used + {ids[0]},
                                      j := d.j.(unscheduled := [ids[0]] + d.j.unscheduled)))
    ensures Unowned(Adopt(d, ids[0]).value, ids[1..]) && ids[0] < |d.infos|
    ensures |d.used + {ids[0]}| == |d.used| + 1 && d.used + {ids[0]} + Members(ids[1..]) == d.used + Members(ids)
  {
    hide NoDup;
    RestOnce(ids);
  }

  lemma {:induction false} AllocateJoins(d: Dev, ids: seq<nat>)
    requires Unowned(d, ids) && |d.infos| == |d.disk|
    ensures Allocate(d, ids).Ok?
    ensures var r := Allocate(d, ids).value;
      && r == d.(infos := r.infos, j := d.j.(unscheduled := Pushed(ids, d.j.unscheduled)), used := r.used)
      && r.used == d.used + Members(ids) && |r.used| == |d.used| + |ids| && Prepared(d.infos, ids, r.infos)
    decreases |ids|
  {
    hide NoDup, Prepared, Unowned, Adopt, Members;
    if ids == [] {
      NothingPrepared(d.infos);
    } else {
      AdoptJoins(d, ids);
      AllocateJoins(Adopt(d, ids[0]).value, ids[1..]);
      PreparedMore(d.infos, ids, Allocate(d, ids).value.infos);
    }
  }

  lemma NothingPrepared(infos: seq<Info>)
    ensures Prepared(infos, [], infos) && Members<nat>([]) == {}
  {
  }

  // ----- what resizing keeps -----

  /** The command neither refuses nor gives up. */
  predicate Grows(g: Geometry, d: Dev, ids: seq<nat>, reserved: nat) {
    && ids != [] && reserved <= |d.used| + |ids|
    && |d.loc| <= Capacity(g, |d.used| + |ids|, reserved)
  }

  /** An open device after it has grown. */
  ghost predicate Joined(g: Geometry, d: Dev, ids: seq<nat>, reserved: nat, r: Dev) {
    && r == d.(loc := r.loc, infos := r.infos, j := d.j.(unscheduled := Pushed(ids, d.j.unscheduled)),
               used := d.used + Members(ids), reserved := reserved, updated := true)
    && |r.used| == |d.used| + |ids| && Prepared(d.infos, ids, r.infos)
    && |r.loc| == Capacity(g, |r.used|, reserved) >= |d.loc|
    && (forall x :: 0 <= x < |r.loc| ==> r.loc[x] == if x < |d.loc| then d.loc[x] else Unwritten)
  }

  lemma ResizeJoins(g: Geometry, d: Dev, ids: seq<nat>, reserved: nat)
    requires Fits(g, d) && d.cur.Some? && Unowned(d, ids) && Grows(g, d, ids, reserved)
    ensures Resize(g, d, ids, reserved).Ok? && Joined(g, d, ids, reserved, Resize(g, d, ids, reserved).value)
  {
    hide Capacity, Allocate, Pushed;
    AllocateJoins(d, ids);
  }

  lemma JoinedLive(g: Geometry, d: Dev, ids: seq<nat>, reserved: nat, r: Dev)
    requires Joined(g, d, ids, reserved, r)
    ensures forall id: nat :: Live(r.loc, id) == Live(d.loc, id)
  {
    hide Pushed, Capacity, Prepared;
  }

  lemma NewBlocksAreEmpty(g: Geometry, d: Dev, ids: seq<nat>)
    requires Core(g, d) && Unowned(d, ids)
    ensures forall id :: id in ids ==>
      Live(d.loc, id) == {} && !Headed(d.disk, id) && Some(id) != d.cur && !Has(d.j, id)
  {
    hide ListsOk, CountsOk, LastWriter, SealedOk, HistoryOk;
  }

  lemma JoinedMap(g: Geometry, d: Dev, ids: seq<nat>, reserved: nat, r: Dev)
    requires Core(g, d) && d.cur.Some? && Unowned(d, ids) && Joined(g, d, ids, reserved, r)
    ensures MapOk(r.loc, r.infos, r.used) && CurOk(r.loc, r.infos, r.used, r.cur)
  {
    hide ListsOk, CountsOk, DiskOk, LastWriter, JugglerOk, SealedOk, HistoryOk, Capacity, Pushed, Live, Has, Inverts,
         KeepsLength, Sized, NoDup;
  }

  lemma JoinedCounts(g: Geometry, d: Dev, ids: seq<nat>, reserved: nat, r: Dev)
    requires Core(g, d) && d.cur.Some? && Unowned(d, ids) && Joined(g, d, ids, reserved, r)
    ensures CountsOk(r.loc, r.infos, r.used, r.cur)
  {
    hide MapOk, ListsOk, CurOk, DiskOk, LastWriter, JugglerOk, SealedOk, HistoryOk, Capacity, Pushed, Live, Has,
         Inverts, KeepsLength, NoDup;
    NewBlocksAreEmpty(g, d, ids);
    JoinedLive(g, d, ids, reserved, r);
  }

  lemma JoinedLists(g: Geometry, d: Dev, ids: seq<nat>, reserved: nat, r: Dev)
    requires Core(g, d) && d.cur.Some? && Unowned(d, ids) && Joined(g, d, ids, reserved, r)
    ensures Sized(g, r) && ListsOk(g.mmpm, r.infos, r.used)
  {
    hide MapOk, CountsOk, CurOk, DiskOk, LastWriter, JugglerOk, SealedOk, HistoryOk, Capacity, Pushed, Inverts,
         KeepsLength;
  }

  lemma JoinedDisk(g: Geometry, d: Dev, ids: seq<nat>, reserved: nat, r: Dev)
    requires Core(g, d) && d.cur.Some? && Unowned(d, ids) && Joined(g, d, ids, reserved, r)
    ensures DiskOk(g.mmpm, r.infos, r.disk, r.used, r.cur, r.j)
  {
    hide ListsOk, CountsOk, LastWriter, JugglerOk, SealedOk, HistoryOk, Capacity, Live, Has, Inverts, KeepsLength;
    NewBlocksAreEmpty(g, d, ids);
  }

  lemma JoinedWriter(g: Geometry, d: Dev, ids: seq<nat>, reserved: nat, r: Dev)
    requires Core(g, d) && d.cur.Some? && Unowned(d, ids) && Joined(g, d, ids, reserved, r)
    ensures LastWriter(r.loc, r.infos, r.disk, r.used, r.cur)
  {
    hide ListsOk, CountsOk, CurOk, JugglerOk, SealedOk, HistoryOk, Capacity, Live, Has, NoDup, Inverts, KeepsLength;
    NewBlocksAreEmpty(g, d, ids);
    forall id, k | id in r.used && id < |r.disk| && Some(id) != r.cur && r.disk[id].header.Some?
                   && 0 <= k < |r.disk[id].header.value.indices|
      ensures Superseded(r.loc, r.infos, r.cur, id, k, r.disk[id].header.value)
    {
      assert Headed(d.disk, id);
      assert Superseded(d.loc, d.infos, d.cur, id, k, d.disk[id].header.value);
    }
  }

  lemma JoinedValid(g: Geometry, d: Dev, ids: seq<nat>)
    requires Core(g, d) && Unowned(d, ids) && ids != []
    ensures var j := d.j.(unscheduled := Pushed(ids, d.j.unscheduled)); Valid(j) && NotStuck(j)
  {
    hide MapOk, ListsOk, CountsOk, CurOk, DiskOk, LastWriter, SealedOk, HistoryOk, Live, Sized, Inverts, KeepsLength,
         Pushed, Sorted, DistinctTickets;
    NewBlocksAreEmpty(g, d, ids);
    PushedOnce(ids, d.j.unscheduled);
    var u := Pushed(ids, d.j.unscheduled);
    assert ids[0] in u;
    forall i, k | 0 <= i < |d.j.scheduled| && 0 <= k < |u|
      ensures d.j.scheduled[i].id != u[k]
    {
      assert u[k] in u;
      assert Has(d.j, d.j.scheduled[i].id);
    }
  }

  lemma JoinedJuggler(g: Geometry, d: Dev, ids: seq<nat>, reserved: nat, r: Dev)
    requires Core(g, d) && d.cur.Some? && Unowned(d, ids) && ids != [] && Joined(g, d, ids, reserved, r)
    ensures JugglerOk(r.infos, r.used, r.cur, r.j) && SealedOk(r.sealed, r.cur, r.j) && TailOf(r.j) == TailOf(d.j)
  {
    hide MapOk, ListsOk, CountsOk, CurOk, DiskOk, LastWriter, HistoryOk, Capacity, Live, Sized, Inverts, KeepsLength,
         Pushed, Valid, NotStuck, NoDup;
    NewBlocksAreEmpty(g, d, ids);
    JoinedValid(g, d, ids);
    forall t | t in d.j.scheduled
      ensures t.id !in ids
    {
      var i :| 0 <= i < |d.j.scheduled| && d.j.scheduled[i] == t;
      assert Has(d.j, t.id);
    }
    forall id
      ensures Has(r.j, id) <==> Has(d.j, id) || id in ids
    {
    }
  }

  lemma JoinedHistory(g: Geometry, d: Dev, ids: seq<nat>, reserved: nat, r: Dev)
    requires Core(g, d) && d.cur.Some? && Joined(g, d, ids, reserved, r)
    ensures HistoryOk(g, |r.loc|, r.disk, r.used, r.reserved, r.cur)
  {
    hide MapOk, ListsOk, CountsOk, CurOk, DiskOk, LastWriter, JugglerOk, SealedOk, Capacity, Pushed, Tells, Prepared;
    forall b: nat | Headed(d.disk, b)
      ensures Followed(d.disk, b) || d.cur.value in d.disk[b].header.value.used
      ensures Tells(g, b, d.disk[b].header.value) && Grown(g, d.disk[b].header.value, r.used, |r.loc|)
    {
      assert Followed(d.disk, b) || !Followed(d.disk, b);
    }
  }

  lemma JoinedOpens(g: Geometry, d: Dev, ids: seq<nat>, reserved: nat, r: Dev)
    requires Open(g, d) && Unowned(d, ids) && ids != [] && Joined(g, d, ids, reserved, r)
    ensures Open(g, r)
  {
    hide MapOk, ListsOk, CountsOk, CurOk, DiskOk, LastWriter, JugglerOk, SealedOk, HistoryOk, Capacity, Inverts,
         KeepsLength, Live, Pushed, Sized, NoDup;
    OpenedBy(g, d);
    JoinedMap(g, d, ids, reserved, r);
    JoinedCounts(g, d, ids, reserved, r);
    JoinedLists(g, d, ids, reserved, r);
    JoinedDisk(g, d, ids, reserved, r);
    JoinedWriter(g, d, ids, reserved, r);
    JoinedJuggler(g, d, ids, reserved, r);
    JoinedHistory(g, d, ids, reserved, r);
    JoinedLive(g, d, ids, reserved, r);
  }

  /** Resizing an open device keeps it open and keeps its contents; behind them it now reads as zeros.  It ends the
      program exactly if the device would shrink. */
  lemma ResizeKeepsOpen(g: Geometry, d: Dev, ids: seq<nat>, reserved: nat)
    requires Open(g, d) && Unowned(d, ids) && ids != [] && reserved <= |d.used| + |ids|
    ensures Resize(g, d, ids, reserved).Ok? <==> Grows(g, d, ids, reserved)
    ensures var r := Resize(g, d, ids, reserved);
      r.Ok? ==>
        && Open(g, r.value) && r.value.updated && r.value.ready == d.ready
        && Joined(g, d, ids, reserved, r.value)
        && Contents(g, r.value) == Contents(g, d) + Untouched(g, |r.value.loc| - |d.loc|)
  {
    hide Core, Contents, Joined, Allocate, Pushed, Capacity, NoDup;
    OpenedBy(g, d);
    AllocateJoins(d, ids);
    if Grows(g, d, ids, reserved) {
      ResizeJoins(g, d, ids, reserved);
      var r := Resize(g, d, ids, reserved).value;
      JoinedOpens(g, d, ids, reserved, r);
      JoinedContents(g, d, ids, reserved, r);
    }
  }

  lemma JoinedContents(g: Geometry, d: Dev, ids: seq<nat>, reserved: nat, r: Dev)
    requires Core(g, d) && d.cur.Some? && Unowned(d, ids) && Joined(g, d, ids, reserved, r) && Fits(g, r)
    ensures Contents(g, r) == Contents(g, d) + Untouched(g, |r.loc| - |d.loc|)
  {
    hide ListsOk, CountsOk, DiskOk, LastWriter, JugglerOk, SealedOk, HistoryOk, Capacity, Inverts, KeepsLength, Pushed,
         Live;
    forall x: nat | x < |r.loc|
      ensures Content(g, r, x) == if x < |d.loc| then Content(g, d, x) else Zeros(g.size)
    {
    }
  }
}
