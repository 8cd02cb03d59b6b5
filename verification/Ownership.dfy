/** Which device owns which macroblock (src/blockio.c): opening, loading, allocating and closing devices on one
    backing file.  Every call runs under unallocated_mutex, so each is one step.  What a device makes of the blocks it
    opens with is in module Volume. */
module Ownership {
  import opened Prelude
  import opened Random
  import opened Draws
  import opened Device
  import opened Recovery

  /** The parts of blockio_dev_t that hold macroblocks; juggled is what the juggler lists. */
  class Handle {
    var replay: seq<nat>
    var juggled: seq<nat>
    var status: set<nat>
    var noMacroblocks: nat

    constructor ()
      ensures replay == [] && juggled == [] && status == {} && noMacroblocks == 0
    {
      replay, juggled, status, noMacroblocks := [], [], {}, 0;
    }

    predicate Lists(id: nat)
      reads `replay, `juggled
    {
      id in replay || id in juggled
    }

    /** No macroblock is listed twice. */
    ghost predicate Once()
      reads `replay, `juggled
    {
      NoDup(replay) && NoDup(juggled) && forall id :: id in replay ==> id !in juggled
    }

    /** The bitmap marks exactly the macroblocks of the device, and they are counted. */
    ghost predicate Consistent()
      reads this
    {
      (forall id :: id in status <==> Lists(id)) && noMacroblocks == |status|
    }
  }

  /** The macroblocks from i on that no device owns. */
  function FreeFrom(owner: seq<Handle?>, i: nat): (f: seq<nat>)
    decreases |owner| - i
  {
    if i >= |owner| then [] else (if owner[i] == null then [i] else []) + FreeFrom(owner, i + 1)
  }

  lemma {:induction false} FreeIsLocal(owner: seq<Handle?>, owner': seq<Handle?>, i: nat)
    requires |owner| == |owner'| && forall k :: i <= k < |owner| ==> owner[k] == owner'[k]
    ensures FreeFrom(owner, i) == FreeFrom(owner', i)
    decreases |owner| - i
  {
    if i < |owner| {
      FreeIsLocal(owner, owner', i + 1);
    }
  }

  /** One step of the scan: a free macroblock is put in its place if it has a header, and any other is passed over. */
  lemma ScanStep(mine: seq<Sector>, owner: seq<Handle?>, i: nat, list: seq<nat>)
    requires i < |owner| == |mine|
    ensures owner[i] != null || !Headed(mine, i)
      ==> Scan(mine, FreeFrom(owner, i), list) == Scan(mine, FreeFrom(owner, i + 1), list)
    ensures owner[i] == null && Headed(mine, i) ==>
      Scan(mine, FreeFrom(owner, i), list) == match SortToReplay(mine, list, i, 0)
        case Ok(l) => Scan(mine, FreeFrom(owner, i + 1), l)
        case Fail(w) => Fail(w)
  {
    if owner[i] == null {
      assert FreeFrom(owner, i)[0] == i && FreeFrom(owner, i)[1..] == FreeFrom(owner, i + 1);
    } else {
      assert FreeFrom(owner, i) == FreeFrom(owner, i + 1);
    }
  }

  lemma NothingLeft(mine: seq<Sector>, owner: seq<Handle?>, i: nat, list: seq<nat>)
    requires i == |owner|
    ensures Scan(mine, FreeFrom(owner, i), list) == Ok(list)
  {
  }

  lemma {:induction false} SortKeepsMembers(disk: seq<Sector>, list: seq<nat>, id: nat, i: nat)
    requires i <= |list| && NoDup(list) && id !in list && SortToReplay(disk, list, id, i).Ok?
    ensures var l := SortToReplay(disk, list, id, i).value; NoDup(l) && forall x :: x in l <==> x in list || x == id
    decreases |list| - i
  {
    if i < |list| && Seqno(disk, id) > Seqno(disk, list[i]) {
      SortKeepsMembers(disk, list, id, i + 1);
    }
  }

  function Without(s: seq<nat>, id: nat): (r: seq<nat>)
    ensures forall x :: x in r ==> x in s
  {
    if s == [] then [] else if s[0] == id then s[1..] else [s[0]] + Without(s[1..], id)
  }

  lemma {:induction false} WithoutIsExact(s: seq<nat>, id: nat)
    requires NoDup(s)
    ensures NoDup(Without(s, id)) && forall x :: x in Without(s, id) <==> x in s && x != id
    ensures id in s ==> |Without(s, id)| == |s| - 1
  {
    if s != [] {
      assert forall i :: 0 <= i < |s| - 1 ==> s[1..][i] == s[i + 1];
      assert s == [s[0]] + s[1..] && s[0] !in s[1..];
      if s[0] != id {
        WithoutIsExact(s[1..], id);
      }
    }
  }

  /** In a list without duplicates, taking out the element at i. */
  lemma {:induction false} WithoutAt(s: seq<nat>, i: nat)
    requires i < |s| && NoDup(s)
    ensures Without(s, s[i]) == Cut(s, i)
  {
    if i > 0 {
      assert s[0] != s[i];
      WithoutAt(s[1..], i - 1);
      assert Cut(s, i) == [s[0]] + Cut(s[1..], i - 1);
    } else {
      assert Cut(s, 0) == s[1..];
    }
  }

  class Pool {
    var unallocated: seq<nat>
    var owner: seq<Handle?>      // the dev field of every blockio_info_t
    ghost var devices: set<Handle>

    ghost predicate Owns(h: Handle)
      reads this, h`replay, h`juggled
    {
      h.Once() && forall id: nat :: h.Lists(id) <==> id < |owner| && owner[id] == h
    }

    /** Every macroblock is either unallocated, and then has no device, or in one list of its device. */
    ghost predicate Valid()
      reads this, devices
    {
      && NoDup(unallocated) && (forall id: nat :: id in unallocated <==> id < |owner| && owner[id] == null)
      && (forall id :: 0 <= id < |owner| && owner[id] != null ==> owner[id] in devices)
      && forall h :: h in devices ==> Owns(h)
    }

    /** The end of blockio_init_file */
    constructor (n: nat)
      ensures Valid() && |owner| == n && devices == {} && unallocated == seq(n, i => i)
    {
      unallocated := seq(n, i => i);
      owner := seq(n, _ => null);
      devices := {};
      new;
      assert forall id: nat :: id < n ==> unallocated[id] == id && owner[id] == null;
    }

    /** The bookkeeping of blockio_dev_scan_header, for a macroblock whose header is ours. */
    method Take(h: Handle, mine: seq<Sector>, id: nat) returns (ok: bool)
      requires Valid() && h in devices && id < |owner| && owner[id] == null
      modifies this, h
      ensures devices == old(devices) && |owner| == |old(owner)|
      ensures ok == SortToReplay(mine, old(h.replay), id, 0).Ok?
      ensures ok ==> Valid() && h.replay == SortToReplay(mine, old(h.replay), id, 0).value
      ensures ok ==> owner == old(owner)[id := h]
      ensures h.juggled == old(h.juggled) && h.status == old(h.status) && h.noMacroblocks == old(h.noMacroblocks)
    {
      var list := SortToReplay(mine, h.replay, id, 0);
      ok := list.Ok?;
      if ok {
        assert !h.Lists(id);
        SortKeepsMembers(mine, h.replay, id, 0);
        WithoutIsExact(unallocated, id);
        unallocated := Without(unallocated, id);
        h.replay := list.value;
        owner := owner[id := h];
        assert forall x :: h.Lists(x) <==> old(h.Lists(x)) || x == id;
      }
    }

    /** The bookkeeping of taking a macroblock without a header into the juggler. */
    method Adopt(h: Handle, id: nat)
      requires Valid() && h in devices && id < |owner| && owner[id] == null
      modifies this, h`juggled
      ensures Valid() && devices == old(devices)
      ensures owner == old(owner)[id := h]
      ensures h.juggled == [id] + old(h.juggled)
      ensures |unallocated| == |old(unallocated)| - 1 && unallocated == Without(old(unallocated), id)
    {
      WithoutIsExact(unallocated, id);
      assert !h.Lists(id);
      unallocated := Without(unallocated, id);
      owner := owner[id := h];
      h.juggled := [id] + h.juggled;
      assert forall x :: h.Lists(x) <==> old(h.Lists(x)) || x == id;
    }

    /** blockio_dev_init: the macroblocks of a new handle, from the headers that its key can read.  A FATAL exit or a
        failed assertion gives false. */
    method DevInit(h: Handle, mine: seq<Sector>) returns (ok: bool)
      requires Valid() && h !in devices && |mine| == |owner|
      requires h.replay == [] && h.juggled == [] && h.status == {} && h.noMacroblocks == 0
      modifies this, h
      ensures ok ==> Valid() && h.Consistent() && devices == old(devices) + {h}
      ensures ok ==> Scan(mine, FreeFrom(old(owner), 0), []) == Ok(h.replay)
      ensures ok ==> h.juggled == if h.replay == [] then [] else Claimed(mine, h.status, |mine|)
      ensures ok ==> |owner| == |old(owner)|
      ensures ok ==> forall id :: 0 <= id < |owner| && old(owner[id]) != null ==> owner[id] == old(owner[id])
    {
      hide Scan, FreeFrom, SortToReplay, Claimed;
      devices := devices + {h};
      ok := ScanHeaders(h, mine);
      if !ok || h.replay == [] {
        return;
      }
      var newest := h.replay[|h.replay| - 1];
      assert h.Lists(newest);
      h.status, h.noMacroblocks := mine[newest].header.value.used, |mine[newest].header.value.used|;
      ok := ClaimAll(h, mine);
    }

    /** The first half: blockio_dev_scan_header on every macroblock. */
    method ScanHeaders(h: Handle, mine: seq<Sector>) returns (ok: bool)
      requires Valid() && h in devices && |mine| == |owner| && h.replay == [] && h.juggled == []
      modifies this, h
      ensures devices == old(devices) && |owner| == |old(owner)|
      ensures h.juggled == [] && h.status == old(h.status) && h.noMacroblocks == old(h.noMacroblocks)
      ensures ok ==> Valid() && Scan(mine, FreeFrom(old(owner), 0), []) == Ok(h.replay)
      ensures ok ==> forall id :: 0 <= id < |owner| && old(owner[id]) != null ==> owner[id] == old(owner[id])
      ensures ok ==> forall id :: 0 <= id < |owner| && owner[id] == h ==> Headed(mine, id)
      ensures ok ==> forall id :: 0 <= id < |owner| && owner[id] == null ==> !Headed(mine, id)
    {
      hide Scan, FreeFrom, SortToReplay, Handle.Once;
      ghost var order := FreeFrom(owner, 0);
      assert forall id :: 0 <= id < |owner| && owner[id] == h ==> h.Lists(id);
      var i := 0;
      ok := true;
      while i < |owner|
        invariant 0 <= i <= |owner| == |mine| && ok
        invariant Valid() && devices == old(devices)
        invariant Scan(mine, FreeFrom(owner, i), h.replay) == Scan(mine, order, [])
        invariant h.juggled == [] && h.status == old(h.status) && h.noMacroblocks == old(h.noMacroblocks)
        invariant forall id :: 0 <= id < |owner| && old(owner[id]) != null ==> owner[id] == old(owner[id])
        invariant forall id :: 0 <= id < |owner| && owner[id] == h ==> Headed(mine, id)
        invariant forall id :: 0 <= id < i && owner[id] == null ==> !Headed(mine, id)
      {
        ScanStep(mine, owner, i, h.replay);
        if owner[i] == null && Headed(mine, i) {
          ghost var was := owner;
          ok := Take(h, mine, i);
          if !ok {
            return;
          }
          FreeIsLocal(was, owner, i + 1);
        }
        i := i + 1;
      }
      NothingLeft(mine, owner, i, h.replay);
    }

    /** The body of the second loop. */
    method ClaimOne(h: Handle, mine: seq<Sector>, i: nat) returns (ok: bool)
      requires Valid() && h in devices && i < |owner| == |mine| && h.juggled == Claimed(mine, h.status, i)
      requires owner[i] == h ==> Headed(mine, i)
      requires owner[i] == null ==> !Headed(mine, i)
      modifies this, h`juggled
      ensures ok ==> Valid() && devices == old(devices) && h.juggled == Claimed(mine, h.status, i + 1)
      ensures ok ==> owner == old(owner)[i := if i in h.status then h else old(owner[i])]
      ensures ok && i in h.status ==> old(owner[i]) == null || old(owner[i]) == h
    {
      hide Owns;
      ok := true;
      if i in h.status {
        if owner[i] == null {
          Adopt(h, i);
        } else {
          ok := owner[i] == h;
        }
      }
    }

    /** The second half: what the bitmap claims without a header, and the count. */
    method ClaimAll(h: Handle, mine: seq<Sector>) returns (ok: bool)
      requires Valid() && h in devices && |mine| == |owner| && h.juggled == [] && h.noMacroblocks == |h.status|
      requires forall id :: 0 <= id < |owner| && owner[id] == h ==> Headed(mine, id)
      requires forall id :: 0 <= id < |owner| && owner[id] == null ==> !Headed(mine, id)
      modifies this, h`juggled
      ensures ok ==> Valid() && h.Consistent() && devices == old(devices) && |owner| == |old(owner)|
      ensures ok ==> h.juggled == Claimed(mine, h.status, |mine|)
      ensures ok ==> forall id :: 0 <= id < |owner| && old(owner[id]) != null ==> owner[id] == old(owner[id])
    {
      hide NoDup, Headed;
      if exists id :: id in h.status && id >= |owner| {
        return false;
      }
      var i := 0;
      while i < |owner|
        invariant 0 <= i <= |owner| == |mine|
        invariant Valid() && devices == old(devices)
        invariant h.juggled == Claimed(mine, h.status, i)
        invariant forall id :: 0 <= id < |owner| && old(owner[id]) != null ==> owner[id] == old(owner[id])
        invariant forall id :: i <= id < |owner| ==> owner[id] == old(owner[id])
        invariant forall id :: id in h.status && id < i ==> owner[id] == h
      {
        ok := ClaimOne(h, mine, i);
        if !ok {
          return;
        }
        i := i + 1;
      }
      ok := |h.status| == |h.replay| + |h.juggled|;
      if ok {
        SameMembers(h.status, h.replay, h.juggled);
      }
    }

    /** The part of scubed3_init that moves the replay list into the juggler. */
    method LoadJuggler(h: Handle)
      requires Valid() && h in devices
      modifies h`replay, h`juggled
      ensures Valid() && h.replay == [] && forall id :: h.Lists(id) <==> old(h.Lists(id))
      ensures |h.juggled| == |old(h.replay)| + |old(h.juggled)|
    {
      while h.replay != []
        invariant Valid() && forall id :: h.Lists(id) <==> old(h.Lists(id))
        invariant |h.replay| + |h.juggled| == |old(h.replay)| + |old(h.juggled)|
        decreases |h.replay|
      {
        LoadLast(h);
      }
    }

    /** The last block of the replay list goes to the juggler. */
    method LoadLast(h: Handle)
      requires Valid() && h in devices && h.replay != []
      modifies h`replay, h`juggled
      ensures Valid() && forall id :: h.Lists(id) <==> old(h.Lists(id))
      ensures |h.replay| + 1 == |old(h.replay)| && |h.juggled| == |old(h.juggled)| + 1
    {
      var last := |h.replay| - 1;
      var id := h.replay[last];
      ghost var r, j := h.replay, h.juggled;
      assert Owns(h) && h.Lists(id) && id in r && id !in j;
      h.replay, h.juggled := h.replay[..last], [id] + h.juggled;
      assert r == h.replay + [id] && id !in h.replay;
      assert forall x: nat :: x in r <==> x in h.replay || x == id;
      assert forall x: nat :: x in h.juggled <==> x == id || x in j;
      assert forall x: nat :: h.Lists(x) <==> x in r || x in j;
      assert Owns(h);
    }

    /** The body of the loop of blockio_dev_allocate_macroblocks, after the draw. */
    method AllocateOne(h: Handle, id: nat)
      requires Valid() && h in devices && h.Consistent() && id in unallocated
      modifies this, h
      ensures Valid() && h.Consistent() && devices == old(devices)
      ensures id < |old(owner)| && owner == old(owner)[id := h] && old(owner[id]) == null
      ensures |unallocated| == |old(unallocated)| - 1 && h.juggled == [id] + old(h.juggled)
      ensures unallocated == Without(old(unallocated), id) && h.status == old(h.status) + {id}
      ensures h.noMacroblocks == old(h.noMacroblocks) + 1
    {
      Adopt(h, id);
      h.noMacroblocks := h.noMacroblocks + 1;
      assert id !in h.status;    // the assertion of blockio_dev_change_macroblock_status
      h.status := h.status + {id};
    }

    /** The whole body: the draw names the block. */
    method AllocateDrawn(h: Handle, random: Source) returns (ok: bool)
      requires Valid() && h in devices && h.Consistent() && unallocated != []
      modifies this, h, random
      ensures ok <==> Custom(old(random.tape), |old(unallocated)|).Drawn?
      ensures ok ==>
        var i := Custom(old(random.tape), |old(unallocated)|).value;
        && random.tape == Custom(old(random.tape), |old(unallocated)|).rest
        && Valid() && h.Consistent() && devices == old(devices)
        && unallocated == Cut(old(unallocated), i)
        && h.juggled == [old(unallocated)[i]] + old(h.juggled) && h.status == old(h.status) + {old(unallocated)[i]}
        && h.noMacroblocks == old(h.noMacroblocks) + 1
        && old(unallocated)[i] < |old(owner)| && owner == old(owner)[old(unallocated)[i] := h]
    {
      hide Owns, Handle.Consistent, Custom, Without, NoDup, Cut;
      var no;
      ok, no := random.RandomCustom(|unallocated|);
      if ok {
        UnallocatedOnce();
        WithoutAt(unallocated, no);
        AllocateOne(h, unallocated[no]);
      }
    }

    /** blockio_dev_allocate_macroblocks: the blocks are those that the words draw from the unallocated ones; a refused
        call changes nothing. */
    method Allocate(h: Handle, size: nat, random: Source) returns (r: Result<bool>)
      requires Valid() && h in devices && h.Consistent()
      modifies this, h, random
      ensures size > |old(unallocated)| <==> r == Ok(false)
      ensures r == Ok(false) ==>
        unallocated == old(unallocated) && owner == old(owner) && random.tape == old(random.tape)
        && h.replay == old(h.replay) && h.juggled == old(h.juggled) && h.Consistent() && h.status == old(h.status)
      ensures r.Ok? ==> Valid() && h.Consistent() && devices == old(devices) && |owner| == |old(owner)|
      ensures size <= |old(unallocated)| ==>
        match DrawOut(old(unallocated), size, old(random.tape))
        case None => r == Fail(NoEntropy)
        case Some(d) =>
          && r == Ok(true) && unallocated == d.left && random.tape == d.tape && |d.taken| == size
          && h.juggled == Pushed(d.taken, old(h.juggled)) && h.status == old(h.status) + Members(d.taken)
          && h.noMacroblocks == old(h.noMacroblocks) + size
          && forall id :: 0 <= id < |owner| ==> owner[id] == if id in d.taken then h else old(owner[id])
    {
      hide Owns, Handle.Consistent, Custom, Pushed, NoDup, DrawOut, Cut, Ahead;
      if |unallocated| < size {
        return Ok(false);
      }
      var left := size;
      ghost var done: seq<nat> := [];
      NothingAhead(DrawOut(unallocated, size, random.tape));
      NothingPushed(h.juggled);
      while left > 0
        invariant 0 <= left <= size && left <= |unallocated| && |done| == size - left
        invariant Valid() && h.Consistent() && devices == old(devices) && |owner| == |old(owner)|
        invariant h.noMacroblocks + left == old(h.noMacroblocks) + size
        invariant h.juggled == Pushed(done, old(h.juggled)) && h.status == old(h.status) + Members(done)
        invariant DrawOut(old(unallocated), size, old(random.tape)) ==
                  Ahead(done, DrawOut(unallocated, left, random.tape))
        invariant forall id :: 0 <= id < |owner| ==> owner[id] == if id in done then h else old(owner[id])
      {
        DrawsNext(done, unallocated, left, random.tape);
        ghost var next := Custom(random.tape, |unallocated|);
        ghost var id := if next.Drawn? then unallocated[next.value] else 0;
        var ok := AllocateDrawn(h, random);
        if !ok {
          return Fail(NoEntropy);
        }
        left := left - 1;
        PushedMore(done, old(h.juggled), id);
        done := done + [id];
      }
      AllDrawn(done, unallocated, random.tape);
      return Ok(true);
    }

    lemma UnallocatedOnce()
      requires Valid()
      ensures NoDup(unallocated)
    {
    }

    /** blockio_dev_free, after the last write: everything the device held is unallocated again. */
    method Free(h: Handle)
      requires Valid() && h in devices
      modifies this, h
      ensures Valid() && devices == old(devices) - {h} && |owner| == |old(owner)|
      ensures forall id :: 0 <= id < |owner| ==> owner[id] == if old(owner[id]) == h then null else old(owner[id])
      ensures unallocated == old(unallocated) + old(h.juggled) + Backwards(old(h.replay))
    {
      var i := 0;
      while i < |owner|
        invariant 0 <= i <= |owner| == |old(owner)|
        invariant forall id :: 0 <= id < |owner| ==>
          owner[id] == if id < i && old(owner[id]) == h then null else old(owner[id])
        invariant unallocated == old(unallocated) && devices == old(devices)
        invariant h.juggled == old(h.juggled) && h.replay == old(h.replay)
        invariant forall k :: k in devices && k != h ==> unchanged(k)
      {
        if owner[i] == h {
          owner := owner[i := null];
        }
        i := i + 1;
      }
      unallocated := unallocated + h.juggled;
      h.juggled := [];
      PourReplay(h);
      devices := devices - {h};
      FreedIsExact(old(unallocated), old(h.juggled), old(h.replay));
    }

    /** The replay list is appended to the unallocated list from its end. */
    method PourReplay(h: Handle)
      modifies this`unallocated, h`replay
      ensures h.replay == [] && unallocated == old(unallocated) + Backwards(old(h.replay))
    {
      while h.replay != []
        invariant unallocated + Backwards(h.replay) == old(unallocated) + Backwards(old(h.replay))
        decreases |h.replay|
      {
        var last := |h.replay| - 1;
        unallocated := unallocated + [h.replay[last]];
        h.replay := h.replay[..last];
      }
    }
  }

  /** Every macroblock is in exactly one list of one owner, or in the unallocated list. */
  lemma EachOnce(p: Pool, id: nat)
    requires p.Valid() && id < |p.owner|
    ensures id in p.unallocated <==> forall h :: h in p.devices ==> !h.Lists(id)
    ensures forall h, k :: h in p.devices && k in p.devices && h.Lists(id) && k.Lists(id) ==> h == k
    ensures forall h :: h in p.devices ==> !(id in h.replay && id in h.juggled)
    ensures p.owner[id] == null <==> id in p.unallocated
  {
    if id !in p.unallocated {
      assert p.owner[id] in p.devices && p.Owns(p.owner[id]);
    }
    forall h | h in p.devices
      ensures h.Lists(id) <==> p.owner[id] == h
      ensures h.Once()
    {
      assert p.Owns(h);
    }
  }

  lemma {:induction false} BackwardsIsExact(s: seq<nat>)
    requires NoDup(s)
    ensures NoDup(Backwards(s)) && forall id :: id in Backwards(s) <==> id in s
  {
    if s != [] {
      var last := |s| - 1;
      BackwardsIsExact(s[..last]);
      assert s == s[..last] + [s[last]] && s[last] !in s[..last];
    }
  }

  lemma JoinNoDup(a: seq<nat>, b: seq<nat>)
    requires NoDup(a) && NoDup(b) && forall id :: id in a ==> id !in b
    ensures NoDup(a + b)
  {
    forall i, k | 0 <= i < k < |a + b|
      ensures (a + b)[i] != (a + b)[k]
    {
      if i < |a| && |a| <= k {
        assert a[i] in a && b[k - |a|] in b;
      }
    }
  }

  lemma FreedIsExact(free: seq<nat>, juggled: seq<nat>, replay: seq<nat>)
    requires NoDup(free) && NoDup(juggled) && NoDup(replay)
    requires forall id :: id in replay ==> id !in juggled && id !in free
    requires forall id :: id in juggled ==> id !in free
    ensures NoDup(free + juggled + Backwards(replay))
    ensures forall id :: id in free + juggled + Backwards(replay) <==> id in free || id in juggled || id in replay
  {
    BackwardsIsExact(replay);
    JoinNoDup(free, juggled);
    JoinNoDup(free + juggled, Backwards(replay));
  }

  function Backwards(s: seq<nat>): (r: seq<nat>) {
    if s == [] then [] else [s[|s| - 1]] + Backwards(s[..|s| - 1])
  }

  /** A set that is listed, and is as large as two lists without repetition, is what they list. */
  lemma SameMembers(used: set<nat>, a: seq<nat>, b: seq<nat>)
    requires NoDup(a) && NoDup(b) && (forall id :: id in a ==> id !in b) && |used| == |a| + |b|
    requires forall id :: id in used ==> id in a || id in b
    ensures forall id :: id in used <==> id in a || id in b
  {
    MemberCount(a);
    MemberCount(b);
    var both := Members(a) + Members(b);
    assert |both| == |a| + |b| by {
      assert Members(a) * Members(b) == {};
    }
    assert used <= both;
    if exists id :: id in both && id !in used {
      var id :| id in both && id !in used;
      SubsetSize(used, both - {id});
    }
  }
}
