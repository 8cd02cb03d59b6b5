/** scubed3_t and its blockio_dev_t, updated in place.  Each method does to the fields what the function of module
    Device, Flat or Recovery named in its contract does to the state; a failure is the end of the process.

    Opening is divided between three classes.  Here DevInit, ScanHeaders and SortIn are about one device: what it reads,
    and in which order it replays, with lists as sequences.  Ownership.Pool has the first two about all devices on a
    backing file: which macroblocks change hands.  Dllarr.List has SortIn about the links of the list itself. */
module Volume {
  import opened Prelude
  import opened Random
  import opened Juggler
  import opened JugglerLists
  import opened Device
  import opened Flat
  import opened Recovery
  import opened Gc

  /** The call ended as r says, in state d if it did not fail. */
  ghost predicate Tells(r: Result<Dev>, fail: Option<Failure>, d: Dev) {
    match fail
    case None => r == Ok(d)
    case Some(why) => r == Fail(why)
  }

  class Scubed {
    const g: Geometry
    var loc: seq<Loc>
    var infos: seq<Info>
    var disk: seq<Sector>
    const ram: array<seq<Byte>>
    const j: Provider
    var cur: Option<nat>
    var tail: Option<nat>
    var ready: bool
    var updated: bool
    var used: set<nat>
    var reserved: nat
    var writes: nat
    ghost var spoiled: bool
    ghost var sealed: seq<nat>

    ghost function State(): Dev
      reads this, ram, j, j.r
    {
      Dev(loc, infos, disk, ram[..], j.View(), cur, tail, ready, updated, used, reserved, writes, j.r.tape, spoiled,
          sealed)
    }

    ghost predicate Sound()
      reads this, ram, j, j.r
    {
      ram.Length == g.mmpm && j.Counted() && Fits(g, State())
    }

    /** A device structure whose macroblock buffer is cleared; Init fills it from the backing file. */
    constructor (g: Geometry, j: Provider, disk: seq<Sector>)
      requires j.Counted() && forall i :: 0 <= i < |disk| ==> |disk[i].data| == g.mmpm
      ensures this.g == g && this.j == j && this.disk == disk && fresh(ram) && ram.Length == g.mmpm
      ensures ram[..] == seq(g.mmpm, _ => Zeros(g.size))
      ensures cur == None && tail == None && !ready && !updated && loc == [] && infos == [] && writes == 0
      ensures !spoiled && sealed == [] && used == {} && reserved == 0
    {
      this.g, this.j, this.disk := g, j, disk;
      ram := new seq<Byte>[g.mmpm](_ => Zeros(g.size));
      loc, infos, cur, tail, ready, updated, used, reserved, writes := [], [], None, None, false, false, {}, 0, 0;
      spoiled, sealed := false, [];
    }

    // ----- bookkeeping -----

    method ObsoleteMesoblk(id: nat) returns (fail: Option<Failure>)
      modifies this`infos
      ensures Tells(Obsolete(old(State()), id), fail, State())
    {
      if id >= |infos| || infos[id].nonobsolete == 0 {
        return Some(AssertionFailed);
      }
      infos := infos[id := infos[id].(nonobsolete := infos[id].nonobsolete - 1)];
      if infos[id].nonobsolete == 0 {
        infos := infos[id := infos[id].(indices := [])];
      }
      assert infos == Obsolete(old(State()), id).value.infos;
      fail := None;
    }

    method AddBlockref(c: nat, x: nat)
      requires c < |infos| && x < |loc|
      modifies this`infos, this`loc
      ensures State() == AddRef(old(State()), c, x)
    {
      loc := loc[x := At(c, |infos[c].indices|)];
      infos := infos[c := infos[c].(indices := infos[c].indices + [x])];
    }

    method ReadMesoblk(id: nat, k: nat) returns (b: seq<Byte>)
      requires id < |infos| && id < |disk| && k < |disk[id].data|
      ensures b == ReadSlot(g, State(), id, k)
    {
      b := g.cipher.dec(Iv(infos[id].seqno, k + 1, id), disk[id].data[k]);
    }

    // ----- evacuation -----

    /** The body of the evacuation loop. */
    method CopyMesoblk(c: nat, t: nat, k: nat) returns (fail: Option<Failure>)
      requires Sound() && c < |infos| && t < |infos| && k < |infos[t].indices|
      modifies this`infos, this`loc, ram
      ensures Tells(CopySlot(g, old(State()), c, t, k), fail, State())
      ensures fail.None? ==> Sound()
    {
      var x := infos[t].indices[k];
      if x >= |loc| || !(loc[x].At? && loc[x].id == t) {
        return None;
      }
      var n := |infos[c].indices|;
      if n >= g.mmpm || k >= g.mmpm {
        return Some(AssertionFailed);
      }
      ram[n] := ReadMesoblk(t, k);
      assert State() == old(State()).(ram := old(ram[..])[n := ReadSlot(g, old(State()), t, k)]);
      AddBlockref(c, x);
      fail := ObsoleteMesoblk(t);
    }

    method CopyOldBlockToCurrent() returns (fail: Option<Failure>)
      requires Sound()
      modifies this`infos, this`loc, ram
      ensures Tells(CopyOld(g, old(State())), fail, State())
      ensures fail.None? ==> Sound()
    {
      hide CopySlot;
      if tail.None? || tail.value !in used {
        return None;
      }
      if cur.None? {
        return Some(AssertionFailed);
      }
      var c, t, k := cur.value, tail.value, 0;
      while k < |infos[t].indices|
        invariant Sound() && c < |infos| && t < |infos|
        invariant CopyFrom(g, old(State()), c, t, 0) == CopyFrom(g, State(), c, t, k)
        decreases if k < |infos[t].indices| && |infos[c].indices| <= g.mmpm then 1 + g.mmpm - |infos[c].indices| else 0,
                  |infos[t].indices| - k
      {
        fail := CopyMesoblk(c, t, k);
        if fail.Some? {
          return;
        }
        k := k + 1;
      }
      fail := None;
    }

    method InitializeOutput() returns (fail: Option<Failure>)
      requires Sound()
      modifies this`infos, this`loc, this`ready, ram
      ensures Tells(InitOutput(g, old(State())), fail, State())
      ensures fail.None? ==> Sound()
    {
      hide CopyOld;
      fail := None;
      if !ready {
        fail := CopyOldBlockToCurrent();
        if fail.None? {
          ready := true;
        }
      }
    }

    // ----- switching macroblocks -----

    /** The two loops of blockio_dev_write_current_macroblock over the data: the unused mesoblocks are cleared, and all
        of them are encrypted in place. */
    method EncryptData(id: nat)
      requires Sound() && id < |infos|
      modifies ram
      ensures ram[..] == Encrypted(g, old(State()), id)
    {
      var n := |infos[id].indices|;
      var i := n;
      while i < g.mmpm
        invariant n <= i
        invariant forall k :: 0 <= k < g.mmpm ==>
          ram[k] == if k < i then Plain(g, old(State()), n, k) else old(ram[k])
      {
        ram[i] := Zeros(g.size);
        i := i + 1;
      }
      i := 0;
      while i < g.mmpm
        invariant i <= g.mmpm
        invariant forall k :: 0 <= k < g.mmpm ==>
          ram[k] == if k < i then g.cipher.enc(Iv(infos[id].seqno, k + 1, id), Plain(g, old(State()), n, k))
                    else Plain(g, old(State()), n, k)
      {
        ram[i] := g.cipher.enc(Iv(infos[id].seqno, i + 1, id), ram[i]);
        i := i + 1;
      }
    }

    /** The index block is made, and the macroblock written. */
    method WriteIndex(id: nat)
      requires Sound() && cur == Some(id)
      modifies this`infos, this`disk, this`writes, this`cur, this`sealed
      ensures id < |old(infos)| == |old(disk)|
      ensures State() == old(State()).(
        disk := old(disk)[id := Sector(Some(HeaderOf(old(State()), old(infos)[id])), ram[..])],
        infos := old(infos)[id := old(infos)[id].(nonobsolete := |old(infos)[id].indices|)],
        writes := old(writes) + 1, sealed := old(sealed) + [old(infos)[id].seqno], cur := None)
    {
      hide ScheduledSeqnos;
      writes := writes + 1;
      var seqnos := j.HashScheduledSeqnos();
      var i := infos[id];
      disk := disk[id := Sector(Some(Header(i.seqno, i.next, i.indices, used, reserved, seqnos)), ram[..])];
      infos := infos[id := i.(nonobsolete := |i.indices|)];
      sealed := sealed + [i.seqno];
      cur := None;
    }

    method WriteCurrentMacroblock() returns (fail: Option<Failure>)
      requires Sound()
      modifies this`infos, this`disk, this`writes, this`cur, this`sealed, ram
      ensures Tells(WriteCurrent(g, old(State())), fail, State())
      ensures fail.None? ==> Sound()
    {
      hide Encrypted, HeaderOf;
      if cur.None? {
        return Some(AssertionFailed);
      }
      var id := cur.value;
      EncryptData(id);
      SameHeader(State(), old(State()), infos[id]);
      WriteIndex(id);
      fail := None;
    }

    method SelectNextMacroblock() returns (fail: Option<Failure>)
      requires Sound()
      modifies this`infos, this`updated, this`cur, this`tail, j, j.r
      ensures Tells(SelectNext(g, old(State())), fail, State())
      ensures fail.None? ==> Sound()
    {
      hide Juggler.GetDevblock;
      if cur.Some? {
        return Some(AssertionFailed);
      }
      updated := false;
      var st, b := j.GetDevblock(false);
      if st != Given {
        return Some(if st == Status.Dry then NoEntropy else AssertionFailed);
      }
      var t := j.GetObsoleted();
      if b.id >= |infos| || (t.Some? && t.value.id >= |infos|) {
        return Some(AssertionFailed);
      }
      infos := infos[b.id := infos[b.id].(seqno := b.seqno, next := b.next)];
      cur := Some(b.id);
      tail := if t.Some? then Some(t.value.id) else None;
      fail := None;
    }

    method WriteAndSelect() returns (fail: Option<Failure>)
      requires Sound()
      modifies this, ram, j, j.r
      ensures Tells(Switch(g, old(State())), fail, State())
      ensures fail.None? ==> Sound() && cur.Some?
    {
      hide WriteCurrent, SelectNext;
      fail := WriteCurrentMacroblock();
      if fail.None? {
        fail := SelectNextMacroblock();
      }
    }

    /** turns counts the switches completed, so that Gc.GcTerminates bounds this loop. */
    method SelectNewMacroblock() returns (fail: Option<Failure>, ghost turns: nat)
      requires Sound()
      modifies this, ram, j, j.r
      ensures Tells(SelectNew(g, old(State())), fail, State())
      ensures turns == Turns(g, old(State()))
      ensures fail.None? ==> Sound() && cur.Some?
    {
      hide Switch, CopyOld;
      turns := 0;
      if !ready {
        return Some(AssertionFailed), turns;
      }
      while true
        invariant Sound() && ready
        invariant SelectNew(g, old(State())) == SelectNew(g, State())
        invariant Turns(g, old(State())) == turns + Turns(g, State())
        decreases |j.r.tape|
      {
        fail := WriteAndSelect();
        if fail.Some? {
          return;
        }
        turns := turns + 1;
        fail := CopyOldBlockToCurrent();
        if fail.Some? {
          return;
        }
        if |infos[cur.value].indices| != g.mmpm {
          return;
        }
        if !ready {
          return Some(AssertionFailed), turns;
        }
      }
    }

    method DoCycle() returns (fail: Option<Failure>)
      requires Sound()
      modifies this, ram, j, j.r
      ensures Tells(Cycle(g, old(State())), fail, State())
      ensures fail.None? ==> Sound()
    {
      hide Switch, CopyOld;
      if !ready {
        fail := CopyOldBlockToCurrent();
        if fail.Some? {
          return;
        }
      }
      fail := WriteAndSelect();
      if fail.None? {
        ready := false;
      }
    }

    // ----- resizing -----

    /** The loop of blockio_dev_allocate_macroblocks, with the blocks that were drawn. */
    method AllocateMacroblocks(ids: seq<nat>) returns (fail: Option<Failure>)
      requires Sound()
      modifies this`infos, this`used, j
      ensures Tells(Allocate(old(State()), ids), fail, State())
      ensures fail.None? ==> Sound()
    {
      var i := 0;
      assert ids[0..] == ids;
      while i < |ids|
        invariant i <= |ids| && Sound()
        invariant Allocate(old(State()), ids) == Allocate(State(), ids[i..])
      {
        assert ids[i..][1..] == ids[i + 1..];
        if ids[i] >= |infos| || ids[i] in used {
          return Some(AssertionFailed);
        }
        infos := infos[ids[i] := Info(0, 0, [], 0)];
        var ok := j.AddMacroblock(Ticket(ids[i], 0, 0));
        used := used + {ids[i]};
        i := i + 1;
      }
      fail := None;
    }

    /** The loop that marks all mesoblocks beyond the old end of the device as free. */
    method Reinitialize() returns (fail: Option<Failure>)
      modifies this`loc
      ensures Tells(Reinit(g, old(State())), fail, State())
    {
      hide Capacity;
      var n := Capacity(g, |used|, reserved);
      if n < |loc| {
        return Some(AssertionFailed);
      }
      while |loc| < n
        invariant |loc| <= n && loc == old(loc) + seq(|loc| - |old(loc)|, _ => Unwritten)
      {
        loc := loc + [Unwritten];
      }
      fail := None;
    }

    method Grow(ids: seq<nat>, reserve: nat) returns (fail: Option<Failure>)
      requires Sound()
      modifies this, j, j.r
      ensures Tells(Resize(g, old(State()), ids, reserve), fail, State())
      ensures fail.None? ==> Sound()
    {
      hide Allocate, SelectNext, Reinit;
      if |ids| == 0 || reserve > |used| + |ids| {
        return None;
      }
      fail := AllocateMacroblocks(ids);
      if fail.Some? {
        return;
      }
      reserved := reserve;
      fail := Reinitialize();
      if fail.Some? {
        return;
      }
      if cur.None? {
        fail := SelectNextMacroblock();
        if fail.Some? {
          return;
        }
      }
      updated := true;
    }

    // ----- one mesoblock -----

    /** do_cow and what precedes it: the next free slot gets the new bytes, and around them the old ones or zeros. */
    method CowMesoblk(x: nat, off: nat, data: seq<Byte>) returns (fail: Option<Failure>)
      requires Sound() && cur.Some? && x < |loc| && |infos[cur.value].indices| < g.mmpm
      modifies this`spoiled, ram
      ensures Tells(Cow(g, old(State()), x, off, data), fail, State())
      ensures fail.None? ==> Sound()
    {
      hide Splice, ReadSlot, Zeros;
      var before := Zeros(g.size);
      if loc[x].At? {
        if loc[x].id >= |infos| || loc[x].slot >= g.mmpm {
          return Some(AssertionFailed);
        }
        before := ReadMesoblk(loc[x].id, loc[x].slot);
      }
      if off + |data| > |before| {
        return Some(AssertionFailed);
      }
      ram[|infos[cur.value].indices|] := Splice(before, off, data);
      spoiled := spoiled || tail == cur;
      fail := None;
    }

    /** The end of do_write, for a mesoblock that is not in RAM. */
    method WriteMesoblk(x: nat, off: nat, data: seq<Byte>) returns (fail: Option<Failure>)
      requires Sound() && cur.Some? && x < |loc|
      modifies this`infos, this`loc, this`spoiled, ram
      ensures Tells(Append(g, old(State()), x, off, data), fail, State())
      ensures fail.None? ==> Sound()
    {
      hide Cow;
      var c := cur.value;
      if |infos[c].indices| >= g.mmpm {
        return Some(AssertionFailed);
      }
      fail := CowMesoblk(x, off, data);
      if fail.Some? {
        return;
      }
      if loc[x].At? {
        fail := ObsoleteMesoblk(loc[x].id);
        if fail.Some? {
          return;
        }
      }
      AddBlockref(c, x);
    }

    method UpdateMesoblk(k: nat, off: nat, data: seq<Byte>) returns (fail: Option<Failure>)
      requires Sound()
      modifies ram
      ensures Tells(Update(g, old(State()), k, off, data), fail, State())
      ensures fail.None? ==> Sound()
    {
      if k >= g.mmpm || off + |data| > |ram[k]| {
        return Some(AssertionFailed);
      }
      ram[k] := Splice(ram[k], off, data);
      assert State() == old(State()).(ram := old(ram[..])[k := ram[k]]);
      fail := None;
    }

    method WriteToMesoblk(x: nat, off: nat, data: seq<Byte>) returns (fail: Option<Failure>)
      requires Sound()
      modifies this, ram, j, j.r
      ensures Tells(DoWrite(g, old(State()), x, off, data), fail, State())
      ensures fail.None? ==> Sound()
    {
      hide InitOutput, SelectNew, Append, Update;
      if x >= |loc| || off + |data| > g.size {
        return Some(AssertionFailed);
      }
      var index := loc[x];
      updated := true;
      fail := InitializeOutput();
      if fail.Some? {
        return;
      }
      if cur.None? {
        return Some(AssertionFailed);
      }
      if !(index.At? && cur == Some(index.id)) && |infos[cur.value].indices| == g.mmpm {
        ghost var turns;
        fail, turns := SelectNewMacroblock();
        if fail.Some? {
          return;
        }
      }
      assert MakeRoom(g, old(State()), x) == Ok(State());
      if x >= |loc| {
        return Some(AssertionFailed);
      }
      if loc[x].At? && cur == Some(loc[x].id) {
        fail := UpdateMesoblk(loc[x].slot, off, data);
      } else {
        fail := WriteMesoblk(x, off, data);
      }
    }

    method ReadFromMesoblk(x: nat, off: nat, len: nat) returns (r: Result<seq<Byte>>)
      requires Sound()
      ensures r == DoRead(g, State(), x, off, len)
    {
      if x >= |loc| || cur.None? {
        return Fail(AssertionFailed);
      }
      var b := Zeros(g.size);
      if loc[x].At? && cur == Some(loc[x].id) {
        if loc[x].slot >= g.mmpm {
          return Fail(AssertionFailed);
        }
        b := ram[loc[x].slot];
      } else if loc[x].At? {
        if loc[x].id >= |infos| || loc[x].slot >= g.mmpm {
          return Fail(AssertionFailed);
        }
        b := ReadMesoblk(loc[x].id, loc[x].slot);
      }
      if off + len > |b| {
        return Fail(AssertionFailed);
      }
      r := Ok(b[off..off + len]);
    }

    // ----- do_req -----

    method WriteRequest(off: nat, data: seq<Byte>) returns (fail: Option<Failure>)
      requires Sound() && g.size > 0
      modifies this, ram, j, j.r
      ensures Tells(WriteAll(g, old(State()), off / g.size, off % g.size, data), fail, State())
      ensures fail.None? ==> Sound()
    {
      hide DoWrite;
      var meso: nat, inmeso: nat, ooff: nat := off / g.size, off % g.size, 0;
      if inmeso > 0 {
        var reqsz := Least(|data|, g.size - inmeso);
        fail := WriteToMesoblk(meso, inmeso, data[..reqsz]);
        if fail.Some? {
          return;
        }
        meso, ooff := meso + 1, reqsz;
      }
      assert data[0..] == data;
      while |data| - ooff >= g.size
        invariant ooff <= |data| && Sound()
        invariant WriteAll(g, old(State()), off / g.size, off % g.size, data)
                  == WriteWhole(g, State(), meso, data[ooff..])
      {
        assert data[ooff..][..g.size] == data[ooff..ooff + g.size];
        assert data[ooff..][g.size..] == data[ooff + g.size..];
        fail := WriteToMesoblk(meso, 0, data[ooff..ooff + g.size]);
        if fail.Some? {
          return;
        }
        meso, ooff := meso + 1, ooff + g.size;
      }
      fail := None;
      if |data| > ooff {
        fail := WriteToMesoblk(meso, 0, data[ooff..]);
      }
    }

    method ReadRequest(off: nat, size: nat) returns (r: Result<seq<Byte>>)
      requires Sound() && g.size > 0
      ensures r == ReadAll(g, State(), off / g.size, off % g.size, size)
    {
      hide DoRead;
      var meso: nat, inmeso: nat, left: nat := off / g.size, off % g.size, size;
      var buf := [];
      if inmeso > 0 {
        left := Least(size, g.size - inmeso);
        r := ReadFromMesoblk(meso, inmeso, left);
        if r.Fail? {
          return;
        }
        buf, meso, left := r.value, meso + 1, size - left;
      }
      PrependNothing(ReadWhole(g, State(), meso, left));
      while left >= g.size
        invariant ReadAll(g, State(), off / g.size, off % g.size, size)
                  == Prepend(buf, ReadWhole(g, State(), meso, left))
      {
        r := ReadFromMesoblk(meso, 0, g.size);
        if r.Fail? {
          return;
        }
        PrependTwice(buf, r.value, ReadWhole(g, State(), meso + 1, left - g.size));
        buf, meso, left := buf + r.value, meso + 1, left - g.size;
      }
      r := Ok(buf);
      assert buf + [] == buf;
      if left > 0 {
        r := ReadFromMesoblk(meso, 0, left);
        r := Prepend(buf, r);
      }
    }

    method Req(cmd: Command) returns (fail: Option<Failure>, reply: Reply)
      requires Sound() && g.size > 0
      modifies this, ram, j, j.r
      ensures match fail
              case None => DoReq(g, old(State()), cmd) == Ok((State(), reply)) && Sound()
              case Some(why) => DoReq(g, old(State()), cmd) == Fail(why)
    {
      hide WriteAll, ReadAll;
      reply := PastEnd;
      if BeyondEnd(g, |loc|, cmd) {
        return None, reply;
      }
      match cmd {
        case Read(off, n) =>
          var r := ReadRequest(off, n);
          if r.Fail? {
            return Some(r.why), reply;
          }
          return None, Bytes(r.value);
        case Write(off, data) =>
          fail := WriteRequest(off, data);
          return fail, Bytes([]);
      }
    }

    // ----- opening -----

    /** replay */
    method Replay(id: nat) returns (fail: Option<Failure>)
      requires id < |infos|
      modifies this`infos, this`loc
      ensures Tells(ReplayFrom(old(State()), id, 0), fail, State())
    {
      var k := 0;
      while k < |infos[id].indices|
        invariant id < |infos| && infos[id] == old(infos[id])
        invariant ReplayFrom(old(State()), id, 0) == ReplayFrom(State(), id, k)
      {
        var x := infos[id].indices[k];
        label turn:
        if x < |loc| {
          if loc[x].At? {
            if loc[x].id == id {
              return Some(AssertionFailed);
            }
            fail := ObsoleteMesoblk(loc[x].id);
            if fail.Some? {
              return;
            }
          }
          loc := loc[x := At(id, k)];
        }
        assert ReplaySlot(old@turn(State()), id, k) == Ok(State());
        k := k + 1;
      }
      fail := None;
    }

    /** sort_to_replay */
    method SortIn(list: seq<nat>, id: nat) returns (r: Result<seq<nat>>)
      ensures r == SortToReplay(disk, list, id, 0)
    {
      var i := 0;
      while i < |list|
        invariant i <= |list| && SortToReplay(disk, list, id, 0) == SortToReplay(disk, list, id, i)
      {
        if Seqno(disk, id) == Seqno(disk, list[i]) {
          return Fail(AssertionFailed);
        }
        if Seqno(disk, id) < Seqno(disk, list[i]) {
          break;
        }
        i := i + 1;
      }
      if i == |list| {
        return Ok(list + [id]);
      }
      r := Ok(list[..i] + [id] + list[i..]);
    }

    /** The header scan of blockio_dev_init. */
    method ScanHeaders(order: seq<nat>) returns (r: Result<seq<nat>>)
      ensures r == Scan(disk, order, [])
    {
      var list, i := [], 0;
      while i < |order|
        invariant i <= |order| && Scan(disk, order, []) == Scan(disk, order[i..], list)
      {
        assert order[i..][1..] == order[i + 1..];
        if Headed(disk, order[i]) {
          r := SortIn(list, order[i]);
          if r.Fail? {
            return;
          }
          list := r.value;
        }
        i := i + 1;
      }
      r := Ok(list);
    }

    /** The second loop of blockio_dev_init: blocks without a header that the bitmap claims. */
    method ClaimBlocks() returns (count: nat)
      requires j.Counted() && j.View() == EMPTY
      modifies j
      ensures j.Counted() && j.View() == Schedule([], Claimed(disk, used, |disk|), 0)
      ensures count == |Claimed(disk, used, |disk|)|
    {
      var i := 0;
      count := 0;
      while i < |disk|
        invariant i <= |disk| && j.Counted()
        invariant j.View() == Schedule([], Claimed(disk, used, i), 0) && count == |Claimed(disk, used, i)|
      {
        if i in used && !Headed(disk, i) {
          var ok := j.AddMacroblock(Ticket(i, 0, 0));
          count := count + 1;
        }
        i := i + 1;
      }
    }

    method ReplayList(list: seq<nat>) returns (fail: Option<Failure>)
      modifies this`infos, this`loc
      ensures Tells(ReplayAll(old(State()), list), fail, State())
    {
      hide ReplayFrom;
      var i := 0;
      assert list[0..] == list;
      while i < |list|
        invariant i <= |list| && ReplayAll(old(State()), list) == ReplayAll(State(), list[i..])
      {
        assert list[i..][1..] == list[i + 1..];
        if list[i] >= |infos| {
          return Some(AssertionFailed);
        }
        fail := Replay(list[i]);
        if fail.Some? {
          return;
        }
        i := i + 1;
      }
      fail := None;
    }

    /** The replay list is emptied into the juggler. */
    method LoadList(list: seq<nat>) returns (fail: Option<Failure>)
      requires j.Counted()
      modifies j
      ensures fail.None? <==> Load(old(j.View()), Tickets(disk, list)).Some?
      ensures fail.None? ==> j.Counted() && Load(old(j.View()), Tickets(disk, list)) == Some(j.View())
      ensures fail.Some? ==> fail == Some(AssertionFailed)
    {
      hide Juggler.AddMacroblock;
      var i := |list|;
      ghost var t := Tickets(disk, list);
      assert |t| == |list| && t[0..] == t;
      while i > 0
        invariant 0 <= i <= |list| && j.Counted() && Load(old(j.View()), t) == Load(j.View(), t[|list| - i..])
      {
        i := i - 1;
        assert t[|list| - 1 - i..][1..] == t[|list| - i..];
        var ok := j.AddMacroblock(TicketOf(disk, list[i]));
        if !ok {
          return Some(AssertionFailed);
        }
      }
      fail := None;
    }

    /** blockio_dev_init and scubed3_init on a structure that was just constructed. */
    method Init(order: seq<nat>) returns (fail: Option<Failure>)
      requires Sound0() && j.View() == EMPTY
      modifies this, j
      ensures Tells(Recover(g, old(disk), order, j.r.tape), fail, State())
    {
      hide Scan, ReplayAll, Load, Claimed, Tickets, Blank;
      var r := DevInit(order);
      if r.Fail? {
        return Some(r.why);
      }
      var list := r.value;
      loc := seq(Capacity(g, |used|, reserved), _ => Unwritten);
      var sectors := disk;
      infos := seq(|sectors|, i requires 0 <= i < |sectors| => InfoOf(sectors[i]));
      ghost var blank := Blank(g, disk, disk[list[|list| - 1]].header.value, j.r.tape);
      BlankIs(g, disk, disk[list[|list| - 1]].header.value, j.r.tape, State());
      InitFrame(blank, list, j.View());
      fail := ReplayList(list);
      if fail.Some? {
        return;
      }
      fail := LoadList(list);
    }

    /** blockio_dev_init: the blocks of the device, those with a header in the order of their replay. */
    method DevInit(order: seq<nat>) returns (r: Result<seq<nat>>)
      requires Sound0() && j.View() == EMPTY
      modifies this`used, this`reserved, j
      ensures r.Fail? ==> Recover(g, disk, order, j.r.tape) == Fail(r.why)
      ensures r.Ok? ==>
        && Scan(disk, order, []) == r && r.value != [] && Headed(disk, r.value[|r.value| - 1])
        && var h := disk[r.value[|r.value| - 1]].header.value;
        && used == h.used && reserved == h.reserved && (forall id :: id in used ==> id < |disk|)
        && |used| == |r.value| + |Claimed(disk, used, |disk|)|
        && j.Counted() && j.View() == Schedule([], Claimed(disk, used, |disk|), 0)
    {
      hide Scan, ReplayAll, Load, Claimed, Tickets, Blank;
      r := ScanHeaders(order);
      if r.Fail? {
        return;
      }
      var list := r.value;
      if list == [] || !Headed(disk, list[|list| - 1]) {
        return Fail(NoBlocks);
      }
      used, reserved := disk[list[|list| - 1]].header.value.used, disk[list[|list| - 1]].header.value.reserved;
      if exists id :: id in used && id >= |disk| {
        return Fail(AssertionFailed);
      }
      var count := ClaimBlocks();
      if |used| != |list| + count {
        return Fail(AssertionFailed);
      }
    }

    /** What the constructor leaves. */
    ghost predicate Sound0()
      reads this, ram, j
    {
      && j.Counted() && ram.Length == g.mmpm && ram[..] == seq(g.mmpm, _ => Zeros(g.size))
      && cur == None && tail == None && !ready && !updated && writes == 0 && !spoiled && sealed == []
    }
  }

  /** A structure that says what the newest header says, before the replay. */
  lemma BlankIs(g: Geometry, disk: seq<Sector>, h: Header, tape: seq<Word>, d: Dev)
    requires d.loc == seq(Capacity(g, |h.used|, h.reserved), _ => Unwritten) && d.disk == disk && d.tape == tape
    requires d.infos == seq(|disk|, i requires 0 <= i < |disk| => InfoOf(disk[i]))
    requires d.ram == seq(g.mmpm, _ => Zeros(g.size)) && d.used == h.used && d.reserved == h.reserved
    requires d.cur == None && d.tail == None && !d.ready && !d.updated && d.writes == 0 && !d.spoiled && d.sealed == []
    ensures d == Blank(g, disk, h, tape).(j := d.j)
  {
  }

  /** The header does not depend on the mesoblocks in RAM. */
  lemma SameHeader(d: Dev, d': Dev, i: Info)
    requires d' == d.(ram := d'.ram)
    ensures HeaderOf(d, i) == HeaderOf(d', i)
  {
  }

  /** The replay does not look at the juggler. */
  lemma {:induction false} InitFrame(d: Dev, list: seq<nat>, j: Schedule)
    ensures ReplayAll(d.(j := j), list) == match ReplayAll(d, list)
                                          case Ok(r) => Ok(r.(j := j))
                                          case Fail(why) => Fail(why)
    decreases |list|
  {
    if list != [] && list[0] < |d.infos| {
      ReplayFromFrame(d, list[0], 0, j);
      var r := ReplayFrom(d, list[0], 0);
      if r.Ok? {
        InitFrame(r.value, list[1..], j);
      }
    }
  }

  lemma {:induction false} ReplayFromFrame(d: Dev, id: nat, k: nat, j: Schedule)
    requires id < |d.infos|
    ensures ReplayFrom(d.(j := j), id, k) == match ReplayFrom(d, id, k)
                                             case Ok(r) => Ok(r.(j := j))
                                             case Fail(why) => Fail(why)
    decreases |d.infos[id].indices| - k
  {
    if k < |d.infos[id].indices| {
      var r := ReplaySlot(d, id, k);
      if r.Ok? {
        assert ReplaySlot(d.(j := j), id, k) == Ok(r.value.(j := j));
        ReplayFromFrame(r.value, id, k + 1, j);
      }
    }
  }

  /** The buffer so far, and what follows it. */
  function Prepend(buf: seq<Byte>, r: Result<seq<Byte>>): Result<seq<Byte>> {
    match r
    case Ok(b) => Ok(buf + b)
    case Fail(why) => Fail(why)
  }

  lemma PrependNothing(r: Result<seq<Byte>>)
    ensures Prepend([], r) == r
  {
    if r.Ok? {
      assert [] + r.value == r.value;
    }
  }

  lemma PrependTwice(a: seq<Byte>, b: seq<Byte>, r: Result<seq<Byte>>)
    ensures Prepend(a, Prepend(b, r)) == Prepend(a + b, r)
  {
    if r.Ok? {
      assert a + (b + r.value) == a + b + r.value;
    }
  }
}
