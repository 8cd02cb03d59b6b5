/** Every step of the device keeps the invariant and leaves the contents alone, except for the mesoblock written. */
module Steps {
  import opened Prelude
  import opened Random
  import opened Juggler
  import opened Device
  import opened Bookkeeping

  /** Only the map, the records and the RAM macroblock differ. */
  ghost predicate OnlyMoved(d: Dev, d': Dev) {
    d' == d.(loc := d'.loc, infos := d'.infos, ram := d'.ram) && |d'.loc| == |d.loc|
  }

  // ----- copy_old_block_to_current -----

  ghost predicate CanCopy(g: Geometry, d: Dev, c: nat, t: nat, k: nat) {
    && Core(g, d) && Fits(g, d) && d.cur == Some(c) && t in d.used && t != c && t < |d.infos|
    && |d.infos[c].indices| + |Live(d.loc, t)| <= g.mmpm
    && forall x :: x in Live(d.loc, t) ==> d.loc[x].slot >= k
  }

  /** One turn of the loop moves the mesoblock at slot k if it is live, and does nothing else. */
  lemma CopySlotMoves(g: Geometry, d: Dev, c: nat, t: nat, k: nat)
    requires CanCopy(g, d, c, t, k) && k < |d.infos[t].indices|
    ensures var x := d.infos[t].indices[k];
            if x in Live(d.loc, t) then
              && d.loc[x] == At(t, k)
              && CanMove(g, d, c, x, Content(g, d, x))
              && CopySlot(g, d, c, t, k) == Ok(Moved(d, c, x, Content(g, d, x)))
            else CopySlot(g, d, c, t, k) == Ok(d)
  {
    hide LastWriter, DiskOk, SealedOk, JugglerOk;
    var x := d.infos[t].indices[k];
    if x in Live(d.loc, t) {
      assert d.infos[t].indices[d.loc[x].slot] == x;
      ContentLength(g, d, x);
      var d1 := d.(ram := d.ram[|d.infos[c].indices| := ReadSlot(g, d, t, k)]);
      var m := Moved(d, c, x, Content(g, d, x));
      MovedInfo(g, d, c, x, Content(g, d, x), t);
      assert Obsolete(AddRef(d1, c, x), t).value.infos == m.infos;
    }
  }

  lemma CopySlotProgress(g: Geometry, d: Dev, c: nat, t: nat, k: nat)
    requires CanCopy(g, d, c, t, k) && k < |d.infos[t].indices|
    ensures CopySlot(g, d, c, t, k).Ok?
    ensures var d' := CopySlot(g, d, c, t, k).value;
            && CanCopy(g, d', c, t, k + 1) && OnlyMoved(d, d')
            && Contents(g, d') == Contents(g, d)
            && |d'.infos[c].indices| + |Live(d'.loc, t)| == |d.infos[c].indices| + |Live(d.loc, t)|
            && (forall id: nat :: id != c && id != t ==> Live(d'.loc, id) == Live(d.loc, id))
  {
    CopySlotMoves(g, d, c, t, k);
    var x := d.infos[t].indices[k];
    if x in Live(d.loc, t) {
      MoveFromVictim(g, d, c, t, k);
    } else {
      SlotsAhead(d.loc, d.infos, d.used, t, k);
    }
  }

  /** Live mesoblocks at slot k or later, but not at slot k, are at a later slot. */
  lemma SlotsAhead(loc: seq<Loc>, infos: seq<Info>, used: set<nat>, t: nat, k: nat)
    requires MapOk(loc, infos, used) && t < |infos| && k < |infos[t].indices|
    requires forall x :: x in Live(loc, t) ==> loc[x].slot >= k
    requires infos[t].indices[k] !in Live(loc, t)
    ensures forall x :: x in Live(loc, t) ==> loc[x].slot >= k + 1
  {
    forall y | y in Live(loc, t)
      ensures loc[y].slot >= k + 1
    {
      assert infos[t].indices[loc[y].slot] == y;
    }
  }

  lemma MoveFromVictim(g: Geometry, d: Dev, c: nat, t: nat, k: nat)
    requires CanCopy(g, d, c, t, k) && k < |d.infos[t].indices|
    requires var x := d.infos[t].indices[k]; x in Live(d.loc, t) && CanMove(g, d, c, x, Content(g, d, x))
    ensures var x := d.infos[t].indices[k];
            var d' := Moved(d, c, x, Content(g, d, x));
            && CanCopy(g, d', c, t, k + 1) && OnlyMoved(d, d')
            && Contents(g, d') == Contents(g, d)
            && |d'.infos[c].indices| + |Live(d'.loc, t)| == |d.infos[c].indices| + |Live(d.loc, t)|
            && (forall id: nat :: id != c && id != t ==> Live(d'.loc, id) == Live(d.loc, id))
  {
    hide ListsOk, CountsOk, DiskOk, LastWriter, JugglerOk, Inverts, KeepsLength;
    var x := d.infos[t].indices[k];
    var v := Content(g, d, x);
    var d' := Moved(d, c, x, v);
    MoveKeepsCore(g, d, c, x, v);
    MoveContents(g, d, c, x, v);
    assert Contents(g, d)[x := v] == Contents(g, d);
    MovedInfo(g, d, c, x, v, c);
    forall id: nat
      ensures Live(d'.loc, id) == if id == c then Live(d.loc, c) + {x} else Live(d.loc, id) - {x}
    {
      LiveAfterMove(d.loc, x, c, |d.infos[c].indices|, id);
    }
    LiveAfterMove(d.loc, x, c, |d.infos[c].indices|, t);
    forall y | y in Live(d'.loc, t)
      ensures d'.loc[y].slot >= k + 1
    {
      assert d.infos[t].indices[d.loc[y].slot] == y;
    }
  }

  /** The loop empties block t. */
  lemma {:induction false} CopyFromEmpties(g: Geometry, d: Dev, c: nat, t: nat, k: nat)
    requires CanCopy(g, d, c, t, k)
    ensures CopyFrom(g, d, c, t, k).Ok?
    ensures var d' := CopyFrom(g, d, c, t, k).value;
            && Core(g, d') && OnlyMoved(d, d') && Contents(g, d') == Contents(g, d)
            && Live(d'.loc, t) == {}
            && |d'.infos[c].indices| == |d.infos[c].indices| + |Live(d.loc, t)|
            && (forall id: nat :: id != c && id != t ==> Live(d'.loc, id) == Live(d.loc, id))
    decreases g.mmpm - |d.infos[c].indices|, |d.infos[t].indices| - k
  {
    hide Core, MapOk, Contents, Live;
    if k >= |d.infos[t].indices| {
      NothingLeft(g, d, c, t, k);
    } else {
      CopySlotProgress(g, d, c, t, k);
      var d' := CopySlot(g, d, c, t, k).value;
      if k + 1 >= |d'.infos[t].indices| {
        NothingLeft(g, d', c, t, k + 1);
      } else {
        CopyFromEmpties(g, d', c, t, k + 1);
      }
    }
  }

  lemma NothingLeft(g: Geometry, d: Dev, c: nat, t: nat, k: nat)
    requires CanCopy(g, d, c, t, k) && k >= |d.infos[t].indices|
    ensures Live(d.loc, t) == {}
  {
    SlotsInRange(d.loc, d.infos, d.used, t);
  }

  lemma SlotsInRange(loc: seq<Loc>, infos: seq<Info>, used: set<nat>, t: nat)
    requires MapOk(loc, infos, used) && t < |infos|
    ensures forall x :: x in Live(loc, t) ==> loc[x].slot < |infos[t].indices|
  {
  }

  /** The block to be overwritten next, unless it is the current block itself. */
  function Victim(d: Dev): Option<nat> {
    if TailOf(d.j) == d.cur then None else TailOf(d.j)
  }

  ghost function VictimLive(d: Dev): set<nat> {
    if Victim(d).Some? then Live(d.loc, Victim(d).value) else {}
  }

  lemma TailIsUsed(g: Geometry, d: Dev)
    requires Core(g, d) && TailOf(d.j).Some?
    ensures TailOf(d.j).value in d.used
  {
    assert d.j.scheduled[0].id == TailOf(d.j).value;
    assert Has(d.j, TailOf(d.j).value);
  }

  /** Evacuation: with an empty current block, all that is live in the block to be overwritten moves to it. */
  lemma CopyOldEvacuates(g: Geometry, d: Dev)
    requires Core(g, d) && d.cur.Some? && d.tail == TailOf(d.j) && d.infos[d.cur.value].indices == []
    ensures CopyOld(g, d).Ok?
    ensures var d' := CopyOld(g, d).value;
            && Core(g, d') && OnlyMoved(d, d') && Contents(g, d') == Contents(g, d)
            && Evacuated(d')
            && |d'.infos[d.cur.value].indices| == |VictimLive(d)|
            && (forall id: nat :: Some(id) != d.cur && Some(id) != Victim(d) ==> Live(d'.loc, id) == Live(d.loc, id))
  {
    hide CountsOk, DiskOk, LastWriter, JugglerOk, SealedOk, HistoryOk, Contents, Inverts, KeepsLength;
    var c := d.cur.value;
    CurLive(d.loc, d.infos, d.used, c);
    if d.tail.Some? {
      var t := d.tail.value;
      TailIsUsed(g, d);
      if t != c {
        LiveSize(d.loc, d.infos, d.used, t);
        CopyFromEmpties(g, d, c, t, 0);
      }
    }
  }

  // ----- blockio_dev_write_current_macroblock -----

  /** The newest header tells which blocks the device has. */
  ghost predicate NewestHeader(d: Dev) {
    forall id :: id in d.used && id < |d.disk| && d.disk[id].header.Some?
                 && d.disk[id].header.value.seqno == d.j.seqno ==>
      var h := d.disk[id].header.value;
      h.used == d.used && h.reserved == d.reserved
  }

  /** The newest header stores the digest of the scheduled seqnos. */
  ghost predicate DigestStored(d: Dev) {
    forall id :: id in d.used && id < |d.disk| && d.disk[id].header.Some?
                 && d.disk[id].header.value.seqno == d.j.seqno ==>
      d.disk[id].header.value.seqnos == ScheduledSeqnos(d.j)
  }

  /** The state between writing one macroblock and selecting the next. */
  ghost predicate Parked(g: Geometry, d: Dev) {
    && Core(g, d) && d.cur == None && NewestHeader(d)
    && exists id :: id in d.used && id < |d.infos| && d.infos[id].seqno == d.j.seqno && id !in d.j.unscheduled
  }

  /** Two scheduled blocks never share a seqno. */
  lemma SeqnosDiffer(g: Geometry, d: Dev, a: nat, b: nat)
    requires Core(g, d) && a in d.used && b in d.used && a != b
    requires a !in d.j.unscheduled && b !in d.j.unscheduled
    ensures d.infos[a].seqno != d.infos[b].seqno
    ensures d.infos[a].seqno <= d.j.seqno
  {
    assert Has(d.j, a) && Has(d.j, b);
    var i :| 0 <= i < |d.j.scheduled| && d.j.scheduled[i].id == a;
    var k :| 0 <= k < |d.j.scheduled| && d.j.scheduled[k].id == b;
    assert d.j.scheduled[i] in d.j.scheduled && d.j.scheduled[k] in d.j.scheduled;
  }

  lemma WriteKeepsRecords(g: Geometry, d: Dev)
    requires Core(g, d) && d.cur.Some?
    ensures var w := WriteCurrent(g, d).value;
            && MapOk(w.loc, w.infos, w.used) && ListsOk(g.mmpm, w.infos, w.used)
            && CountsOk(w.loc, w.infos, w.used, w.cur) && JugglerOk(w.infos, w.used, w.cur, w.j)
            && DiskOk(g.mmpm, w.infos, w.disk, w.used, w.cur, w.j)
  {
    CurLive(d.loc, d.infos, d.used, d.cur.value);
  }

  lemma WriteKeepsLastWriter(g: Geometry, d: Dev)
    requires Core(g, d) && d.cur.Some?
    ensures var w := WriteCurrent(g, d).value; LastWriter(w.loc, w.infos, w.disk, w.used, w.cur)
  {
    var c := d.cur.value;
    var w := WriteCurrent(g, d).value;
    forall id, k | id in w.used && id < |w.disk| && w.disk[id].header.Some?
                   && 0 <= k < |w.disk[id].header.value.indices|
      ensures Superseded(w.loc, w.infos, w.cur, id, k, w.disk[id].header.value)
    {
      if id == c {
        assert d.loc[d.infos[c].indices[k]] == At(c, k);
      } else {
        assert Superseded(d.loc, d.infos, d.cur, id, k, d.disk[id].header.value);
        SeqnosDiffer(g, d, id, c);
      }
    }
  }

  lemma WriteKeepsSizes(g: Geometry, d: Dev)
    requires Core(g, d) && d.cur.Some?
    ensures Sized(g, WriteCurrent(g, d).value)
  {
    var c := d.cur.value;
    forall k | 0 <= k < g.mmpm
      ensures |Encrypted(g, d, c)[k]| == g.size
    {
      assert |Plain(g, d, |d.infos[c].indices|, k)| == g.size;
    }
  }

  /** Every other header is older, and knows of a block that is newer. */
  lemma WriteFollows(g: Geometry, d: Dev, b: nat)
    requires Core(g, d) && d.cur.Some? && Headed(d.disk, b) && Some(b) != d.cur
    ensures var w := WriteCurrent(g, d).value; Followed(w.disk, b) && Seqno(w.disk, b) < Seqno(w.disk, d.cur.value)
    ensures var h := d.disk[b].header.value; Tells(g, b, h) && Grown(g, h, d.used, |d.loc|)
  {
    hide MapOk, ListsOk, CountsOk, LastWriter, SealedOk, Inverts, KeepsLength, Capacity, Tells, Grown;
    var c := d.cur.value;
    var w := WriteCurrent(g, d).value;
    SeqnosDiffer(g, d, b, c);
    if Followed(d.disk, b) {
      var k: nat :| k in d.disk[b].header.value.used && (Headed(d.disk, k) ==> Seqno(d.disk, b) < Seqno(d.disk, k));
      assert Headed(w.disk, k) ==> Seqno(w.disk, b) < Seqno(w.disk, k);
    }
  }

  lemma WriteTells(g: Geometry, d: Dev)
    requires Core(g, d) && d.cur.Some?
    ensures var h := HeaderOf(d, d.infos[d.cur.value]); Tells(g, d.cur.value, h) && Grown(g, h, d.used, |d.loc|)
  {
    hide MapOk, ListsOk, CountsOk, DiskOk, LastWriter, JugglerOk, SealedOk, Inverts, KeepsLength, Capacity;
  }

  /** The new header knows of all the blocks there are. */
  lemma WriteKeepsHistory(g: Geometry, d: Dev)
    requires Core(g, d) && d.cur.Some?
    ensures var w := WriteCurrent(g, d).value; HistoryOk(g, |w.loc|, w.disk, w.used, w.reserved, w.cur)
  {
    hide MapOk, ListsOk, CountsOk, CurOk, DiskOk, LastWriter, JugglerOk, SealedOk, Inverts, KeepsLength, Capacity,
         Tells, Followed;
    var c := d.cur.value;
    var w := WriteCurrent(g, d).value;
    WriteTells(g, d);
    forall b: nat | Headed(d.disk, b) && b != c
      ensures Followed(w.disk, b) && Seqno(w.disk, b) < Seqno(w.disk, c)
      ensures var h := d.disk[b].header.value; Tells(g, b, h) && Grown(g, h, d.used, |d.loc|)
    {
      WriteFollows(g, d, b);
    }
    forall a: nat, b: nat | NotAfter(w.disk, a, b)
      ensures var h := w.disk[b].header.value;
        Grown(g, w.disk[a].header.value, h.used, Capacity(g, |h.used|, h.reserved))
    {
      if b != c {
        assert NotAfter(d.disk, a, b);
      }
    }
  }

  /** What was in RAM is now on disk, encrypted under the seqno in memory. */
  lemma WriteContents(g: Geometry, d: Dev)
    requires Core(g, d) && d.cur.Some?
    ensures Contents(g, WriteCurrent(g, d).value) == Contents(g, d)
  {
    var c := d.cur.value;
    var w := WriteCurrent(g, d).value;
    forall x | 0 <= x < |d.loc|
      ensures Content(g, w, x) == Content(g, d, x)
    {
      if d.loc[x].At? && d.loc[x].id == c {
        var k := d.loc[x].slot;
        assert Plain(g, d, |d.infos[c].indices|, k) == d.ram[k];
        assert Encrypted(g, d, c)[k] == g.cipher.enc(Iv(d.infos[c].seqno, k + 1, c), d.ram[k]);
      }
    }
  }

  lemma WriteParks(g: Geometry, d: Dev)
    requires Core(g, d) && d.cur.Some?
    ensures WriteCurrent(g, d).Ok?
    ensures var w := WriteCurrent(g, d).value;
            && Parked(g, w) && DigestStored(w) && Contents(g, w) == Contents(g, d)
            && w.loc == d.loc && w.j == d.j && w.writes == d.writes + 1 && w.used == d.used
            && w.spoiled == d.spoiled && w.ready == d.ready
  {
    var w := WriteCurrent(g, d).value;
    WriteKeepsSizes(g, d);
    WriteKeepsRecords(g, d);
    WriteKeepsLastWriter(g, d);
    WriteKeepsHistory(g, d);
    WriteContents(g, d);
    forall id | id in w.used && id != d.cur.value && id !in d.j.unscheduled
      ensures w.infos[id].seqno != w.j.seqno
    {
      SeqnosDiffer(g, d, id, d.cur.value);
    }
  }

  /** On disk, and in the buffer, which was encrypted in place, every slot now decrypts to what it held if it is in use,
      and to zeros if it is not. */
  lemma WriteClears(g: Geometry, d: Dev, k: nat)
    requires Core(g, d) && d.cur.Some? && k < g.mmpm
    ensures WriteCurrent(g, d).Ok?
    ensures var w, id := WriteCurrent(g, d).value, d.cur.value;
      && id < |d.infos| && id < |w.disk| && k < |w.disk[id].data| && k < |d.ram| && w.ram == w.disk[id].data
      && g.cipher.dec(Iv(d.infos[id].seqno, k + 1, id), w.disk[id].data[k]) ==
           if k < |d.infos[id].indices| then d.ram[k] else Zeros(g.size)
  {
    hide MapOk, ListsOk, CountsOk, DiskOk, LastWriter, JugglerOk, SealedOk, HistoryOk;
  }

  /** So nothing that the buffer held before the block was begun leaves a trace on disk. */
  lemma WriteForgets(g: Geometry, d: Dev, ram: seq<seq<Byte>>)
    requires Core(g, d) && d.cur.Some? && |ram| == g.mmpm
    requires forall k :: 0 <= k < |d.infos[d.cur.value].indices| && k < g.mmpm ==> ram[k] == d.ram[k]
    ensures WriteCurrent(g, d).Ok? && WriteCurrent(g, d.(ram := ram)).Ok?
    ensures WriteCurrent(g, d.(ram := ram)).value == WriteCurrent(g, d).value
  {
    hide MapOk, ListsOk, CountsOk, DiskOk, LastWriter, JugglerOk, SealedOk, HistoryOk;
    assert Encrypted(g, d.(ram := ram), d.cur.value) == Encrypted(g, d, d.cur.value);
  }

  // ----- blockio_dev_select_next_macroblock -----

  /** The block handed out is the one promised or an unscheduled one; either way nothing is live in it. */
  lemma SelectedIsEmpty(g: Geometry, d: Dev, id: nat)
    requires Core(g, d) && d.cur == None && Evacuated(d)
    requires if Obsoleted(d.j).Some? then id == Obsoleted(d.j).value.id else id in d.j.unscheduled
    ensures id in d.used && Live(d.loc, id) == {} && d.infos[id].indices == []
  {
    if Obsoleted(d.j).Some? {
      TailIsUsed(g, d);
    } else {
      assert Has(d.j, id);
      assert d.infos[id].indices == [];
    }
  }

  lemma SelectAnswers(g: Geometry, d: Dev)
    requires Core(g, d) && d.cur == None
    ensures Fits(g, d)
    ensures SelectNext(g, d).Ok? || SelectNext(g, d) == Fail(NoEntropy)
    ensures var o := GetDevblock(d.j, false, d.tape);
            var r := SelectNext(g, d);
            r.Ok? ==>
              && o.Handed? && Valid(o.j) && NotStuck(o.j) && Selected(d.j, o.block, o.j)
              && r.value.j == o.j && r.value.cur == Some(o.block.id) && o.block.id in d.used && o.block.id < |d.infos|
              && r.value.infos == d.infos[o.block.id :=
                   d.infos[o.block.id].(seqno := o.block.seqno, next := o.block.next)]
              && r.value.tail == TailOf(o.j)
  {
    hide MapOk, ListsOk, CountsOk, CurOk, DiskOk, LastWriter, Inverts, KeepsLength;
    SelectKeeps(d.j, d.tape);
    var o := GetDevblock(d.j, false, d.tape);
    if o.Handed? {
      SelectedWasThere(d.j, o.block, o.j);
      if Obsoleted(o.j).Some? {
        assert o.j.scheduled[0] in o.j.scheduled;
      }
    }
  }

  lemma SelectedWasThere(j: Schedule, b: Ticket, j': Schedule)
    requires Selected(j, b, j')
    ensures Has(j, b.id)
  {
    if Obsoleted(j).Some? {
      assert j.scheduled[0].id == b.id;
    }
  }

  lemma JugglerAfterSelect(infos: seq<Info>, used: set<nat>, j: Schedule, b: Ticket, j': Schedule)
    requires JugglerOk(infos, used, None, j) && Valid(j') && NotStuck(j') && Selected(j, b, j') && b.id < |infos|
    ensures JugglerOk(infos[b.id := infos[b.id].(seqno := b.seqno, next := b.next)], used, Some(b.id), j')
  {
    hide Valid, NotStuck;
    SelectedWasThere(j, b, j');
    SelectedHas(j, b, j');
  }

  lemma SelectKeepsJuggler(g: Geometry, d: Dev)
    requires Core(g, d) && d.cur == None && SelectNext(g, d).Ok?
    ensures var s := SelectNext(g, d).value; JugglerOk(s.infos, s.used, s.cur, s.j)
  {
    hide MapOk, ListsOk, CountsOk, CurOk, DiskOk, LastWriter, Inverts, KeepsLength, JugglerOk, SelectNext, Selected,
         Valid, NotStuck, Sized, GoodGeometry, SealedOk;
    SelectAnswers(g, d);
    SelectFrame(g, d);
    JugglerAfterSelect(d.infos, d.used, d.j, GetDevblock(d.j, false, d.tape).block, SelectNext(g, d).value.j);
  }

  /** What selecting leaves alone. */
  lemma SelectFrame(g: Geometry, d: Dev)
    requires Fits(g, d) && SelectNext(g, d).Ok?
    ensures var s := SelectNext(g, d).value;
            s == d.(j := s.j, tape := s.tape, updated := false, cur := s.cur, tail := s.tail, infos := s.infos)
  {
  }

  lemma SelectedHas(j: Schedule, b: Ticket, j': Schedule)
    requires Selected(j, b, j') && Has(j, b.id) && Valid(j')
    ensures forall id :: Has(j, id) <==> Has(j', id)
    ensures b.id !in j'.unscheduled
  {
    forall id
      ensures Has(j, id) <==> Has(j', id)
    {
      if id == b.id {
        var i :| 0 <= i < |j'.scheduled| && j'.scheduled[i] == b;
      } else {
        if i :| 0 <= i < |j.scheduled| && j.scheduled[i].id == id {
          assert j.scheduled[i] in j'.scheduled;
        }
        if i :| 0 <= i < |j'.scheduled| && j'.scheduled[i].id == id {
          assert j'.scheduled[i] in j'.scheduled;
          assert j'.scheduled[i] in j.scheduled;
        }
      }
    }
  }

  /** The newly selected block: nothing points to it, and only its seqnos change. */
  lemma SelectsEmptyBlock(g: Geometry, d: Dev)
    requires Core(g, d) && d.cur == None && Evacuated(d) && SelectNext(g, d).Ok?
    ensures var s := SelectNext(g, d).value;
            var c := s.cur.value;
            && c in d.used && c < |d.infos| && d.infos[c].indices == [] && Live(d.loc, c) == {}
            && s.infos == d.infos[c := d.infos[c].(seqno := s.infos[c].seqno, next := s.infos[c].next)]
            && (forall id :: id in s.j.unscheduled <==> id in d.j.unscheduled && id != c)
  {
    SelectAnswers(g, d);
    SelectedIsEmpty(g, d, SelectNext(g, d).value.cur.value);
  }

  lemma NothingPointsTo(loc: seq<Loc>, c: nat)
    requires Live(loc, c) == {}
    ensures forall x :: 0 <= x < |loc| && loc[x].At? ==> loc[x].id != c
  {
    forall x | 0 <= x < |loc| && loc[x].At?
      ensures loc[x].id != c
    {
      assert x in Live(loc, loc[x].id);
    }
  }

  lemma SelectKeepsRecords(g: Geometry, d: Dev)
    requires Core(g, d) && d.cur == None && Evacuated(d) && SelectNext(g, d).Ok?
    ensures var s := SelectNext(g, d).value;
            && MapOk(s.loc, s.infos, s.used) && ListsOk(g.mmpm, s.infos, s.used)
            && CountsOk(s.loc, s.infos, s.used, s.cur) && CurOk(s.loc, s.infos, s.used, s.cur)
  {
    hide SelectNext, DiskOk, LastWriter, JugglerOk, SealedOk, Inverts, KeepsLength, Evacuated;
    SelectsEmptyBlock(g, d);
    SelectFrame(g, d);
    var s := SelectNext(g, d).value;
    NothingPointsTo(d.loc, s.cur.value);
  }

  lemma SelectContents(g: Geometry, d: Dev)
    requires Core(g, d) && d.cur == None && Evacuated(d) && SelectNext(g, d).Ok?
    ensures Contents(g, SelectNext(g, d).value) == Contents(g, d)
  {
    SelectsEmptyBlock(g, d);
    SelectFrame(g, d);
    hide SelectNext, ListsOk, CountsOk, CurOk, DiskOk, LastWriter, JugglerOk, Inverts, KeepsLength;
    var s := SelectNext(g, d).value;
    NothingPointsTo(d.loc, s.cur.value);
    forall x | 0 <= x < |d.loc|
      ensures Content(g, s, x) == Content(g, d, x)
    {
    }
  }

  lemma SelectKeepsDisk(g: Geometry, d: Dev)
    requires Core(g, d) && d.cur == None && Evacuated(d) && SelectNext(g, d).Ok?
    ensures var s := SelectNext(g, d).value;
            && DiskOk(g.mmpm, s.infos, s.disk, s.used, s.cur, s.j)
            && LastWriter(s.loc, s.infos, s.disk, s.used, s.cur)
  {
    hide SelectNext, ListsOk, CountsOk, CurOk, JugglerOk, SealedOk, Inverts, KeepsLength, Evacuated;
    SelectsEmptyBlock(g, d);
    SelectFrame(g, d);
    var s := SelectNext(g, d).value;
    var c := s.cur.value;
    NothingPointsTo(d.loc, c);
    forall id, k | id in s.used && id < |s.disk| && Some(id) != s.cur && s.disk[id].header.Some?
                   && 0 <= k < |s.disk[id].header.value.indices|
      ensures Superseded(s.loc, s.infos, s.cur, id, k, s.disk[id].header.value)
    {
      assert Superseded(d.loc, d.infos, d.cur, id, k, d.disk[id].header.value);
    }
  }

  /** The newest header knows of the block that is selected. */
  lemma HistorySelects(g: Geometry, n: nat, disk: seq<Sector>, used: set<nat>, reserved: nat, c: nat)
    requires HistoryOk(g, n, disk, used, reserved, None) && c in used
    ensures HistoryOk(g, n, disk, used, reserved, Some(c))
  {
    hide Tells, Grown, Followed, Capacity;
    assert forall b: nat :: Headed(disk, b) && !Followed(disk, b) ==> disk[b].header.value.used == used;
  }

  lemma SelectKeepsHistory(g: Geometry, d: Dev)
    requires Core(g, d) && d.cur == None && SelectNext(g, d).Ok?
    ensures var s := SelectNext(g, d).value; HistoryOk(g, |s.loc|, s.disk, s.used, s.reserved, s.cur)
  {
    hide SelectNext, MapOk, ListsOk, CountsOk, CurOk, DiskOk, LastWriter, JugglerOk, SealedOk, HistoryOk, Inverts,
         KeepsLength, GetDevblock, Valid, NotStuck;
    SelectAnswers(g, d);
    SelectFrame(g, d);
    HistorySelects(g, |d.loc|, d.disk, d.used, d.reserved, SelectNext(g, d).value.cur.value);
  }

  lemma SelectOpens(g: Geometry, d: Dev)
    requires Core(g, d) && d.cur == None && Evacuated(d)
    ensures SelectNext(g, d).Ok? || SelectNext(g, d) == Fail(NoEntropy)
    ensures var r := SelectNext(g, d);
            r.Ok? ==>
              && Core(g, r.value) && r.value.tail == TailOf(r.value.j)
              && r.value.infos[r.value.cur.value].indices == []
              && Contents(g, r.value) == Contents(g, d)
              && r.value.loc == d.loc && r.value.disk == d.disk && r.value.writes == d.writes
              && r.value.used == d.used && r.value.spoiled == d.spoiled && r.value.ready == d.ready
              && r.value.j.seqno == d.j.seqno + 1
  {
    hide MapOk, ListsOk, CountsOk, CurOk, DiskOk, LastWriter, JugglerOk, HistoryOk, Inverts, KeepsLength, Contents,
         SelectNext, GetDevblock, Valid, NotStuck, Live;
    SelectAnswers(g, d);
    if SelectNext(g, d).Ok? {
      SelectKeepsHistory(g, d);
      SelectKeepsJuggler(g, d);
      SelectKeepsRecords(g, d);
      SelectContents(g, d);
      SelectKeepsDisk(g, d);
      SelectFrame(g, d);
      SelectsEmptyBlock(g, d);
    }
  }
}
