/** The log-structured block device (src/scubed3.c on src/blockio.c) as functions of its state.

    A call that trips one of the source's assertions, or indexes outside an array, yields Fail(AssertionFailed);
    a call that cannot read random words yields Fail(NoEntropy). */
module Device {
  import opened Prelude
  import opened Random
  import opened Juggler

  /** The inputs from which cipher_enc and cipher_dec make an initialisation vector. */
  datatype Iv = Iv(seqno: nat, slot: nat, id: nat)

  datatype Cipher = Cipher(enc: (Iv, seq<Byte>) -> seq<Byte>, dec: (Iv, seq<Byte>) -> seq<Byte>)

  /** mmpm mesoblocks of size bytes fit in a macroblock, beside the index block. */
  datatype Geometry = Geometry(mmpm: nat, size: nat, cipher: Cipher)

  /** An entry of block_indices, unpacked (module Packing has the packed form). */
  datatype Loc = Unwritten | At(id: nat, slot: nat)

  /** blockio_info_t; indices holds the first no_indices entries. */
  datatype Info = Info(seqno: nat, next: nat, indices: seq<nat>, nonobsolete: nat)

  /** The index block; the digest of the scheduled seqnos is represented by the seqnos themselves. */
  datatype Header = Header(seqno: nat, next: nat, indices: seq<nat>, used: set<nat>, reserved: nat, seqnos: seq<nat>)

  /** A macroblock of the backing file: its header if it decrypts to one of ours, and its data ciphertext. */
  datatype Sector = Sector(header: Option<Header>, data: seq<seq<Byte>>)

  /** scubed3_t with its blockio_dev_t.  The last two fields are not in the source but record its history: spoiled,
      that a mesoblock was added to a block scheduled for immediate reselection (module Hazards says what follows), and
      sealed, the seqnos under which macroblocks were encrypted. */
  datatype Dev = Dev(
    loc: seq<Loc>,          // block_indices
    infos: seq<Info>,       // blockio_infos
    disk: seq<Sector>,      // the backing file
    ram: seq<seq<Byte>>,    // the mesoblocks of tmp_macroblock
    j: Schedule,
    cur: Option<nat>,       // bi
    tail: Option<nat>,      // tail_macroblock
    ready: bool,            // output_initialized
    updated: bool,
    used: set<nat>,         // the status bitmap
    reserved: nat,
    writes: nat,
    tape: seq<Word>,
    spoiled: bool,
    sealed: seq<nat>)

  predicate Fits(g: Geometry, d: Dev) {
    && |d.ram| == g.mmpm && |d.disk| == |d.infos|
    && (d.cur.Some? ==> d.cur.value < |d.infos|)
    && (d.tail.Some? ==> d.tail.value < |d.infos|)
    && forall i :: 0 <= i < |d.disk| ==> |d.disk[i].data| == g.mmpm
  }

  /** The mesoblock is in the current macroblock. */
  predicate InRam(d: Dev, l: Loc) {
    l.At? && d.cur == Some(l.id)
  }

  predicate Full(g: Geometry, d: Dev)
    requires d.cur.Some? && d.cur.value < |d.infos|
  {
    |d.infos[d.cur.value].indices| == g.mmpm
  }

  /** no_block_indices */
  function Capacity(g: Geometry, blocks: nat, reserved: nat): nat {
    if blocks <= reserved then 0 else (blocks - reserved) * g.mmpm
  }

  // ----- reading the backing file -----

  predicate Headed(disk: seq<Sector>, id: nat) {
    id < |disk| && disk[id].header.Some?
  }

  function Seqno(disk: seq<Sector>, id: nat): nat {
    if Headed(disk, id) then disk[id].header.value.seqno else 0
  }

  /** blockio_dev_read_mesoblk */
  function ReadSlot(g: Geometry, d: Dev, id: nat, k: nat): seq<Byte>
    requires id < |d.infos| && id < |d.disk| && k < |d.disk[id].data|
  {
    g.cipher.dec(Iv(d.infos[id].seqno, k + 1, id), d.disk[id].data[k])
  }

  // ----- bookkeeping -----

  /** obsolete_mesoblk */
  function Obsolete(d: Dev, id: nat): (r: Result<Dev>)
    ensures r.Ok? ==> id < |d.infos| && r.value == d.(infos := r.value.infos) && |r.value.infos| == |d.infos|
  {
    if id >= |d.infos| || d.infos[id].nonobsolete == 0 then Fail(AssertionFailed)
    else
      var n := d.infos[id].nonobsolete - 1;
      var i := d.infos[id].(nonobsolete := n);
      Ok(d.(infos := d.infos[id := if n == 0 then i.(indices := []) else i]))
  }

  /** add_blockref */
  function AddRef(d: Dev, c: nat, x: nat): Dev
    requires c < |d.infos| && x < |d.loc|
  {
    d.(infos := d.infos[c := d.infos[c].(indices := d.infos[c].indices + [x])],
       loc := d.loc[x := At(c, |d.infos[c].indices|)])
  }

  // ----- evacuation -----

  /** The body of the loop in copy_old_block_to_current: slot k of tail block t into current block c. */
  function CopySlot(g: Geometry, d: Dev, c: nat, t: nat, k: nat): (r: Result<Dev>)
    requires Fits(g, d) && c < |d.infos| && t < |d.infos| && k < |d.infos[t].indices|
    ensures r.Ok? ==> Fits(g, r.value) && |r.value.infos| == |d.infos|
    ensures r.Ok? && r.value != d ==> |d.infos[c].indices| < g.mmpm
    ensures r.Ok? && r.value != d ==>
      |r.value.infos[c].indices| == |d.infos[c].indices| + 1 || |r.value.infos[t].indices| == 0
    ensures r.Ok? ==> r.value.tape == d.tape && r.value.cur == d.cur && r.value.tail == d.tail
    ensures r.Ok? ==> r.value.ready == d.ready && r.value.updated == d.updated
  {
    var x := d.infos[t].indices[k];
    if x >= |d.loc| || !(d.loc[x].At? && d.loc[x].id == t) then Ok(d)
    else
      var n := |d.infos[c].indices|;
      if n >= g.mmpm || k >= g.mmpm then Fail(AssertionFailed)
      else
        var d1 := d.(ram := d.ram[n := ReadSlot(g, d, t, k)]);
        Obsolete(AddRef(d1, c, x), t)
  }

  function CopyFrom(g: Geometry, d: Dev, c: nat, t: nat, k: nat): (r: Result<Dev>)
    requires Fits(g, d) && c < |d.infos| && t < |d.infos|
    ensures r.Ok? ==> Fits(g, r.value) && |r.value.infos| == |d.infos|
    ensures r.Ok? ==> r.value.tape == d.tape && r.value.cur == d.cur && r.value.tail == d.tail
    ensures r.Ok? ==> r.value.ready == d.ready && r.value.updated == d.updated
    decreases g.mmpm - |d.infos[c].indices|, |d.infos[t].indices| - k
  {
    if k >= |d.infos[t].indices| then Ok(d)
    else
      var d' :- CopySlot(g, d, c, t, k);
      if k + 1 >= |d'.infos[t].indices| then Ok(d')
      else CopyFrom(g, d', c, t, k + 1)
  }

  /** copy_old_block_to_current */
  function CopyOld(g: Geometry, d: Dev): (r: Result<Dev>)
    requires Fits(g, d)
    ensures r.Ok? ==> Fits(g, r.value) && r.value.tape == d.tape && r.value.cur == d.cur
    ensures r.Ok? ==> |r.value.infos| == |d.infos|
    ensures r.Ok? ==> r.value.ready == d.ready && r.value.updated == d.updated
  {
    if d.tail.Some? && d.tail.value in d.used then
      if d.cur == None then Fail(AssertionFailed)
      else CopyFrom(g, d, d.cur.value, d.tail.value, 0)
    else Ok(d)
  }

  /** initialize_output */
  function InitOutput(g: Geometry, d: Dev): (r: Result<Dev>)
    requires Fits(g, d)
    ensures r.Ok? ==> Fits(g, r.value) && r.value.cur == d.cur && |r.value.infos| == |d.infos|
    ensures r.Ok? ==> r.value.ready && r.value.updated == d.updated
  {
    if d.ready then Ok(d)
    else
      var d' :- CopyOld(g, d);
      Ok(d'.(ready := true))
  }

  // ----- switching macroblocks -----

  function Plain(g: Geometry, d: Dev, n: nat, k: nat): seq<Byte>
    requires |d.ram| == g.mmpm && k < g.mmpm
  {
    if k < n then d.ram[k] else Zeros(g.size)
  }

  function Encrypted(g: Geometry, d: Dev, id: nat): seq<seq<Byte>>
    requires Fits(g, d) && id < |d.infos|
  {
    seq(g.mmpm, k requires 0 <= k < g.mmpm =>
      g.cipher.enc(Iv(d.infos[id].seqno, k + 1, id), Plain(g, d, |d.infos[id].indices|, k)))
  }

  function HeaderOf(d: Dev, i: Info): Header {
    Header(i.seqno, i.next, i.indices, d.used, d.reserved, ScheduledSeqnos(d.j))
  }

  /** blockio_dev_write_current_macroblock: tmp_macroblock is encrypted in place. */
  function WriteCurrent(g: Geometry, d: Dev): (r: Result<Dev>)
    requires Fits(g, d)
    ensures r.Ok? ==> Fits(g, r.value) && r.value.cur == None && |r.value.infos| == |d.infos|
    ensures r.Ok? ==> r.value.tape == d.tape && r.value.ready == d.ready
  {
    if d.cur == None then Fail(AssertionFailed)
    else
      var id := d.cur.value;
      var data := Encrypted(g, d, id);
      Ok(d.(disk := d.disk[id := Sector(Some(HeaderOf(d, d.infos[id])), data)],
            ram := data,
            infos := d.infos[id := d.infos[id].(nonobsolete := |d.infos[id].indices|)],
            writes := d.writes + 1,
            sealed := d.sealed + [d.infos[id].seqno],
            cur := None))
  }

  /** blockio_dev_select_next_macroblock */
  function SelectNext(g: Geometry, d: Dev): (r: Result<Dev>)
    requires Fits(g, d)
    ensures r.Ok? ==> Fits(g, r.value) && r.value.cur.Some? && |r.value.infos| == |d.infos|
    ensures r.Ok? ==> |r.value.tape| < |d.tape| && r.value.ready == d.ready && !r.value.updated
  {
    if d.cur.Some? then Fail(AssertionFailed)
    else match GetDevblock(d.j, false, d.tape)
      case Starved => Fail(NoEntropy)
      case Refused => Fail(AssertionFailed)
      case Stuck => Fail(AssertionFailed)
      case Handed(b, j', tape') =>
        var t := Obsoleted(j');
        if b.id >= |d.infos| || (t.Some? && t.value.id >= |d.infos|) then Fail(AssertionFailed)
        else Ok(d.(j := j', tape := tape', updated := false, cur := Some(b.id),
                   tail := if t.Some? then Some(t.value.id) else None,
                   infos := d.infos[b.id := d.infos[b.id].(seqno := b.seqno, next := b.next)]))
  }

  /** blockio_dev_write_current_and_select_next_macroblock */
  function Switch(g: Geometry, d: Dev): (r: Result<Dev>)
    requires Fits(g, d)
    ensures r.Ok? ==> Fits(g, r.value) && r.value.cur.Some? && |r.value.infos| == |d.infos|
    ensures r.Ok? ==> |r.value.tape| < |d.tape| && r.value.ready == d.ready && !r.value.updated
  {
    var d1 :- WriteCurrent(g, d);
    SelectNext(g, d1)
  }

  /** select_new_macroblock */
  function SelectNew(g: Geometry, d: Dev): (r: Result<Dev>)
    requires Fits(g, d)
    ensures r.Ok? ==> Fits(g, r.value) && r.value.cur.Some? && |r.value.infos| == |d.infos|
    ensures r.Ok? ==> r.value.ready && !r.value.updated
    decreases |d.tape|
  {
    if !d.ready then Fail(AssertionFailed)
    else
      var d1 :- Switch(g, d);
      var d2 :- CopyOld(g, d1);
      if Full(g, d2) then SelectNew(g, d2) else Ok(d2)
  }

  /** scubed3_cycle */
  function Cycle(g: Geometry, d: Dev): (r: Result<Dev>)
    requires Fits(g, d)
    ensures r.Ok? ==> Fits(g, r.value) && !r.value.updated
  {
    if d.ready then
      var d1 :- Switch(g, d);
      Ok(d1.(ready := false))
    else
      var d1 :- CopyOld(g, d);
      var d2 :- Switch(g, d1);
      Ok(d2.(ready := false))
  }

  // ----- requests on one mesoblock -----

  function Splice(old_: seq<Byte>, off: nat, new_: seq<Byte>): (s: seq<Byte>)
    requires off + |new_| <= |old_|
    ensures |s| == |old_|
  {
    old_[..off] + new_ + old_[off + |new_|..]
  }

  /** What the mesoblock at l holds when it is not in RAM. */
  function OnDisk(g: Geometry, d: Dev, l: Loc): Result<seq<Byte>>
    requires Fits(g, d)
  {
    match l
    case Unwritten => Ok(Zeros(g.size))
    case At(id, k) =>
      if id >= |d.infos| || k >= g.mmpm then Fail(AssertionFailed) else Ok(ReadSlot(g, d, id, k))
  }

  /** The copy of mesoblock x that do_write makes in the next free slot: the new bytes, and around them the old ones. */
  function Cow(g: Geometry, d: Dev, x: nat, off: nat, data: seq<Byte>): (r: Result<Dev>)
    requires Fits(g, d) && d.cur.Some? && x < |d.loc| && |d.infos[d.cur.value].indices| < g.mmpm
    ensures r.Ok? ==> Fits(g, r.value) && r.value == d.(ram := r.value.ram, spoiled := r.value.spoiled)
  {
    var old_ :- OnDisk(g, d, d.loc[x]);
    if off + |data| > |old_| then Fail(AssertionFailed)
    else Ok(d.(ram := d.ram[|d.infos[d.cur.value].indices| := Splice(old_, off, data)],
               spoiled := d.spoiled || d.tail == d.cur))
  }

  /** The last part of do_write: mesoblock x, not in RAM, is added to the current block. */
  function Append(g: Geometry, d: Dev, x: nat, off: nat, data: seq<Byte>): (r: Result<Dev>)
    requires Fits(g, d) && d.cur.Some? && x < |d.loc|
    ensures r.Ok? ==> Fits(g, r.value) && r.value.cur == d.cur
    ensures r.Ok? ==> r.value.ready == d.ready && r.value.updated == d.updated
  {
    var c := d.cur.value;
    var n := |d.infos[c].indices|;
    if n >= g.mmpm then Fail(AssertionFailed)
    else
      var d1 :- Cow(g, d, x, off, data);
      var d2 :- if d1.loc[x].At? then Obsolete(d1, d1.loc[x].id) else Ok(d1);
      Ok(AddRef(d2, c, x))
  }

  /** The last part of do_write: mesoblock x, at slot k of the current block, is updated in place. */
  function Update(g: Geometry, d: Dev, k: nat, off: nat, data: seq<Byte>): (r: Result<Dev>)
    requires Fits(g, d)
    ensures r.Ok? ==> Fits(g, r.value) && r.value.cur == d.cur
    ensures r.Ok? ==> r.value.ready == d.ready && r.value.updated == d.updated
  {
    if k >= g.mmpm || off + |data| > |d.ram[k]| then Fail(AssertionFailed)
    else Ok(d.(ram := d.ram[k := Splice(d.ram[k], off, data)]))
  }

  /** do_write up to the point where there is room.  The location is looked up before the output is initialised,
      so a mesoblock that the evacuation moves to RAM still causes a switch if the current block is now full. */
  function MakeRoom(g: Geometry, d: Dev, x: nat): (r: Result<Dev>)
    requires Fits(g, d) && x < |d.loc|
    ensures r.Ok? ==> Fits(g, r.value) && r.value.cur.Some? && r.value.ready
  {
    var d1 :- InitOutput(g, d.(updated := true));
    if d1.cur == None then Fail(AssertionFailed)
    else if !InRam(d1, d.loc[x]) && Full(g, d1) then SelectNew(g, d1)
    else Ok(d1)
  }

  /** do_write */
  function DoWrite(g: Geometry, d: Dev, x: nat, off: nat, data: seq<Byte>): (r: Result<Dev>)
    requires Fits(g, d)
    ensures r.Ok? ==> Fits(g, r.value) && r.value.ready
  {
    if x >= |d.loc| || off + |data| > g.size then Fail(AssertionFailed)
    else
      var d1 :- MakeRoom(g, d, x);
      if x >= |d1.loc| then Fail(AssertionFailed)
      else if InRam(d1, d1.loc[x]) then Update(g, d1, d1.loc[x].slot, off, data)
      else Append(g, d1, x, off, data)
  }

  /** do_read */
  function DoRead(g: Geometry, d: Dev, x: nat, off: nat, len: nat): Result<seq<Byte>>
    requires Fits(g, d)
  {
    if x >= |d.loc| || d.cur == None then Fail(AssertionFailed)
    else
      var l := d.loc[x];
      if InRam(d, l) then
        if l.slot >= g.mmpm || off + len > |d.ram[l.slot]| then Fail(AssertionFailed)
        else Ok(d.ram[l.slot][off..off + len])
      else
        var b :- OnDisk(g, d, l);
        if off + len > |b| then Fail(AssertionFailed) else Ok(b[off..off + len])
  }

  // ----- resizing -----

  /** A turn of the loop in blockio_dev_allocate_macroblocks: a block that was drawn from the unallocated ones. */
  function Adopt(d: Dev, id: nat): Result<Dev> {
    if id >= |d.infos| || id in d.used then Fail(AssertionFailed)
    else match AddMacroblock(d.j, Ticket(id, 0, 0))
      case None => Fail(AssertionFailed)
      case Some(j') => Ok(d.(infos := d.infos[id := Info(0, 0, [], 0)], j := j', used := d.used + {id}))
  }

  function Allocate(d: Dev, ids: seq<nat>): (r: Result<Dev>)
    ensures r.Ok? ==> |r.value.infos| == |d.infos|
    ensures r.Ok? ==> r.value == d.(infos := r.value.infos, j := r.value.j, used := r.value.used)
    decreases |ids|
  {
    if ids == [] then Ok(d)
    else
      var d' :- Adopt(d, ids[0]);
      Allocate(d', ids[1..])
  }

  /** scubed3_reinit; the program ends if the map would shrink. */
  function Reinit(g: Geometry, d: Dev): (r: Result<Dev>)
    ensures r.Ok? ==> r.value == d.(loc := r.value.loc)
  {
    var n := Capacity(g, |d.used|, d.reserved);
    if n < |d.loc| then Fail(AssertionFailed)
    else Ok(d.(loc := d.loc + seq(n - |d.loc|, _ => Unwritten)))
  }

  /** control_resize, with the blocks that were drawn; it refuses to do nothing, and to reserve more than there is. */
  function Resize(g: Geometry, d: Dev, ids: seq<nat>, reserved: nat): (r: Result<Dev>)
    requires Fits(g, d)
    ensures r.Ok? ==> Fits(g, r.value)
  {
    if ids == [] || reserved > |d.used| + |ids| then Ok(d)
    else
      var d1 :- Allocate(d, ids);
      var d2 :- Reinit(g, d1.(reserved := reserved));
      var d3 :- if d2.cur == None then SelectNext(g, d2) else Ok(d2);
      Ok(d3.(updated := true))
  }
}
