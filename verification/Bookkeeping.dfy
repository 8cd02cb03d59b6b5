/** The invariant of an open device, and the four kinds of change that keep it: moving a mesoblock to the current
    macroblock, updating it there, writing the macroblock out and selecting the next one. */
module Bookkeeping {
  import opened Prelude
  import opened Random
  import opened Juggler
  import opened Device

  /** The cipher decrypts what it encrypts and keeps the length of a mesoblock. */
  ghost predicate Inverts(g: Geometry) {
    forall iv: Iv, x: seq<Byte> {:trigger g.cipher.enc(iv, x)} :: |x| == g.size ==>
      |g.cipher.enc(iv, x)| == g.size && g.cipher.dec(iv, g.cipher.enc(iv, x)) == x
  }

  ghost predicate KeepsLength(g: Geometry) {
    forall iv: Iv, x: seq<Byte> {:trigger g.cipher.dec(iv, x)} :: |x| == g.size ==> |g.cipher.dec(iv, x)| == g.size
  }

  ghost predicate GoodGeometry(g: Geometry) {
    g.mmpm > 0 && g.size > 0 && Inverts(g) && KeepsLength(g)
  }

  /** The logical mesoblocks whose latest version is in macroblock id. */
  ghost function Live(loc: seq<Loc>, id: nat): set<nat> {
    set x: nat | x < |loc| && loc[x].At? && loc[x].id == id
  }

  // ----- the parts of the invariant -----

  ghost predicate Sized(g: Geometry, d: Dev) {
    && Fits(g, d)
    && (forall k :: 0 <= k < g.mmpm ==> |d.ram[k]| == g.size)
    && (forall i, k :: 0 <= i < |d.disk| && 0 <= k < g.mmpm ==> |d.disk[i].data[k]| == g.size)
    && (forall id :: id in d.used ==> id < |d.infos|)
  }

  /** block_indices[x] = (id, k) implies k < no_indices and indices[k] = x. */
  ghost predicate MapOk(loc: seq<Loc>, infos: seq<Info>, used: set<nat>) {
    forall x :: 0 <= x < |loc| && loc[x].At? ==>
      && loc[x].id in used && loc[x].id < |infos|
      && loc[x].slot < |infos[loc[x].id].indices| && infos[loc[x].id].indices[loc[x].slot] == x
  }

  /** No block lists an index twice. */
  ghost predicate ListsOk(mmpm: nat, infos: seq<Info>, used: set<nat>) {
    forall id :: id in used && id < |infos| ==> |infos[id].indices| <= mmpm && NoDup(infos[id].indices)
  }

  /** no_nonobsolete counts the live mesoblocks of every block but the current one, and none are listed at 0. */
  ghost predicate CountsOk(loc: seq<Loc>, infos: seq<Info>, used: set<nat>, cur: Option<nat>) {
    forall id :: id in used && id < |infos| && Some(id) != cur ==>
      && infos[id].nonobsolete == |Live(loc, id)|
      && (infos[id].nonobsolete == 0 ==> infos[id].indices == [])
  }

  /** Everything listed by the current block is live there. */
  ghost predicate CurOk(loc: seq<Loc>, infos: seq<Info>, used: set<nat>, cur: Option<nat>) {
    cur.Some? ==>
      && cur.value in used && cur.value < |infos|
      && forall k :: 0 <= k < |infos[cur.value].indices| ==>
           && infos[cur.value].indices[k] < |loc|
           && loc[infos[cur.value].indices[k]] == At(cur.value, k)
  }

  /** The header on disk of every block but the current one is the one in memory, up to fully obsolete lists; in
      particular the seqno in memory is the one that the data was encrypted with. */
  ghost predicate DiskOk(mmpm: nat, infos: seq<Info>, disk: seq<Sector>, used: set<nat>, cur: Option<nat>,
                         j: Schedule) {
    && |disk| == |infos|
    && (forall id :: 0 <= id < |disk| && disk[id].header.Some? ==> id in used)
    && forall id :: id in used && id < |infos| && Some(id) != cur ==>
      match disk[id].header
      case None => id in j.unscheduled && infos[id] == Info(0, 0, [], 0)
      case Some(h) =>
        && id !in j.unscheduled && h.seqno == infos[id].seqno && h.next == infos[id].next
        && |h.indices| <= mmpm && NoDup(h.indices)
        && (infos[id].indices == [] || infos[id].indices == h.indices)
  }

  /** Whatever a header on disk lists has its latest version there, in a younger block or in RAM. */
  ghost predicate LastWriter(loc: seq<Loc>, infos: seq<Info>, disk: seq<Sector>, used: set<nat>, cur: Option<nat>) {
    forall id, k ::
      id in used && id < |disk| && Some(id) != cur && disk[id].header.Some? && 0 <= k < |disk[id].header.value.indices|
      ==> Superseded(loc, infos, cur, id, k, disk[id].header.value)
  }

  ghost predicate Superseded(loc: seq<Loc>, infos: seq<Info>, cur: Option<nat>, id: nat, k: nat, h: Header)
    requires k < |h.indices|
  {
    var x := h.indices[k];
    && x < |loc| && loc[x].At? && loc[x].id < |infos|
    && (Some(loc[x].id) == cur || loc[x] == At(id, k) || h.seqno < infos[loc[x].id].seqno)
  }

  /** The juggler lists exactly the blocks of the device, and knows their seqnos. */
  ghost predicate JugglerOk(infos: seq<Info>, used: set<nat>, cur: Option<nat>, j: Schedule) {
    && Valid(j) && NotStuck(j)
    && (forall id :: id in used <==> Has(j, id))
    && (forall t :: t in j.scheduled ==> t.id < |infos| && infos[t.id].seqno == t.seqno && infos[t.id].next == t.next)
    && (cur.Some? ==> cur.value < |infos| && cur.value !in j.unscheduled && infos[cur.value].seqno == j.seqno)
  }

  /** No seqno was used twice, and the current block's is still unused. */
  ghost predicate SealedOk(sealed: seq<nat>, cur: Option<nat>, j: Schedule) {
    && (forall i, k :: 0 <= i < k < |sealed| ==> sealed[i] < sealed[k])
    && forall i :: 0 <= i < |sealed| ==> if cur.Some? then sealed[i] < j.seqno else sealed[i] <= j.seqno
  }

  /** Block a was written no later than block b. */
  ghost predicate NotAfter(disk: seq<Sector>, a: nat, b: nat) {
    Headed(disk, a) && Headed(disk, b) && Seqno(disk, a) <= Seqno(disk, b)
  }

  /** A header of block id knows of it, and has room for all that it lists. */
  ghost predicate Tells(g: Geometry, id: nat, h: Header) {
    id in h.used && forall x :: x in h.indices ==> x < Capacity(g, |h.used|, h.reserved)
  }

  /** Since header h the device has only grown, to these blocks and this many mesoblocks. */
  ghost predicate Grown(g: Geometry, h: Header, used: set<nat>, n: nat) {
    h.used <= used && Capacity(g, |h.used|, h.reserved) <= n
  }

  /** Among the blocks that the header of b knows of is one that has no header or a newer one. */
  ghost predicate Followed(disk: seq<Sector>, b: nat) {
    exists c: nat :: Headed(disk, b) && c in disk[b].header.value.used
                     && (Headed(disk, c) ==> Seqno(disk, b) < Seqno(disk, c))
  }

  /** What the headers tell of the past: the device only grew, and what was selected after a block was written is a
      block that its header knows of. */
  ghost predicate HistoryOk(g: Geometry, n: nat, disk: seq<Sector>, used: set<nat>, reserved: nat, cur: Option<nat>) {
    && n == Capacity(g, |used|, reserved)
    && (forall a: nat, b: nat {:trigger NotAfter(disk, a, b)} :: NotAfter(disk, a, b) ==>
          var h := disk[b].header.value; Grown(g, disk[a].header.value, h.used, Capacity(g, |h.used|, h.reserved)))
    && forall b: nat {:trigger Followed(disk, b)} :: Headed(disk, b) ==>
         var h := disk[b].header.value;
         && Tells(g, b, h) && Grown(g, h, used, n)
         && (Followed(disk, b) || if cur.Some? then cur.value in h.used else h.used == used)
  }

  ghost predicate Core(g: Geometry, d: Dev) {
    && GoodGeometry(g)
    && Sized(g, d)
    && MapOk(d.loc, d.infos, d.used)
    && ListsOk(g.mmpm, d.infos, d.used)
    && CountsOk(d.loc, d.infos, d.used, d.cur)
    && CurOk(d.loc, d.infos, d.used, d.cur)
    && DiskOk(g.mmpm, d.infos, d.disk, d.used, d.cur, d.j)
    && LastWriter(d.loc, d.infos, d.disk, d.used, d.cur)
    && JugglerOk(d.infos, d.used, d.cur, d.j)
    && SealedOk(d.sealed, d.cur, d.j)
    && HistoryOk(g, |d.loc|, d.disk, d.used, d.reserved, d.cur)
  }

  function TailOf(j: Schedule): Option<nat> {
    if Obsoleted(j).Some? then Some(Obsoleted(j).value.id) else None
  }

  /** The block that will be overwritten next holds nothing live. */
  ghost predicate Evacuated(d: Dev) {
    TailOf(d.j).Some? ==> Live(d.loc, TailOf(d.j).value) == {}
  }

  /** The invariant between requests. */
  ghost predicate Open(g: Geometry, d: Dev) {
    && Core(g, d)
    && d.cur.Some? && d.tail == TailOf(d.j)
    && (d.ready ==> Evacuated(d))
    && (!d.ready ==> d.infos[d.cur.value].indices == [])
  }

  // ----- contents -----

  /** What logical mesoblock x holds. */
  ghost function Content(g: Geometry, d: Dev, x: nat): seq<Byte>
    requires Fits(g, d) && x < |d.loc|
  {
    match d.loc[x]
    case Unwritten => Zeros(g.size)
    case At(id, k) =>
      if id >= |d.infos| || k >= g.mmpm then []
      else if d.cur == Some(id) then d.ram[k]
      else ReadSlot(g, d, id, k)
  }

  ghost function Contents(g: Geometry, d: Dev): seq<seq<Byte>>
    requires Fits(g, d)
  {
    seq(|d.loc|, x requires 0 <= x < |d.loc| => Content(g, d, x))
  }

  /** Mesoblocks that were never written. */
  function Untouched(g: Geometry, n: nat): seq<seq<Byte>> {
    seq(n, _ => Zeros(g.size))
  }

  lemma ContentLength(g: Geometry, d: Dev, x: nat)
    requires Core(g, d) && x < |d.loc|
    ensures |Content(g, d, x)| == g.size
  {
  }

  // ----- counting live mesoblocks -----

  lemma LiveIsListed(loc: seq<Loc>, infos: seq<Info>, used: set<nat>, id: nat, x: nat)
    requires MapOk(loc, infos, used) && x in Live(loc, id)
    ensures id < |infos| && x in infos[id].indices
  {
    assert infos[loc[x].id].indices[loc[x].slot] == x;
  }

  lemma LiveSize(loc: seq<Loc>, infos: seq<Info>, used: set<nat>, id: nat)
    requires MapOk(loc, infos, used) && id < |infos| && NoDup(infos[id].indices)
    ensures |Live(loc, id)| <= |infos[id].indices|
  {
    forall x | x in Live(loc, id)
      ensures x in Members(infos[id].indices)
    {
      LiveIsListed(loc, infos, used, id, x);
    }
    MemberCount(infos[id].indices);
    SubsetSize(Live(loc, id), Members(infos[id].indices));
  }

  lemma CurLive(loc: seq<Loc>, infos: seq<Info>, used: set<nat>, c: nat)
    requires MapOk(loc, infos, used) && CurOk(loc, infos, used, Some(c)) && NoDup(infos[c].indices)
    ensures |Live(loc, c)| == |infos[c].indices|
    ensures Live(loc, c) == Members(infos[c].indices)
  {
    forall x
      ensures x in Live(loc, c) <==> x in infos[c].indices
    {
      if x in Live(loc, c) {
        LiveIsListed(loc, infos, used, c, x);
      }
      if x in infos[c].indices {
        var k :| 0 <= k < |infos[c].indices| && infos[c].indices[k] == x;
        assert loc[infos[c].indices[k]] == At(c, k);
      }
    }
    assert Live(loc, c) == Members(infos[c].indices);
    MemberCount(infos[c].indices);
  }

  /** no_nonobsolete is the number of slots k with block_indices[indices[k]] = (id, k). */
  lemma LiveSlots(g: Geometry, d: Dev, id: nat)
    requires Core(g, d) && id in d.used
    ensures |Live(d.loc, id)| == |set k: nat | k < |d.infos[id].indices| && d.infos[id].indices[k] < |d.loc|
                                        && d.loc[d.infos[id].indices[k]] == At(id, k)|
  {
    var slots := set k: nat | k < |d.infos[id].indices| && d.infos[id].indices[k] < |d.loc|
                              && d.loc[d.infos[id].indices[k]] == At(id, k);
    SlotsOf(d.loc, d.infos[id].indices, id, Live(d.loc, id), slots);
  }

  lemma {:induction false} SlotsOf(loc: seq<Loc>, indices: seq<nat>, id: nat, live: set<nat>, slots: set<nat>)
    requires forall x :: x in live ==>
      x < |loc| && loc[x].At? && loc[x].slot in slots && loc[x].slot < |indices| && indices[loc[x].slot] == x
    requires forall k :: k in slots ==> k < |indices| && indices[k] in live && loc[indices[k]].slot == k
    ensures |live| == |slots|
    decreases |slots|
  {
    if slots == {} {
      assert live == {};
    } else {
      var k :| k in slots;
      SlotsOf(loc, indices, id, live - {indices[k]}, slots - {k});
    }
  }

  // ----- a mesoblock moves to the current block -----

  function Dropped(i: Info): Info {
    if i.nonobsolete <= 1 then i.(nonobsolete := 0, indices := [])
    else i.(nonobsolete := i.nonobsolete - 1)
  }

  function WithoutOld(infos: seq<Info>, l: Loc): seq<Info> {
    if l.At? && l.id < |infos| then infos[l.id := Dropped(infos[l.id])] else infos
  }

  function WithNew(infos: seq<Info>, c: nat, x: nat): seq<Info>
    requires c < |infos|
  {
    infos[c := infos[c].(indices := infos[c].indices + [x])]
  }

  /** Mesoblock x gets a new version v in the next free slot of block c; the old version becomes obsolete. */
  function Moved(d: Dev, c: nat, x: nat, v: seq<Byte>): Dev
    requires c < |d.infos| && x < |d.loc| && |d.infos[c].indices| < |d.ram|
  {
    d.(ram := d.ram[|d.infos[c].indices| := v],
       infos := WithNew(WithoutOld(d.infos, d.loc[x]), c, x),
       loc := d.loc[x := At(c, |d.infos[c].indices|)])
  }

  ghost predicate CanMove(g: Geometry, d: Dev, c: nat, x: nat, v: seq<Byte>) {
    && Core(g, d) && d.cur == Some(c) && x < |d.loc| && !InRam(d, d.loc[x])
    && |d.infos[c].indices| < g.mmpm && |v| == g.size
  }

  lemma LiveAfterMove(loc: seq<Loc>, x: nat, c: nat, n: nat, id: nat)
    requires x < |loc| && (loc[x].At? ==> loc[x].id != c)
    ensures var loc' := loc[x := At(c, n)];
            Live(loc', id) == if id == c then Live(loc, c) + {x} else Live(loc, id) - {x}
    ensures id != c && x in Live(loc, id) ==> |Live(loc[x := At(c, n)], id)| == |Live(loc, id)| - 1
    ensures id != c && x !in Live(loc, id) ==> Live(loc[x := At(c, n)], id) == Live(loc, id)
  {
  }

  /** The fields of a block's record after the move. */
  lemma MovedInfo(g: Geometry, d: Dev, c: nat, x: nat, v: seq<Byte>, id: nat)
    requires CanMove(g, d, c, x, v) && id in d.used
    ensures var i, i' := d.infos[id], Moved(d, c, x, v).infos[id];
            && i'.seqno == i.seqno && i'.next == i.next
            && (id == c ==> i'.indices == i.indices + [x])
            && (id != c && x in Live(d.loc, id) ==> i' == Dropped(i) && i.nonobsolete == |Live(d.loc, id)| > 0)
            && (id != c && x !in Live(d.loc, id) ==> i' == i)
  {
  }

  lemma MoveKeepsMap(g: Geometry, d: Dev, c: nat, x: nat, v: seq<Byte>)
    requires CanMove(g, d, c, x, v)
    ensures var d' := Moved(d, c, x, v); MapOk(d'.loc, d'.infos, d'.used)
  {
    var d' := Moved(d, c, x, v);
    forall y | 0 <= y < |d'.loc| && d'.loc[y].At?
      ensures && d'.loc[y].id in d'.used && d'.loc[y].id < |d'.infos|
              && d'.loc[y].slot < |d'.infos[d'.loc[y].id].indices|
              && d'.infos[d'.loc[y].id].indices[d'.loc[y].slot] == y
    {
      if y != x {
        var id := d.loc[y].id;
        MovedInfo(g, d, c, x, v, id);
        if id != c && x in Live(d.loc, id) && d.infos[id].nonobsolete <= 1 {
          // y and x are two live mesoblocks of the same block
          SubsetSize({x, y}, Live(d.loc, id));
        }
      }
    }
  }

  lemma MoveKeepsLists(g: Geometry, d: Dev, c: nat, x: nat, v: seq<Byte>)
    requires CanMove(g, d, c, x, v)
    ensures var d' := Moved(d, c, x, v); ListsOk(g.mmpm, d'.infos, d'.used)
  {
    var d' := Moved(d, c, x, v);
    forall k | 0 <= k < |d.infos[c].indices|
      ensures d.infos[c].indices[k] != x
    {
      assert d.loc[d.infos[c].indices[k]] == At(c, k);
    }
    forall id | id in d'.used && id < |d'.infos|
      ensures |d'.infos[id].indices| <= g.mmpm && NoDup(d'.infos[id].indices)
    {
      MovedInfo(g, d, c, x, v, id);
    }
  }

  lemma MoveKeepsCounts(g: Geometry, d: Dev, c: nat, x: nat, v: seq<Byte>)
    requires CanMove(g, d, c, x, v)
    ensures var d' := Moved(d, c, x, v); CountsOk(d'.loc, d'.infos, d'.used, d'.cur)
  {
    var d' := Moved(d, c, x, v);
    forall id | id in d'.used && id < |d'.infos| && Some(id) != d'.cur
      ensures && d'.infos[id].nonobsolete == |Live(d'.loc, id)|
              && (d'.infos[id].nonobsolete == 0 ==> d'.infos[id].indices == [])
    {
      MovedInfo(g, d, c, x, v, id);
      LiveAfterMove(d.loc, x, c, |d.infos[c].indices|, id);
    }
  }

  lemma MoveKeepsCur(g: Geometry, d: Dev, c: nat, x: nat, v: seq<Byte>)
    requires CanMove(g, d, c, x, v)
    ensures var d' := Moved(d, c, x, v); CurOk(d'.loc, d'.infos, d'.used, d'.cur)
  {
    var d' := Moved(d, c, x, v);
    MovedInfo(g, d, c, x, v, c);
    forall k | 0 <= k < |d'.infos[c].indices|
      ensures d'.infos[c].indices[k] < |d'.loc| && d'.loc[d'.infos[c].indices[k]] == At(c, k)
    {
      if k < |d.infos[c].indices| {
        assert d.loc[d.infos[c].indices[k]] == At(c, k);
      }
    }
  }

  lemma MoveKeepsDisk(g: Geometry, d: Dev, c: nat, x: nat, v: seq<Byte>)
    requires CanMove(g, d, c, x, v)
    ensures var d' := Moved(d, c, x, v);
            && DiskOk(g.mmpm, d'.infos, d'.disk, d'.used, d'.cur, d'.j)
            && LastWriter(d'.loc, d'.infos, d'.disk, d'.used, d'.cur)
  {
    var d' := Moved(d, c, x, v);
    forall id | id in d'.used
      ensures d'.infos[id].seqno == d.infos[id].seqno && d'.infos[id].next == d.infos[id].next
      ensures id != c ==> d'.infos[id].indices == [] || d'.infos[id].indices == d.infos[id].indices
    {
      MovedInfo(g, d, c, x, v, id);
    }
    forall id, k | id in d'.used && id < |d'.disk| && Some(id) != d'.cur && d'.disk[id].header.Some?
                   && 0 <= k < |d'.disk[id].header.value.indices|
      ensures Superseded(d'.loc, d'.infos, d'.cur, id, k, d'.disk[id].header.value)
    {
      var h := d.disk[id].header.value;
      assert Superseded(d.loc, d.infos, d.cur, id, k, h);
      if h.indices[k] != x {
        assert d.loc[h.indices[k]].id in d.used;
      }
    }
  }

  lemma MoveKeepsJuggler(g: Geometry, d: Dev, c: nat, x: nat, v: seq<Byte>)
    requires CanMove(g, d, c, x, v)
    ensures var d' := Moved(d, c, x, v); JugglerOk(d'.infos, d'.used, d'.cur, d'.j)
  {
    var d' := Moved(d, c, x, v);
    forall id | 0 <= id < |d.infos|
      ensures d'.infos[id].seqno == d.infos[id].seqno && d'.infos[id].next == d.infos[id].next
    {
    }
  }

  lemma MoveKeepsCore(g: Geometry, d: Dev, c: nat, x: nat, v: seq<Byte>)
    requires CanMove(g, d, c, x, v)
    ensures Core(g, Moved(d, c, x, v))
  {
    MoveKeepsMap(g, d, c, x, v);
    MoveKeepsLists(g, d, c, x, v);
    MoveKeepsCounts(g, d, c, x, v);
    MoveKeepsCur(g, d, c, x, v);
    MoveKeepsDisk(g, d, c, x, v);
    MoveKeepsJuggler(g, d, c, x, v);
  }

  lemma MoveContents(g: Geometry, d: Dev, c: nat, x: nat, v: seq<Byte>)
    requires CanMove(g, d, c, x, v)
    ensures Fits(g, Moved(d, c, x, v))
    ensures Contents(g, Moved(d, c, x, v)) == Contents(g, d)[x := v]
  {
    var d' := Moved(d, c, x, v);
    forall y | 0 <= y < |d.loc| && y != x
      ensures Content(g, d', y) == Content(g, d, y)
    {
      if d.loc[y].At? {
        assert d.infos[d.loc[y].id].seqno == d'.infos[d.loc[y].id].seqno;
      }
    }
  }
}
