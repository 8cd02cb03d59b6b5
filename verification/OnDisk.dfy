/** The bytes of a macroblock in the backing file: what blockio_dev_write_current_macroblock encrypts is what the
    header scan and blockio_dev_read_mesoblk get back. */
module OnDisk {
  import opened Prelude
  import opened Binio
  import opened Bitmap
  import opened Juggler
  import opened Device
  import opened Bookkeeping
  import opened Steps
  import opened IndexBlock
  import Flat
  import Cbc
  import Packing

  /** A cipher mode with its keys, the layout of index blocks, SHA-256, and SHA-256 over a list of seqnos. */
  datatype Format = Format(mode: Cbc.Mode, shape: Shape, sha: Digest, seqs: seq<nat> -> seq<Byte>)

  ghost predicate GoodFormat(fm: Format) {
    && Cbc.GoodMode(fm.mode) && IsDigest(fm.sha) && (forall s {:trigger fm.seqs(s)} :: |fm.seqs(s)| == 32)
    && 0 < fm.shape.mmpm < Pow256(4) && fm.shape.Size() % 16 == 0
  }

  function GeometryOf(fm: Format): Geometry {
    Geometry(fm.shape.mmpm, fm.shape.Size(), Cbc.CipherOf(fm.mode))
  }

  /** The layout for mesoblocks of 2^m and macroblocks of 2^big bytes. */
  function ShapeOf(m: nat, big: nat): Shape
    requires Packing.Accepted(m, big)
  {
    Packing.RegionsTile(m, big);
    Shape(Packing.Mmpm(m, big), Packing.MaxMacroblocks(m, big) / 32)
  }

  /** Accepted parameters give a layout that fills one mesoblock exactly, in whole cipher blocks. */
  lemma ShapeIsGood(m: nat, big: nat)
    requires Packing.Accepted(m, big)
    ensures ShapeOf(m, big).Size() == Pow2(m) && Pow2(m) % 16 == 0
    ensures ShapeOf(m, big).BitmapOffset() == Packing.BitmapOffset(m, big)
    ensures 0 < ShapeOf(m, big).mmpm < Pow256(4)
    ensures 32 * ShapeOf(m, big).words == Packing.MaxMacroblocks(m, big)
  {
    hide Pow2;
    Packing.RegionsTile(m, big);
    Pow256Four();
  }

  lemma FormatIsGood(fm: Format)
    requires GoodFormat(fm)
    ensures GoodGeometry(GeometryOf(fm))
  {
    Cbc.ModeIsGood(fm.mode, fm.shape.mmpm, fm.shape.Size());
  }

  /** The numbers in a header fit their fields on disk. */
  ghost predicate Narrow(fm: Format, h: Header) {
    && 0 < h.seqno < h.next < Pow256(8)
    && |h.used| < Pow256(4) && h.reserved < Pow256(4)
    && |h.indices| <= fm.shape.mmpm && Small(h.indices)
    && forall id :: id in h.used ==> id < 32 * fm.shape.words
  }

  function FieldsOf(fm: Format, s: Sector): Fields
    requires s.header.Some?
  {
    var h := s.header.value;
    Fields(fm.sha(Flat.Join(s.data)), fm.seqs(h.seqnos), h.seqno, h.next, |h.used|, h.reserved, h.indices,
           OfSet(h.used, fm.shape.words))
  }

  /** The fields of an index block say what the header does. */
  ghost predicate Says(fm: Format, f: Fields, h: Header) {
    && f.seqno == h.seqno && f.next == h.next && f.indices == h.indices
    && f.noMacroblocks == |h.used| && f.reserved == h.reserved
    && Ones(Bitmap.Unrolled(f.bitmap)) == h.used
    && f.seqnosHash == fm.seqs(h.seqnos)
  }

  /** A macroblock in the backing file. */
  function MacroBytes(fm: Format, id: nat, s: Sector): seq<Byte>
    requires s.header.Some? && |s.header.value.indices| <= fm.shape.mmpm
  {
    Cbc.EncBytes(fm.mode, Iv(0, 0, id), Encode(fm.sha, fm.shape, FieldsOf(fm, s))) + Flat.Join(s.data)
  }

  /** blockio_dev_scan_header on the bytes of macroblock id */
  function ScanBytes(fm: Format, id: nat, x: seq<Byte>): Scanned
    requires |x| >= fm.shape.Size()
  {
    Decode(fm.sha, fm.shape, Cbc.DecBytes(fm.mode, Iv(0, 0, id), x[..fm.shape.Size()]))
  }

  /** blockio_dev_read_mesoblk on the bytes of macroblock id, written under seqno */
  function ReadBytes(fm: Format, id: nat, seqno: nat, k: nat, x: seq<Byte>): seq<Byte>
    requires Flat.Pos(k + 1, fm.shape.Size()) + fm.shape.Size() <= |x|
  {
    Cbc.DecBytes(fm.mode, Iv(seqno, k + 1, id), Slice(x, Flat.Pos(k + 1, fm.shape.Size()), fm.shape.Size()))
  }

  /** blockio_check_data_hash on the bytes of a macroblock */
  predicate DataHashAgrees(fm: Format, f: Fields, x: seq<Byte>)
    requires |x| >= fm.shape.Size()
  {
    f.dataHash == fm.sha(x[fm.shape.Size()..])
  }

  lemma FieldsAreWell(fm: Format, s: Sector)
    requires GoodFormat(fm) && s.header.Some? && Narrow(fm, s.header.value)
    ensures WellFormed(fm.shape, FieldsOf(fm, s)) && Says(fm, FieldsOf(fm, s), s.header.value)
  {
    hide Bitmap.Unrolled, OfSet, Ones, Pow256;
    OnesOfSet(s.header.value.used, fm.shape.words);
  }

  /** The header scan gets back what the header says, and the data hash agrees. */
  lemma ScanReadsBack(fm: Format, id: nat, s: Sector)
    requires GoodFormat(fm) && s.header.Some? && Narrow(fm, s.header.value)
    ensures |MacroBytes(fm, id, s)| >= fm.shape.Size()
    ensures ScanBytes(fm, id, MacroBytes(fm, id, s)) == Ours(FieldsOf(fm, s))
    ensures Says(fm, FieldsOf(fm, s), s.header.value)
    ensures DataHashAgrees(fm, FieldsOf(fm, s), MacroBytes(fm, id, s))
  {
    hide Encode, Decode, WellFormed, Says, Flat.Join, Cbc.EncBytes, Cbc.DecBytes, Pow256;
    FieldsAreWell(fm, s);
    var f := FieldsOf(fm, s);
    var plain := Encode(fm.sha, fm.shape, f);
    DecodeInvertsEncode(fm.sha, fm.shape, f);
    Cbc.DecBytesInverts(fm.mode, Iv(0, 0, id), plain);
    var x := MacroBytes(fm, id, s);
    assert x[..fm.shape.Size()] == Cbc.EncBytes(fm.mode, Iv(0, 0, id), plain);
    assert x[fm.shape.Size()..] == Flat.Join(s.data);
  }

  /** Mesoblock k of a macroblock is found at its place. */
  lemma SlotIsFound(fm: Format, id: nat, s: Sector, k: nat)
    requires GoodFormat(fm) && s.header.Some? && Narrow(fm, s.header.value)
    requires Flat.Blocks(s.data, fm.shape.Size()) && k < |s.data|
    ensures Flat.Pos(k + 1, fm.shape.Size()) + fm.shape.Size() <= |MacroBytes(fm, id, s)|
    ensures Slice(MacroBytes(fm, id, s), Flat.Pos(k + 1, fm.shape.Size()), fm.shape.Size()) == s.data[k]
  {
    hide Encode, Decode, Says, Narrow, FieldsOf, Slice, Flat.Join, Flat.Pos, Cbc.EncBytes, Pow256;
    FieldsAreWell(fm, s);
    DecodeInvertsEncode(fm.sha, fm.shape, FieldsOf(fm, s));
    var size := fm.shape.Size();
    NextPos(k, size);
    Flat.JoinSlice(s.data, size, k, 0, size);
    Behind(Cbc.EncBytes(fm.mode, Iv(0, 0, id), Encode(fm.sha, fm.shape, FieldsOf(fm, s))), Flat.Join(s.data),
      Flat.Pos(k, size), size);
  }

  lemma NextPos(k: nat, size: nat)
    ensures Flat.Pos(k + 1, size) == size + Flat.Pos(k, size)
  {
  }

  lemma Behind(a: seq<Byte>, b: seq<Byte>, p: nat, n: nat)
    requires p + n <= |b|
    ensures Slice(a + b, |a| + p, n) == b[p..p + n]
  {
  }

  /** The numbers that the current macroblock will put on disk fit their fields. */
  ghost predicate NarrowDevice(fm: Format, d: Dev)
    requires d.cur.Some? && d.cur.value < |d.infos|
  {
    && d.infos[d.cur.value].next < Pow256(8)
    && |d.loc| <= Pow256(4) && |d.used| < Pow256(4) && d.reserved < Pow256(4)
    && forall id :: id in d.used ==> id < 32 * fm.shape.words
  }

  lemma HeaderIsNarrow(fm: Format, d: Dev)
    requires Core(GeometryOf(fm), d) && d.cur.Some? && NarrowDevice(fm, d)
    ensures Narrow(fm, HeaderOf(d, d.infos[d.cur.value]))
  {
    hide Sized, MapOk, CountsOk, DiskOk, LastWriter, SealedOk, Sorted,
         DistinctTickets, Disjoint, Pow256, GoodGeometry, Obsoleted;
    var c := d.cur.value;
    assert Has(d.j, c);
    var i :| 0 <= i < |d.j.scheduled| && d.j.scheduled[i].id == c;
    var t := d.j.scheduled[i];
    assert t in d.j.scheduled;
    forall k | 0 <= k < |d.infos[c].indices|
      ensures d.infos[c].indices[k] < Pow256(4)
    {
    }
  }

  /** What was written is read back: every field of the header, and every mesoblock, zero where unused. */
  lemma WrittenReadsBack(fm: Format, d: Dev, k: nat)
    requires GoodFormat(fm) && Core(GeometryOf(fm), d) && d.cur.Some? && NarrowDevice(fm, d) && k < fm.shape.mmpm
    ensures WriteCurrent(GeometryOf(fm), d).Ok?
    ensures var g, id := GeometryOf(fm), d.cur.value;
      var s := WriteCurrent(g, d).value.disk[id];
      && s.header.Some? && |s.header.value.indices| <= g.mmpm
      && |MacroBytes(fm, id, s)| >= g.size + Flat.Pos(k, g.size) + g.size
      && ScanBytes(fm, id, MacroBytes(fm, id, s)) == Ours(FieldsOf(fm, s))
      && Says(fm, FieldsOf(fm, s), HeaderOf(d, d.infos[id]))
      && DataHashAgrees(fm, FieldsOf(fm, s), MacroBytes(fm, id, s))
      && ReadBytes(fm, id, d.infos[id].seqno, k, MacroBytes(fm, id, s)) ==
           if k < |d.infos[id].indices| then d.ram[k] else Zeros(g.size)
  {
    hide Encode, Decode, WellFormed, Says, Flat.Join, Cbc.EncBytes, Cbc.DecBytes, Pow256, Narrow, ScanBytes, MacroBytes,
      FieldsOf, DataHashAgrees, HeaderOf, Slice, MapOk, ListsOk, CountsOk, CurOk, DiskOk,
       LastWriter, SealedOk, JugglerOk;
    var g, id := GeometryOf(fm), d.cur.value;
    var s := WriteCurrent(g, d).value.disk[id];
    HeaderIsNarrow(fm, d);
    HeaderLists(d, d.infos[id]);
    NarrowLists(fm, s.header.value);
    ScanReadsBack(fm, id, s);
    DataIsSized(g, d);
    SlotIsFound(fm, id, s, k);
    Cbc.DecBytesInverts(fm.mode, Iv(d.infos[id].seqno, k + 1, id), Plain(g, d, |d.infos[id].indices|, k));
  }

  lemma HeaderLists(d: Dev, i: Info)
    ensures HeaderOf(d, i).indices == i.indices
  {
  }

  lemma NarrowLists(fm: Format, h: Header)
    requires Narrow(fm, h)
    ensures |h.indices| <= fm.shape.mmpm
  {
  }

  lemma DataIsSized(g: Geometry, d: Dev)
    requires GoodGeometry(g) && Sized(g, d) && d.cur.Some?
    ensures Flat.Blocks(Encrypted(g, d, d.cur.value), g.size)
  {
    var id := d.cur.value;
    var data := Encrypted(g, d, id);
    forall k | 0 <= k < |data|
      ensures |data[k]| == g.size
    {
      assert |Plain(g, d, |d.infos[id].indices|, k)| == g.size;
    }
  }
}
