/** The index block at the start of every macroblock, byte by byte (src/blockio.c). */
module IndexBlock {
  import opened Prelude
  import opened Binio
  import opened Bitmap

  /** Room for mmpm indices and a bitmap of so many words. */
  datatype Shape = Shape(mmpm: nat, words: nat) {
    function Size(): nat {
      260 + 4 * mmpm + 4 * words
    }

    function BitmapOffset(): nat {
      260 + 4 * mmpm
    }
  }

  /** What an index block says, apart from its own hash. */
  datatype Fields = Fields(dataHash: seq<Byte>, seqnosHash: seq<Byte>, seqno: nat, next: nat, noMacroblocks: nat,
    reserved: nat, indices: seq<nat>, bitmap: seq<Bits>)

  /** blockio_dev_scan_header: the block is not ours, the program stops, it writes past the end of an array, or the
      block is ours. */
  datatype Scanned = NotOurs | Fatal | Overrun | Ours(fields: Fields)

  type Digest = seq<Byte> -> seq<Byte>

  ghost predicate IsDigest(sha: Digest) {
    forall x {:trigger sha(x)} :: |sha(x)| == 32
  }

  /** "SSS3v0.1" */
  function Magic(): (m: seq<Byte>)
    ensures |m| == 8
  {
    [0x53, 0x53, 0x53, 0x33, 0x76, 0x30, 0x2E, 0x31]
  }

  // ----- lists of numbers -----

  function Numbers(ns: seq<nat>): (x: seq<Byte>)
    ensures |x| == 4 * |ns|
  {
    if ns == [] then [] else Numbers(ns[..|ns| - 1]) + Be(4, ns[|ns| - 1])
  }

  function ReadNumbers(x: seq<Byte>): (ns: seq<nat>)
    requires |x| % 4 == 0
    ensures 4 * |ns| == |x|
  {
    seq(|x| / 4, i requires 0 <= i < |x| / 4 => ReadUint32(x[4 * i..4 * i + 4]))
  }

  lemma {:induction false} NumbersAt(ns: seq<nat>, i: nat)
    requires i < |ns|
    ensures Numbers(ns)[4 * i..4 * i + 4] == Be(4, ns[i])
  {
    hide Be;
    if i < |ns| - 1 {
      NumbersAt(ns[..|ns| - 1], i);
      assert Numbers(ns)[4 * i..4 * i + 4] == Numbers(ns[..|ns| - 1])[4 * i..4 * i + 4];
    }
  }

  lemma NumberReadsBack(n: nat)
    requires n < Pow256(4)
    ensures ReadUint32(Be(4, n)) == n
  {
    ReadUint32IsNum(Be(4, n));
    ReadsBack(4, n);
  }

  lemma NumberWritesBack(x: seq<Byte>)
    requires |x| == 4
    ensures ReadUint32(x) < Pow256(4) && Be(4, ReadUint32(x)) == x
  {
    ReadUint32IsNum(x);
    WritesBack(x);
  }

  lemma LongReadsBack(n: nat)
    requires n < Pow256(8)
    ensures ReadUint64(Be(8, n)) == n
  {
    ReadUint64IsNum(Be(8, n));
    ReadsBack(8, n);
  }

  lemma LongWritesBack(x: seq<Byte>)
    requires |x| == 8
    ensures ReadUint64(x) < Pow256(8) && Be(8, ReadUint64(x)) == x
  {
    ReadUint64IsNum(x);
    WritesBack(x);
  }

  ghost predicate Small(ns: seq<nat>) {
    forall i :: 0 <= i < |ns| ==> ns[i] < Pow256(4)
  }

  lemma NumbersReadBack(ns: seq<nat>)
    requires Small(ns)
    ensures ReadNumbers(Numbers(ns)) == ns
  {
    hide Numbers, Be, ReadUint32, Pow256;
    forall i | 0 <= i < |ns|
      ensures ReadNumbers(Numbers(ns))[i] == ns[i]
    {
      NumbersAt(ns, i);
      NumberReadsBack(ns[i]);
    }
  }

  lemma NumbersWriteBack(x: seq<Byte>)
    requires |x| % 4 == 0
    ensures Small(ReadNumbers(x)) && Numbers(ReadNumbers(x)) == x
  {
    hide Numbers, Be, ReadUint32, Pow256;
    var ns := ReadNumbers(x);
    forall i | 0 <= i < |ns|
      ensures ns[i] < Pow256(4)
    {
      NumberWritesBack(x[4 * i..4 * i + 4]);
    }
    forall b | 0 <= b < |x|
      ensures Numbers(ns)[b] == x[b]
    {
      var i := b / 4;
      NumbersAt(ns, i);
      NumberWritesBack(x[4 * i..4 * i + 4]);
      assert Numbers(ns)[b] == Numbers(ns)[4 * i..4 * i + 4][b - 4 * i];
      assert x[b] == x[4 * i..4 * i + 4][b - 4 * i];
    }
  }

  lemma {:induction false} ImageInvertsParse(x: seq<Byte>)
    requires |x| % 4 == 0
    ensures Image(Parse(x)) == x
  {
    hide Word, Be;
    if x != [] {
      var w := x[|x| - 4..];
      ImageInvertsParse(x[..|x| - 4]);
      NumberWritesBack(w);
      WordSize();
      ValueExpand(ReadUint32(w), 32);
      WordIs(w);
      assert Parse(x)[..|Parse(x)| - 1] == Parse(x[..|x| - 4]);
      assert x == x[..|x| - 4] + w;
    }
  }

  lemma WordIs(x: seq<Byte>)
    requires |x| == 4
    ensures Word(x) == Expand(ReadUint32(x), 32)
  {
  }

  lemma {:induction false} ValueExpand(n: nat, k: nat)
    requires n < Pow2(k)
    ensures Value(Expand(n, k)) == n
    decreases k
  {
    if k > 0 {
      ValueExpand(n / 2, k - 1);
      assert Expand(n, k)[1..] == Expand(n / 2, k - 1);
    }
  }

  // ----- writing -----

  function Padded(ns: seq<nat>, n: nat): (p: seq<nat>)
    requires |ns| <= n
    ensures |p| == n
  {
    ns + seq(n - |ns|, _ => 0)
  }

  ghost predicate WellFormed(sh: Shape, f: Fields) {
    && |f.dataHash| == 32 && |f.seqnosHash| == 32
    && 0 < f.seqno < f.next < Pow256(8)
    && f.noMacroblocks < Pow256(4) && f.reserved < Pow256(4)
    && |f.indices| <= sh.mmpm < Pow256(4) && Small(f.indices)
    && |f.bitmap| == sh.words
  }

  function Front(f: Fields): seq<Byte> {
    f.dataHash + f.seqnosHash + Be(8, f.seqno) + Be(8, f.next) + Magic() + Be(4, f.noMacroblocks) + Be(4, f.reserved)
    + Zeros(128)
  }

  function Body(sh: Shape, f: Fields): seq<Byte>
    requires |f.indices| <= sh.mmpm
  {
    Front(f) + Be(4, |f.indices|) + Numbers(Padded(f.indices, sh.mmpm)) + Image(f.bitmap)
  }

  /** The index block as blockio_dev_write_current_macroblock makes it, before encryption. */
  function Encode(sha: Digest, sh: Shape, f: Fields): seq<Byte>
    requires |f.indices| <= sh.mmpm
  {
    sha(Body(sh, f)) + Body(sh, f)
  }

  // ----- reading, at the offsets of the source -----

  function Slice(x: seq<Byte>, offset: nat, n: nat): (s: seq<Byte>)
    requires offset + n <= |x|
    ensures |s| == n
  {
    x[offset..offset + n]
  }

  function Decode(sha: Digest, sh: Shape, x: seq<Byte>): Scanned
    requires |x| == sh.Size()
  {
    if Slice(x, 0x70, 8) != Magic() then NotOurs
    else if Slice(x, 0, 32) != sha(x[32..]) then NotOurs
    else
      var seqno := ReadUint64(Slice(x, 0x60, 8));
      var next := ReadUint64(Slice(x, 0x68, 8));
      var n := ReadUint32(Slice(x, 0x100, 4));
      if Slice(x, 0x80, 128) != Zeros(128) || seqno == 0 || next <= seqno then Fatal
      else if n > sh.mmpm then Overrun
      else
        var all := ReadNumbers(Slice(x, 0x104, 4 * sh.mmpm));
        if exists i :: n <= i < |all| && all[i] != 0 then Fatal
        else Ours(Fields(Slice(x, 0x20, 32), Slice(x, 0x40, 32), seqno, next, ReadUint32(Slice(x, 0x78, 4)),
                         ReadUint32(Slice(x, 0x7C, 4)), all[..n], Parse(Slice(x, sh.BitmapOffset(), 4 * sh.words))))
  }

  // ----- the layout -----

  /** Every field lies at its offset. */
  ghost predicate FrontLaid(x: seq<Byte>, f: Fields) {
    && |x| >= 0x100
    && Slice(x, 0x20, 32) == f.dataHash && Slice(x, 0x40, 32) == f.seqnosHash
    && Slice(x, 0x60, 8) == Be(8, f.seqno) && Slice(x, 0x68, 8) == Be(8, f.next)
    && Slice(x, 0x70, 8) == Magic()
    && Slice(x, 0x78, 4) == Be(4, f.noMacroblocks) && Slice(x, 0x7C, 4) == Be(4, f.reserved)
    && Slice(x, 0x80, 128) == Zeros(128)
  }

  ghost predicate BackLaid(sh: Shape, x: seq<Byte>, f: Fields) {
    && |f.indices| <= sh.mmpm && |f.bitmap| == sh.words && |x| == sh.Size()
    && Slice(x, 0x100, 4) == Be(4, |f.indices|)
    && Slice(x, 0x104, 4 * sh.mmpm) == Numbers(Padded(f.indices, sh.mmpm))
    && Slice(x, sh.BitmapOffset(), 4 * sh.words) == Image(f.bitmap)
  }

  /** Bytes from lo up to hi. */
  function Part(x: seq<Byte>, lo: nat, hi: nat): seq<Byte>
    requires lo <= hi <= |x|
  {
    x[lo..hi]
  }

  lemma PartsJoin(x: seq<Byte>, lo: nat, mid: nat, hi: nat)
    requires lo <= mid <= hi <= |x|
    ensures Part(x, lo, mid) + Part(x, mid, hi) == Part(x, lo, hi)
  {
  }

  /** A block laid out so has that front. */
  lemma LaidFront(x: seq<Byte>, f: Fields)
    requires FrontLaid(x, f)
    ensures Part(x, 0x20, 0x100) == Front(f)
  {
    hide Be, Magic, Zeros;
    PartsJoin(x, 0x20, 0x40, 0x60);
    PartsJoin(x, 0x20, 0x60, 0x68);
    PartsJoin(x, 0x20, 0x68, 0x70);
    PartsJoin(x, 0x20, 0x70, 0x78);
    PartsJoin(x, 0x20, 0x78, 0x7C);
    PartsJoin(x, 0x20, 0x7C, 0x80);
    PartsJoin(x, 0x20, 0x80, 0x100);
  }

  lemma LaidBody(sh: Shape, x: seq<Byte>, f: Fields)
    requires FrontLaid(x, f) && BackLaid(sh, x, f)
    ensures x[32..] == Body(sh, f)
  {
    hide Be, Magic, Zeros, Numbers, Padded, Image, Front, FrontLaid;
    LaidFront(x, f);
    PartsJoin(x, 0x20, 0x100, 0x104);
    PartsJoin(x, 0x20, 0x104, sh.BitmapOffset());
    PartsJoin(x, 0x20, sh.BitmapOffset(), sh.Size());
  }

  lemma FrontIsLaid(h: seq<Byte>, f: Fields)
    requires |h| == 32 && |f.dataHash| == 32 && |f.seqnosHash| == 32
    ensures FrontLaid(h + Front(f), f)
  {
    hide Be, Magic, Zeros;
    var a1 := h + f.dataHash;
    var a2 := a1 + f.seqnosHash;
    var a3 := a2 + Be(8, f.seqno);
    var a4 := a3 + Be(8, f.next);
    var a5 := a4 + Magic();
    var a6 := a5 + Be(4, f.noMacroblocks);
    var a7 := a6 + Be(4, f.reserved);
    var a8 := a7 + Zeros(128);
    assert h + Front(f) == a8;
  }

  lemma BackIsLaid(sh: Shape, h: seq<Byte>, f: Fields)
    requires |h| == 32 && |f.dataHash| == 32 && |f.seqnosHash| == 32
    requires |f.indices| <= sh.mmpm && |f.bitmap| == sh.words
    ensures FrontLaid(h + Body(sh, f), f) && BackLaid(sh, h + Body(sh, f), f)
  {
    hide Be, Numbers, Padded, Image, Front, FrontLaid;
    FrontIsLaid(h, f);
    var a0 := h + Front(f);
    FrontSize(f);
    var a1 := a0 + Be(4, |f.indices|);
    var a2 := a1 + Numbers(Padded(f.indices, sh.mmpm));
    var a3 := a2 + Image(f.bitmap);
    assert h + Body(sh, f) == a3;
    assert a3 == a0 + (Be(4, |f.indices|) + Numbers(Padded(f.indices, sh.mmpm)) + Image(f.bitmap));
    FrontStays(a0, Be(4, |f.indices|) + Numbers(Padded(f.indices, sh.mmpm)) + Image(f.bitmap), f);
  }

  lemma FrontSize(f: Fields)
    requires |f.dataHash| == 32 && |f.seqnosHash| == 32
    ensures |Front(f)| == 0xE0
  {
  }

  lemma FrontStays(x: seq<Byte>, y: seq<Byte>, f: Fields)
    requires FrontLaid(x, f)
    ensures FrontLaid(x + y, f)
  {
    hide Be, Magic, Zeros;
  }

  // ----- round trips -----

  /** Scanning an index block gives back every field that was written. */
  lemma DecodeInvertsEncode(sha: Digest, sh: Shape, f: Fields)
    requires IsDigest(sha) && WellFormed(sh, f)
    ensures |Encode(sha, sh, f)| == sh.Size()
    ensures Decode(sha, sh, Encode(sha, sh, f)) == Ours(f)
  {
    hide Be, Magic, Zeros, Numbers, ReadNumbers, Padded, Image, Parse, Body, ReadUint32, ReadUint64, Pow256;
    var x := Encode(sha, sh, f);
    BackIsLaid(sh, sha(Body(sh, f)), f);
    assert x[32..] == Body(sh, f);
    LongReadsBack(f.seqno);
    LongReadsBack(f.next);
    NumberReadsBack(f.noMacroblocks);
    NumberReadsBack(f.reserved);
    NumberReadsBack(|f.indices|);
    PaddedReadsBack(sh, f.indices);
    ParseInvertsImage(f.bitmap);
  }

  lemma PaddedReadsBack(sh: Shape, ns: seq<nat>)
    requires |ns| <= sh.mmpm && Small(ns)
    ensures var all := ReadNumbers(Numbers(Padded(ns, sh.mmpm)));
      |all| == sh.mmpm && all[..|ns|] == ns && forall i :: |ns| <= i < |all| ==> all[i] == 0
  {
    hide Numbers, ReadNumbers;
    NumbersReadBack(Padded(ns, sh.mmpm));
  }

  /** Whatever is accepted is the encoding of the fields that are read from it. */
  lemma EncodeInvertsDecode(sha: Digest, sh: Shape, x: seq<Byte>)
    requires IsDigest(sha) && |x| == sh.Size() && Decode(sha, sh, x).Ours? && sh.mmpm < Pow256(4)
    ensures WellFormed(sh, Decode(sha, sh, x).fields)
    ensures Encode(sha, sh, Decode(sha, sh, x).fields) == x
  {
    hide Be, Magic, Zeros, Numbers, ReadNumbers, Padded, Image, Parse, Body, ReadUint32, ReadUint64, Pow256;
    var f := Decode(sha, sh, x).fields;
    LongWritesBack(Slice(x, 0x60, 8));
    LongWritesBack(Slice(x, 0x68, 8));
    NumberWritesBack(Slice(x, 0x78, 4));
    NumberWritesBack(Slice(x, 0x7C, 4));
    NumberWritesBack(Slice(x, 0x100, 4));
    PaddedWritesBack(sh, Slice(x, 0x104, 4 * sh.mmpm), |f.indices|);
    ImageInvertsParse(Slice(x, sh.BitmapOffset(), 4 * sh.words));
    LaidBody(sh, x, f);
    assert x == x[..32] + x[32..];
  }

  lemma PaddedWritesBack(sh: Shape, x: seq<Byte>, n: nat)
    requires |x| == 4 * sh.mmpm && n <= sh.mmpm
    requires forall i :: n <= i < sh.mmpm ==> ReadNumbers(x)[i] == 0
    ensures Small(ReadNumbers(x)[..n]) && Numbers(Padded(ReadNumbers(x)[..n], sh.mmpm)) == x
  {
    hide Numbers, ReadNumbers, Pow256;
    NumbersWriteBack(x);
    assert Padded(ReadNumbers(x)[..n], sh.mmpm) == ReadNumbers(x);
  }

  ghost predicate EncodingOf(sha: Digest, sh: Shape, f: Fields, x: seq<Byte>) {
    WellFormed(sh, f) && Encode(sha, sh, f) == x
  }

  /** Exactly the encodings of well-formed fields are accepted. */
  lemma AcceptedIsExact(sha: Digest, sh: Shape, x: seq<Byte>)
    requires IsDigest(sha) && |x| == sh.Size() && sh.mmpm < Pow256(4)
    ensures Decode(sha, sh, x).Ours? <==> exists f :: EncodingOf(sha, sh, f, x)
  {
    hide Decode, Encode, WellFormed, Pow256;
    if Decode(sha, sh, x).Ours? {
      EncodeInvertsDecode(sha, sh, x);
      assert EncodingOf(sha, sh, Decode(sha, sh, x).fields, x);
    }
    forall f | EncodingOf(sha, sh, f, x)
      ensures Decode(sha, sh, x).Ours?
    {
      DecodeInvertsEncode(sha, sh, f);
    }
  }

  /** Where every number of a written index block is: at the offsets of the source, the most significant byte first. */
  lemma EncodeLayout(sha: Digest, sh: Shape, f: Fields, k: nat)
    requires IsDigest(sha) && WellFormed(sh, f) && k < sh.mmpm
    ensures var x := Encode(sha, sh, f);
      && |x| == sh.Size() >= 0x104 + 4 * k + 4
      && Slice(x, 0, 32) == sha(x[32..]) && Slice(x, 0x20, 32) == f.dataHash && Slice(x, 0x40, 32) == f.seqnosHash
      && Num(Slice(x, 0x60, 8)) == f.seqno && Num(Slice(x, 0x68, 8)) == f.next
      && Num(Slice(x, 0x78, 4)) == f.noMacroblocks && Num(Slice(x, 0x7C, 4)) == f.reserved
      && Num(Slice(x, 0x100, 4)) == |f.indices|
      && Num(Slice(x, 0x104 + 4 * k, 4)) == if k < |f.indices| then f.indices[k] else 0
  {
    hide Be, Magic, Zeros, Numbers, Image, Body, Pow256, Num;
    var x := Encode(sha, sh, f);
    BackIsLaid(sh, sha(Body(sh, f)), f);
    assert x[32..] == Body(sh, f);
    ReadsBack(8, f.seqno);
    ReadsBack(8, f.next);
    ReadsBack(4, f.noMacroblocks);
    ReadsBack(4, f.reserved);
    ReadsBack(4, |f.indices|);
    NumbersAt(Padded(f.indices, sh.mmpm), k);
    SubSlice(x, 0x104, 4 * sh.mmpm, 4 * k, 4);
    ZeroFits();
    ReadsBack(4, Padded(f.indices, sh.mmpm)[k]);
  }

  lemma SubSlice(x: seq<Byte>, offset: nat, n: nat, o: nat, k: nat)
    requires offset + n <= |x| && o + k <= n
    ensures Slice(x, offset, n)[o..o + k] == Slice(x, offset + o, k)
  {
    var s := Slice(x, offset, n);
    var t := s[o..o + k];
    forall i | 0 <= i < k
      ensures t[i] == Slice(x, offset + o, k)[i]
    {
      assert s[o + i] == x[offset + o + i];
    }
  }

  lemma ZeroFits()
    ensures 0 < Pow256(4)
  {
  }

  /** What the scan passes over: exactly the blocks without the magic string, or with another hash.  Where both are
      right and the block is refused, the program does not go on. */
  lemma PassedOverIsExact(sha: Digest, sh: Shape, x: seq<Byte>)
    requires IsDigest(sha) && |x| == sh.Size()
    ensures Decode(sha, sh, x).NotOurs? <==>
            Slice(x, 0x70, 8) != [0x53, 0x53, 0x53, 0x33, 0x76, 0x30, 0x2E, 0x31] || Slice(x, 0, 32) != sha(x[32..])
  {
  }
}
