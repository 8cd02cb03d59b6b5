/** The arithmetic of sizes (src/blockio.c) and of packed block indices (src/scubed3.c). */
module Packing {
  import opened Prelude
  import opened Binio
  import opened Bitmap
  import opened Device
  import Random

  const SENTINEL := 0xFFFF_FFFF

  lemma {:induction false} Pow2Sum(a: nat, b: nat)
    ensures Pow2(a + b) == Pow2(a) * Pow2(b)
  {
    if a > 0 {
      Pow2Sum(a - 1, b);
      assert 2 * (Pow2(a - 1) * Pow2(b)) == (2 * Pow2(a - 1)) * Pow2(b);
    }
  }

  lemma {:induction false} Pow2Grows(a: nat, b: nat)
    requires a <= b
    ensures 1 <= Pow2(a) <= Pow2(b)
    decreases b
  {
    if a < b {
      Pow2Grows(a, b - 1);
    } else if a > 0 {
      Pow2Grows(a - 1, b - 1);
    }
  }

  // ----- sizes; m is mesoblk_log and big is macroblock_log -----

  /** Mesoblocks per macroblock, with the index block. */
  function PerBlock(m: nat, big: nat): nat
    requires m <= big
  {
    Pow2(big - m)
  }

  function Mmpm(m: nat, big: nat): int
    requires m <= big
  {
    PerBlock(m, big) - 1
  }

  function BitmapOffset(m: nat, big: nat): nat
    requires m <= big
  {
    256 + 4 * PerBlock(m, big)
  }

  function MaxMacroblocks(m: nat, big: nat): int
    requires m <= big
  {
    8 * (Pow2(m) - BitmapOffset(m, big))
  }

  /** The parameters that blockio_init_file and blockio_dev_init let pass. */
  predicate Accepted(m: nat, big: nat) {
    m < big < 32 && BitmapOffset(m, big) < Pow2(m)
  }

  /** bitmap_size */
  function BitmapSize(noBits: nat): nat {
    (noBits + 31) / 32 * 4
  }

  lemma Doubles(n: nat)
    requires n > 0
    ensures Pow2(n) == 2 * Pow2(n - 1)
  {
  }

  /** Index blocks have room only if there are far fewer mesoblocks in a macroblock than bytes in a mesoblock. */
  lemma LogsApart(m: nat, big: nat)
    requires Accepted(m, big)
    ensures big - m + 2 < m && m >= 9
  {
    hide Pow2;
    var bits := big - m;
    Doubles(bits + 2);
    Doubles(bits + 1);
    if bits + 2 >= m {
      Pow2Grows(m, bits + 2);
    }
    if m < 9 {
      Pow2Grows(m, 8);
      SmallPowers();
    }
  }

  lemma SmallPowers()
    ensures Pow2(0) == 1 && Pow2(1) == 2 && Pow2(8) == 256 && Pow2(16) == 65536 && Pow2(17) == 131072
    ensures Pow2(29) == 0x2000_0000 && Pow2(32) == TWO32
  {
    WordSize();
    Pow256Four();
    assert Pow2(16) == 65536;
    assert Pow2(32) == 2 * Pow2(31) == 4 * Pow2(30) == 8 * Pow2(29);
  }

  lemma Sixteen(m: nat)
    requires m >= 4
    ensures Pow2(m) == 16 * Pow2(m - 4)
  {
    assert Pow2(m) == 2 * Pow2(m - 1) == 4 * Pow2(m - 2) == 8 * Pow2(m - 3) == 16 * Pow2(m - 4);
  }

  /** The assertion of blockio_dev_init never fails: the regions of the index block tile one mesoblock.  Every
      mesoblock is made of whole cipher blocks, and mmpm is positive and fits in its 16 bits. */
  lemma RegionsTile(m: nat, big: nat)
    requires Accepted(m, big)
    ensures MaxMacroblocks(m, big) > 0 && MaxMacroblocks(m, big) % 32 == 0
    ensures BitmapSize(MaxMacroblocks(m, big)) + 260 + 4 * Mmpm(m, big) == Pow2(m)
    ensures BitmapOffset(m, big) + BitmapSize(MaxMacroblocks(m, big)) == Pow2(m)
    ensures Pow2(m) % 16 == 0
    ensures 0 < Mmpm(m, big) < 0x1_0000
  {
    hide Pow2;
    LogsApart(m, big);
    Sixteen(m);
    Tiling(PerBlock(m, big), Pow2(m - 4));
    Pow2Grows(big - m, 16);
    Pow2Grows(1, big - m);
    SmallPowers();
  }

  lemma Tiling(p: nat, q: nat)
    requires 256 + 4 * p < 16 * q
    ensures var max := 8 * (16 * q - (256 + 4 * p));
      max > 0 && max % 32 == 0 && BitmapSize(max) == 16 * q - (256 + 4 * p)
  {
    var k := 4 * q - 64 - p;
    assert 8 * (16 * q - (256 + 4 * p)) == 32 * k;
    assert (32 * k + 31) / 32 == k;
  }

  // ----- packed block indices -----

  /** update_block_indices, on 32-bit numbers */
  function Pack(bits: nat, id: nat, no: nat): nat {
    (id * Pow2(bits) % TWO32 + no) % TWO32
  }

  function PackLoc(bits: nat, l: Loc): nat {
    match l
    case Unwritten => SENTINEL
    case At(id, no) => Pack(bits, id, no)
  }

  /** ID */
  function IdOf(bits: nat, index: nat): int {
    index / Pow2(bits)
  }

  /** NO */
  function NoOf(bits: nat, index: nat): nat {
    index % Pow2(bits)
  }

  predicate Legal(m: nat, big: nat, id: nat, no: nat)
    requires m <= big
  {
    id < MaxMacroblocks(m, big) && no < Mmpm(m, big)
  }

  /** Every location is found again from its packed form, which is not the sentinel. */
  ghost predicate Lossless(m: nat, big: nat)
    requires m <= big
  {
    forall id: nat, no: nat {:trigger Pack(big - m, id, no)} :: Legal(m, big, id, no) ==>
      var index := Pack(big - m, id, no);
      index < SENTINEL && IdOf(big - m, index) == id && NoOf(big - m, index) == no
  }

  /** The sentinel does not look as if it were in any macroblock. */
  ghost predicate SentinelApart(m: nat, big: nat)
    requires m <= big
  {
    IdOf(big - m, SENTINEL) >= MaxMacroblocks(m, big)
  }

  lemma DivideBack(p: nat, id: nat, no: nat)
    requires no < p
    ensures (id * p + no) / p == id && (id * p + no) % p == no
  {
    Random.DivisionIsUnique(id * p + no, p, id, no);
  }

  lemma Scale(a: int, b: int, p: nat)
    requires a <= b
    ensures a * p <= b * p
  {
  }

  lemma RoomAbove(m: nat, big: nat)
    requires Accepted(m, big) && big <= 29
    ensures MaxMacroblocks(m, big) * PerBlock(m, big) + 2048 <= TWO32
  {
    hide Pow2;
    var p, q := PerBlock(m, big), Pow2(m);
    Pow2Sum(big - m, m);
    Pow2Grows(big, 29);
    Pow2Grows(0, big - m);
    SmallPowers();
    Expanded(p, q);
  }

  lemma Expanded(p: nat, q: nat)
    requires p >= 1
    ensures 8 * (q - (256 + 4 * p)) * p <= 8 * (p * q) - 2048
  {
    var r := q - (256 + 4 * p);
    assert r * p == q * p - (256 * p + 4 * p * p);
    assert 8 * r * p == 8 * (r * p);
    assert 4 * p * p >= 0;
  }

  lemma LegalPacks(m: nat, big: nat, id: nat, no: nat)
    requires Accepted(m, big) && big <= 29 && Legal(m, big, id, no)
    ensures Pack(big - m, id, no) == id * PerBlock(m, big) + no < SENTINEL
    ensures IdOf(big - m, Pack(big - m, id, no)) == id && NoOf(big - m, Pack(big - m, id, no)) == no
  {
    hide Pow2, MaxMacroblocks;
    var p := PerBlock(m, big);
    RoomAbove(m, big);
    Scale(id + 1, MaxMacroblocks(m, big), p);
    assert (id + 1) * p == id * p + p;
    DivideBack(p, id, no);
  }

  /** With macroblocks of 2^30 bytes or more, some legal location packs to the index of another. */
  lemma TooBig(m: nat, big: nat)
    requires Accepted(m, big) && big >= 30
    ensures !Lossless(m, big) && !SentinelApart(m, big)
  {
    hide Pow2, MaxMacroblocks, Pack, IdOf;
    var bits := big - m;
    var id := Pow2(32 - bits);
    LogsApart(m, big);
    RegionsTile(m, big);
    IdFits(m, big);
    Overflow(bits);
    assert Legal(m, big, id, 0);
    assert IdOf(bits, Pack(bits, id, 0)) != id;
  }

  /** The lowest id that does not fit packs as 0 does; the one before is that of the sentinel. */
  lemma Overflow(bits: nat)
    requires bits < 32
    ensures Pack(bits, Pow2(32 - bits), 0) == 0 && IdOf(bits, 0) == 0
    ensures IdOf(bits, SENTINEL) == Pow2(32 - bits) - 1 && Pow2(32 - bits) > 0
  {
    hide Pow2;
    var p, id := Pow2(bits), Pow2(32 - bits);
    Pow2Sum(32 - bits, bits);
    SmallPowers();
    Pow2Grows(0, bits);
    Pow2Grows(0, 32 - bits);
    assert id * p == TWO32;
    DivideBack(p, 0, 0);
    assert (id - 1) * p == id * p - p;
    DivideBack(p, id - 1, p - 1);
  }

  lemma IdFits(m: nat, big: nat)
    requires Accepted(m, big) && big >= 30
    ensures Pow2(32 - (big - m)) < MaxMacroblocks(m, big)
  {
    hide Pow2;
    LogsApart(m, big);
    var bits := big - m;
    assert m >= 17 && bits + 3 <= m;
    SmallPowers();
    Pow2Grows(17, m);
    Pow2Grows(bits, m - 3);
    Doubles(m);
    Doubles(m - 1);
    Doubles(m - 2);
    Doubles(m - 3);
    Doubles(m + 1);
    Doubles(m + 2);
    if big == 30 {
      Pow2Grows(bits, m - 4);
      assert 32 - bits == m + 2;
    } else {
      assert 32 - bits == m + 1;
    }
  }

  /** The packing is lossless and clear of the sentinel exactly for macroblocks smaller than 2^30 bytes. */
  lemma PackingIsExact(m: nat, big: nat)
    requires Accepted(m, big)
    ensures Lossless(m, big) <==> big <= 29
    ensures SentinelApart(m, big) <==> big <= 29
  {
    hide Pow2, MaxMacroblocks;
    if big <= 29 {
      forall id: nat, no: nat | Legal(m, big, id, no)
        ensures var index := Pack(big - m, id, no);
          index < SENTINEL && IdOf(big - m, index) == id && NoOf(big - m, index) == no
      {
        LegalPacks(m, big, id, no);
      }
      SentinelAbove(m, big);
    } else {
      TooBig(m, big);
    }
  }

  lemma SentinelAbove(m: nat, big: nat)
    requires Accepted(m, big) && big <= 29
    ensures SentinelApart(m, big)
  {
    hide Pow2, MaxMacroblocks;
    RoomAbove(m, big);
    Pow2Grows(0, big - m);
    var p, max := PerBlock(m, big), MaxMacroblocks(m, big);
    var q, r := SENTINEL / p, SENTINEL % p;
    assert (q + 1) * p == p * q + p && p * q + r == SENTINEL;
    if q < max {
      Scale(q + 1, max, p);
    }
  }

  ghost predicate LegalLoc(m: nat, big: nat, l: Loc)
    requires m <= big
  {
    l.At? ==> Legal(m, big, l.id, l.slot)
  }

  /** The tests on packed indices decide what the device model says of locations: whether two are the same, whether
      one was ever written, and whether one is in macroblock cur. */
  lemma PackedTests(m: nat, big: nat, a: Loc, b: Loc, cur: nat)
    requires Accepted(m, big) && big <= 29
    requires LegalLoc(m, big, a) && LegalLoc(m, big, b) && cur < MaxMacroblocks(m, big)
    ensures PackLoc(big - m, a) == PackLoc(big - m, b) <==> a == b
    ensures PackLoc(big - m, a) == SENTINEL <==> a == Unwritten
    ensures IdOf(big - m, PackLoc(big - m, a)) == cur <==> a.At? && a.id == cur
    ensures a.At? ==> NoOf(big - m, PackLoc(big - m, a)) == a.slot
  {
    hide IdOf, NoOf, Pack;
    PackingIsExact(m, big);
    if a.At? {
      LegalPacks(m, big, a.id, a.slot);
    }
    if b.At? {
      LegalPacks(m, big, b.id, b.slot);
    }
  }

  /** The number of block indices does not overflow its 32 bits. */
  lemma IndicesFit(m: nat, big: nat, blocks: nat)
    requires Accepted(m, big) && big <= 29 && blocks <= MaxMacroblocks(m, big)
    ensures blocks * Mmpm(m, big) < SENTINEL
  {
    hide Pow2, MaxMacroblocks;
    RoomAbove(m, big);
    var p: int := PerBlock(m, big);
    Scale(blocks, MaxMacroblocks(m, big), p);
    assert blocks * (p - 1) == blocks * p - blocks;
  }
}
