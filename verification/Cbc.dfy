/** Cipher block chaining over any block cipher (src/cipher_cbc.c, src/cipher.c), as in section 6.2 of NIST
    SP 800-38A, and the device cipher that is made of it. */
module Cbc {
  import opened Prelude
  import opened Binio
  import opened Bitmap
  import opened Device
  import opened Bookkeeping

  type Block = b: seq<Byte> | |b| == 16 witness Zeros(16)

  /** A block cipher under some key. */
  datatype Perm = Perm(enc: Block -> Block, dec: Block -> Block)

  ghost predicate IsPerm(p: Perm) {
    forall x: Block {:trigger p.enc(x)} {:trigger p.dec(x)} :: p.dec(p.enc(x)) == x && p.enc(p.dec(x)) == x
  }

  /** xor_block */
  function Xor(a: Block, b: Block): Block {
    seq(16, i requires 0 <= i < 16 => ByteXor(a[i], b[i]))
  }

  lemma XorUndoes(a: Block, b: Block)
    ensures Xor(Xor(a, b), b) == a
  {
    forall i | 0 <= i < 16
      ensures Xor(Xor(a, b), b)[i] == a[i]
    {
      ByteUndo(a[i], b[i]);
    }
  }

  /** Exclusive or of the n low bits. */
  function BitsXor(a: nat, b: nat, n: nat): (x: nat)
    ensures x < Pow2(n)
    decreases n
  {
    if n == 0 then 0 else (if a % 2 != b % 2 then 1 else 0) + 2 * BitsXor(a / 2, b / 2, n - 1)
  }

  function ByteXor(a: Byte, b: Byte): Byte {
    assert Pow2(8) == 256;
    BitsXor(a as nat, b as nat, 8) as Byte
  }

  lemma {:induction false} BitsUndo(a: nat, b: nat, n: nat)
    requires a < Pow2(n)
    ensures BitsXor(BitsXor(a, b, n), b, n) == a
    decreases n
  {
    if n > 0 {
      BitsUndo(a / 2, b / 2, n - 1);
      assert BitsXor(a, b, n) / 2 == BitsXor(a / 2, b / 2, n - 1);
    }
  }

  lemma ByteUndo(a: Byte, b: Byte)
    ensures ByteXor(ByteXor(a, b), b) == a
  {
    assert Pow2(8) == 256;
    BitsUndo(a as nat, b as nat, 8);
  }

  /** The k-th binary digit. */
  function Bit(x: nat, k: nat): nat {
    if k == 0 then x % 2 else Bit(x / 2, k - 1)
  }

  lemma {:induction false} BitsXorAt(a: nat, b: nat, n: nat, k: nat)
    requires k < n
    ensures Bit(BitsXor(a, b, n), k) == (if Bit(a, k) == Bit(b, k) then 0 else 1)
    decreases k
  {
    assert BitsXor(a, b, n) / 2 == BitsXor(a / 2, b / 2, n - 1);
    if k > 0 {
      BitsXorAt(a / 2, b / 2, n - 1, k - 1);
    }
  }

  /** A bit of the exclusive or is set exactly if the two bits differ. */
  lemma XorAt(a: Block, b: Block, i: nat, k: nat)
    requires i < 16 && k < 8
    ensures Bit(Xor(a, b)[i] as nat, k) == (if Bit(a[i] as nat, k) == Bit(b[i] as nat, k) then 0 else 1)
  {
    BitsXorAt(a[i] as nat, b[i] as nat, 8, k);
  }

  lemma XorCancels(a: Block, b: Block, c: Block)
    requires Xor(a, c) == Xor(b, c)
    ensures a == b
  {
    XorUndoes(a, c);
    XorUndoes(b, c);
  }

  // ----- the mode -----

  function CbcEnc(p: Perm, iv: Block, x: seq<Block>): (c: seq<Block>)
    ensures |c| == |x|
    decreases |x|
  {
    if x == [] then []
    else
      var c := p.enc(Xor(x[0], iv));
      [c] + CbcEnc(p, c, x[1..])
  }

  function CbcDec(p: Perm, iv: Block, c: seq<Block>): (x: seq<Block>)
    ensures |x| == |c|
    decreases |c|
  {
    if c == [] then [] else [Xor(p.dec(c[0]), iv)] + CbcDec(p, c[0], c[1..])
  }

  function Before(iv: Block, c: seq<Block>, j: nat): Block
    requires j <= |c|
  {
    if j == 0 then iv else c[j - 1]
  }

  /** The equations of the standard: every ciphertext block is made of the plaintext and the ciphertext before it. */
  lemma {:induction false} EncAt(p: Perm, iv: Block, x: seq<Block>, j: nat)
    requires j < |x|
    ensures CbcEnc(p, iv, x)[j] == p.enc(Xor(x[j], Before(iv, CbcEnc(p, iv, x), j)))
    decreases |x|
  {
    hide Xor;
    if j > 0 {
      EncAt(p, p.enc(Xor(x[0], iv)), x[1..], j - 1);
    }
  }

  lemma {:induction false} DecAt(p: Perm, iv: Block, c: seq<Block>, j: nat)
    requires j < |c|
    ensures CbcDec(p, iv, c)[j] == Xor(p.dec(c[j]), Before(iv, c, j))
    decreases |c|
  {
    hide Xor;
    if j > 0 {
      DecAt(p, c[0], c[1..], j - 1);
    }
  }

  lemma {:induction false} DecInvertsEnc(p: Perm, iv: Block, x: seq<Block>)
    requires IsPerm(p)
    ensures CbcDec(p, iv, CbcEnc(p, iv, x)) == x
    decreases |x|
  {
    hide Xor;
    if x != [] {
      var c := p.enc(Xor(x[0], iv));
      XorUndoes(x[0], iv);
      DecInvertsEnc(p, c, x[1..]);
      assert CbcEnc(p, iv, x)[1..] == CbcEnc(p, c, x[1..]);
    }
  }

  lemma {:induction false} EncInvertsDec(p: Perm, iv: Block, c: seq<Block>)
    requires IsPerm(p)
    ensures CbcEnc(p, iv, CbcDec(p, iv, c)) == c
    decreases |c|
  {
    hide Xor;
    if c != [] {
      XorUndoes(p.dec(c[0]), iv);
      EncInvertsDec(p, c[0], c[1..]);
      assert CbcDec(p, iv, c)[1..] == CbcDec(p, c[0], c[1..]);
    }
  }

  // ----- the code: buffers of 16-byte blocks, the output possibly the same buffer as the input -----

  /** enc_plain */
  method EncPlain(p: Perm, out: array<Block>, inp: array<Block>, iv: Block)
    requires out.Length == inp.Length > 0
    modifies out
    ensures out[..] == CbcEnc(p, iv, old(inp[..]))
  {
    ghost var x := inp[..];
    ghost var c := CbcEnc(p, iv, x);
    var i, k := out.Length, 0;
    EncAt(p, iv, x, 0);
    out[0] := Xor(inp[0], iv);
    while true
      invariant 0 <= k < out.Length && i == out.Length - k
      invariant out[..k] == c[..k]
      invariant p.enc(out[k]) == c[k]
      invariant forall m :: k < m < out.Length ==> inp[m] == x[m]
      decreases i
    {
      out[k] := p.enc(out[k]);
      i := i - 1;
      if i == 0 {
        assert out[..] == out[..k] + [out[k]] && c == c[..k] + [c[k]];
        return;
      }
      k := k + 1;
      EncAt(p, iv, x, k);
      out[k] := Xor(inp[k], out[k - 1]);
      assert out[..k] == out[..k - 1] + [out[k - 1]];
    }
  }

  /** What dec_plain computes when the output is another buffer than the input: gcry_in is never advanced, so it is
      always the first block that is decrypted, while the chaining goes on. */
  function Stuck(p: Perm, iv: Block, c: seq<Block>): (x: seq<Block>)
    ensures |x| == |c|
  {
    seq(|c|, j requires 0 <= j < |c| => Xor(p.dec(c[0]), Before(iv, c, j)))
  }

  /** dec_plain */
  method DecPlain(p: Perm, out: array<Block>, inp: array<Block>, iv: Block)
    requires out.Length == inp.Length > 0
    modifies out
    ensures out == inp ==> out[..] == CbcDec(p, iv, old(inp[..]))
    ensures out != inp ==> out[..] == Stuck(p, iv, inp[..])
  {
    ghost var c := inp[..];
    ghost var x := if out == inp then CbcDec(p, iv, c) else Stuck(p, iv, c);
    var tmp := iv;
    var k := 0;
    while k < out.Length
      invariant 0 <= k <= out.Length
      invariant out[..k] == x[..k]
      invariant tmp == Before(iv, c, k)
      invariant forall m :: k <= m < out.Length ==> inp[m] == c[m]
      invariant out != inp ==> inp[..] == c
    {
      var tmp2 := inp[k];
      out[k] := p.dec(if out == inp then out[k] else inp[0]);
      out[k] := Xor(out[k], tmp);
      DecAt(p, iv, c, k);
      tmp := tmp2;
      k := k + 1;
      assert out[..k] == out[..k - 1] + [out[k - 1]] && x[..k] == x[..k - 1] + [x[k - 1]];
    }
    assert out[..] == out[..k];
  }

  /** When decryption into another buffer is right: exactly when all the ciphertext blocks are equal. */
  lemma StuckIsExact(p: Perm, iv: Block, c: seq<Block>)
    requires IsPerm(p)
    ensures Stuck(p, iv, c) == CbcDec(p, iv, c) <==> forall j :: 0 <= j < |c| ==> c[j] == c[0]
  {
    hide Xor, CbcDec;
    if Stuck(p, iv, c) == CbcDec(p, iv, c) {
      forall j | 0 <= j < |c|
        ensures c[j] == c[0]
      {
        DecAt(p, iv, c, j);
        XorCancels(p.dec(c[0]), p.dec(c[j]), Before(iv, c, j));
        assert p.enc(p.dec(c[0])) == c[0] && p.enc(p.dec(c[j])) == c[j];
      }
    }
    if forall j :: 0 <= j < |c| ==> c[j] == c[0] {
      forall j | 0 <= j < |c|
        ensures Stuck(p, iv, c)[j] == CbcDec(p, iv, c)[j]
      {
        DecAt(p, iv, c, j);
      }
    }
  }

  // ----- the cipher of a device -----

  /** The cipher modes, with the permutations that their keys select. */
  datatype Mode = Null | CbcPlain(data: Perm) | CbcEssiv(data: Perm, salt: Perm)

  ghost predicate GoodMode(m: Mode) {
    match m
    case Null => true
    case CbcPlain(p) => IsPerm(p)
    case CbcEssiv(p, s) => IsPerm(p) && IsPerm(s)
  }

  function Encrypt(m: Mode, iv: Block, x: seq<Block>): (c: seq<Block>)
    ensures |c| == |x|
  {
    match m
    case Null => x
    case CbcPlain(p) => CbcEnc(p, iv, x)
    case CbcEssiv(p, s) => CbcEnc(p, s.enc(iv), x)
  }

  function Decrypt(m: Mode, iv: Block, c: seq<Block>): (x: seq<Block>)
    ensures |x| == |c|
  {
    match m
    case Null => c
    case CbcPlain(p) => CbcDec(p, iv, c)
    case CbcEssiv(p, s) => CbcDec(p, s.enc(iv), c)
  }

  /** Every ciphertext block, in each mode: the chain starts with the vector, or with its encryption under the salt. */
  lemma EncryptAt(m: Mode, iv: Block, x: seq<Block>, j: nat)
    requires j < |x|
    ensures var c := Encrypt(m, iv, x);
      match m
      case Null => c[j] == x[j]
      case CbcPlain(p) => c[j] == p.enc(Xor(x[j], if j == 0 then iv else c[j - 1]))
      case CbcEssiv(p, s) => c[j] == p.enc(Xor(x[j], if j == 0 then s.enc(iv) else c[j - 1]))
  {
    match m
    case Null =>
    case CbcPlain(p) => EncAt(p, iv, x, j);
    case CbcEssiv(p, s) => EncAt(p, s.enc(iv), x, j);
  }

  lemma DecryptInverts(m: Mode, iv: Block, x: seq<Block>)
    requires GoodMode(m)
    ensures Decrypt(m, iv, Encrypt(m, iv, x)) == x
  {
    match m
    case Null =>
    case CbcPlain(p) => DecInvertsEnc(p, iv, x);
    case CbcEssiv(p, s) => DecInvertsEnc(p, s.enc(iv), x);
  }

  /** set_iv; numbers too wide for their field are cut off, as by the C types. */
  function SetIv(iv: Iv): Block {
    Be(8, iv.seqno) + Be(4, iv.slot) + Be(4, iv.id)
  }

  predicate Fitting(iv: Iv) {
    iv.seqno < Pow256(8) && iv.slot < Pow256(4) && iv.id < Pow256(4)
  }

  /** Where each number is: eight bytes, four and four, the most significant first. */
  lemma SetIvFields(iv: Iv)
    requires Fitting(iv)
    ensures Num(SetIv(iv)[..8]) == iv.seqno && Num(SetIv(iv)[8..12]) == iv.slot && Num(SetIv(iv)[12..]) == iv.id
  {
    hide Be, Pow256, Num;
    assert SetIv(iv)[..8] == Be(8, iv.seqno);
    assert SetIv(iv)[8..12] == Be(4, iv.slot);
    assert SetIv(iv)[12..] == Be(4, iv.id);
    ReadsBack(8, iv.seqno);
    ReadsBack(4, iv.slot);
    ReadsBack(4, iv.id);
  }

  /** Distinct (seqno, slot, macroblock) triples give distinct initialisation vectors. */
  lemma SetIvInjective(a: Iv, b: Iv)
    requires Fitting(a) && Fitting(b) && SetIv(a) == SetIv(b)
    ensures a == b
  {
    hide Be, Pow256;
    assert SetIv(a)[..8] == Be(8, a.seqno) && SetIv(b)[..8] == Be(8, b.seqno);
    assert SetIv(a)[8..12] == Be(4, a.slot) && SetIv(b)[8..12] == Be(4, b.slot);
    assert SetIv(a)[12..] == Be(4, a.id) && SetIv(b)[12..] == Be(4, b.id);
    BeInjective(8, a.seqno, b.seqno);
    BeInjective(4, a.slot, b.slot);
    BeInjective(4, a.id, b.id);
  }

  /** cipher_enc in place, which is how every caller encrypts. */
  method CipherEnc(m: Mode, buf: array<Block>, iv: Iv)
    requires buf.Length > 0
    modifies buf
    ensures buf[..] == Encrypt(m, SetIv(iv), old(buf[..]))
  {
    match m
    case Null =>
    case CbcPlain(p) => EncPlain(p, buf, buf, SetIv(iv));
    case CbcEssiv(p, s) => EncPlain(p, buf, buf, s.enc(SetIv(iv)));
  }

  /** cipher_dec in place, which is how every caller decrypts. */
  method CipherDec(m: Mode, buf: array<Block>, iv: Iv)
    requires buf.Length > 0
    modifies buf
    ensures buf[..] == Decrypt(m, SetIv(iv), old(buf[..]))
  {
    match m
    case Null =>
    case CbcPlain(p) => DecPlain(p, buf, buf, SetIv(iv));
    case CbcEssiv(p, s) => DecPlain(p, buf, buf, s.enc(SetIv(iv)));
  }

  // ----- mesoblocks as strings of blocks -----

  function Blocks(x: seq<Byte>): (b: seq<Block>)
    requires |x| % 16 == 0
    ensures |b| * 16 == |x|
  {
    if x == [] then [] else [x[..16]] + Blocks(x[16..])
  }

  function Bytes(b: seq<Block>): (x: seq<Byte>)
    ensures |x| == |b| * 16
  {
    if b == [] then [] else b[0] + Bytes(b[1..])
  }

  lemma {:induction false} BytesOfBlocks(x: seq<Byte>)
    requires |x| % 16 == 0
    ensures Bytes(Blocks(x)) == x
  {
    if x != [] {
      BytesOfBlocks(x[16..]);
      assert Blocks(x)[1..] == Blocks(x[16..]);
      assert x == x[..16] + x[16..];
    }
  }

  lemma {:induction false} BlocksOfBytes(b: seq<Block>)
    ensures Blocks(Bytes(b)) == b
  {
    if b != [] {
      BlocksOfBytes(b[1..]);
      assert Bytes(b)[..16] == b[0] && Bytes(b)[16..] == Bytes(b[1..]);
    }
  }

  function EncBytes(m: Mode, iv: Iv, x: seq<Byte>): (c: seq<Byte>)
    ensures |c| == |x|
  {
    if |x| % 16 != 0 then x else Bytes(Encrypt(m, SetIv(iv), Blocks(x)))
  }

  function DecBytes(m: Mode, iv: Iv, c: seq<Byte>): (x: seq<Byte>)
    ensures |x| == |c|
  {
    if |c| % 16 != 0 then c else Bytes(Decrypt(m, SetIv(iv), Blocks(c)))
  }

  lemma DecBytesInverts(m: Mode, iv: Iv, x: seq<Byte>)
    requires GoodMode(m)
    ensures DecBytes(m, iv, EncBytes(m, iv, x)) == x
  {
    hide Encrypt, Decrypt, SetIv, Blocks, Bytes;
    if |x| % 16 == 0 {
      var c := Encrypt(m, SetIv(iv), Blocks(x));
      BlocksOfBytes(c);
      DecryptInverts(m, SetIv(iv), Blocks(x));
      BytesOfBlocks(x);
    }
  }

  /** The cipher that the device model takes, for a mode and its keys. */
  function CipherOf(m: Mode): Cipher {
    Cipher((iv, x) => EncBytes(m, iv, x), (iv, c) => DecBytes(m, iv, c))
  }

  /** Any mode over any permutation will do for the theorems about the device. */
  lemma ModeIsGood(m: Mode, mmpm: nat, size: nat)
    requires GoodMode(m) && mmpm > 0 && size > 0
    ensures GoodGeometry(Geometry(mmpm, size, CipherOf(m)))
  {
    hide EncBytes, DecBytes;
    var g := Geometry(mmpm, size, CipherOf(m));
    forall iv: Iv, x: seq<Byte> | |x| == size
      ensures |g.cipher.enc(iv, x)| == size && g.cipher.dec(iv, g.cipher.enc(iv, x)) == x
    {
      DecBytesInverts(m, iv, x);
    }
  }
}
