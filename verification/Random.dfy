/** Random numbers (src/random.c).

    The words read from /dev/urandom form a tape.  A read beyond its end is the
    source's fatal read error, so every draw either yields a value or reports
    that the tape is dry, and every statement below holds for every tape. */
module Random {

  const WORDS: int := 0x1_0000_0000

  type Word = w: int | 0 <= w < WORDS

  /** uint32_t arithmetic. */
  function Wrap(x: int): Word {
    x % WORDS
  }

  /** The largest word that random_custom accepts, in wrapping 32-bit arithmetic. */
  function Limit(count: int): Word
    requires count > 0
  {
    Wrap(Wrap(Wrap(count * (Wrap(WORDS - 1 - count + 1) / count)) + count) - 1)
  }

  /** 32 bits suffice: the wrapped expression is the 64-bit one named in the source's comment. */
  lemma LimitIsExact(count: int)
    requires 0 < count < WORDS
    ensures Limit(count) == count * (WORDS / count) - 1
    ensures WORDS - count <= Limit(count) < WORDS
  {
    hide Wrap;
    var q, r := (WORDS - count) / count, (WORDS - count) % count;
    Quotient(WORDS - count, count, q, r);
    assert count * (q + 1) == count * q + count;
    DivisionIsUnique(WORDS, count, q + 1, r);
    WrapFits(WORDS - 1 - count + 1);
    WrapFits(count * q);
    WrapAround(count * q + count);
  }

  lemma Quotient(n: int, count: int, q: int, r: int)
    requires n >= 0 && count > 0 && q == n / count && r == n % count
    ensures n == count * q + r && 0 <= r < count && 0 <= count * q <= n
  {
    assert q >= 0;
  }

  lemma WrapFits(x: int)
    requires 0 <= x < WORDS
    ensures Wrap(x) == x
  {
  }

  /** At 2^32 the sum wraps to 0, and the subtraction wraps it back. */
  lemma WrapAround(x: int)
    requires 0 < x <= WORDS
    ensures Wrap(Wrap(x) - 1) == x - 1
  {
  }

  lemma DivisionIsUnique(n: int, d: int, q: int, r: int)
    requires d > 0 && 0 <= r < d && n == d * q + r
    ensures n / d == q && n % d == r
  {
    var q', r' := n / d, n % d;
    assert d * (q - q') == r' - r by {
      assert d * (q - q') == d * q - d * q';
      assert n == d * q' + r';
    }
    AtLeastFactor(d, q - q');
    AtLeastFactor(d, q' - q);
    assert d * (q' - q) == -(d * (q - q'));
  }

  lemma AtLeastFactor(d: int, k: int)
    requires d > 0
    ensures k > 0 ==> d * k >= d
  {
  }

  /** The accepted words that are mapped to residue r. */
  ghost function Accepted(count: int, r: int): set<int>
    requires 0 < count
  {
    set w: int | 0 <= w <= Limit(count) && w % count == r
  }

  /** The words below count * n with residue r. */
  ghost function Below(count: int, r: int, n: nat): set<int>
    requires 0 < count
  {
    set w: int | 0 <= w < count * n && w % count == r
  }

  lemma {:induction false} BelowSize(count: int, r: int, n: nat)
    requires 0 <= r < count
    ensures |Below(count, r, n)| == n
  {
    if n == 0 {
      assert Below(count, r, 0) == {};
    } else {
      BelowSize(count, r, n - 1);
      var top := count * (n - 1) + r;
      assert count * n == count * (n - 1) + count;
      DivisionIsUnique(top, count, n - 1, r);
      forall w: int
        ensures w in Below(count, r, n) <==> w in Below(count, r, n - 1) + {top}
      {
        if count * (n - 1) <= w < count * n {
          DivisionIsUnique(w, count, n - 1, w - count * (n - 1));
        }
      }
      assert Below(count, r, n) == Below(count, r, n - 1) + {top};
    }
  }

  /** Every residue is the image of exactly floor(2^32 / count) accepted words. */
  lemma Uniform(count: int, r: int)
    requires 0 <= r < count < WORDS
    ensures |Accepted(count, r)| == WORDS / count
  {
    LimitIsExact(count);
    BelowSize(count, r, WORDS / count);
    assert Accepted(count, r) == Below(count, r, WORDS / count);
  }

  /** More than half of all words are accepted, for every count. */
  lemma MostWordsAreAccepted(count: int)
    requires 0 < count < WORDS
    ensures 2 * (Limit(count) + 1) > WORDS
  {
    LimitIsExact(count);
    if 2 * count > WORDS {
      DivisionIsUnique(WORDS, count, 1, WORDS - count);
    }
  }

  datatype Draw = Drawn(value: nat, rest: seq<Word>) | Dry

  /** random_custom as a function of the tape. */
  function Custom(tape: seq<Word>, count: int): (d: Draw)
    requires count > 0
    ensures d.Drawn? ==> d.value < count && |d.rest| < |tape|
  {
    if tape == [] then Dry
    else if tape[0] > Limit(count) then Custom(tape[1..], count)
    else Drawn(tape[0] % count, tape[1..])
  }

  /** The draw is the first accepted word modulo count, and it is dry exactly when no word is accepted. */
  lemma {:induction false} CustomIsFirstAccepted(tape: seq<Word>, count: int, k: nat)
    requires count > 0 && k <= |tape|
    requires forall i :: 0 <= i < k ==> tape[i] > Limit(count)
    ensures Custom(tape, count) == Custom(tape[k..], count)
    ensures k < |tape| && tape[k] <= Limit(count)
            ==> Custom(tape, count) == Drawn(tape[k] % count, tape[k + 1..])
    ensures k == |tape| ==> Custom(tape, count) == Dry
  {
    if k == 0 {
      assert tape[0..] == tape;
    } else {
      CustomIsFirstAccepted(tape[1..], count, k - 1);
      assert tape[1..][k - 1..] == tape[k..];
      if k < |tape| {
        assert tape[1..][k..] == tape[k + 1..];
      }
    }
  }

  /** With one candidate the draw is 0 as soon as there is a word. */
  lemma OneCandidate(tape: seq<Word>)
    requires tape != []
    ensures Custom(tape, 1) == Drawn(0, tape[1..])
  {
    LimitIsExact(1);
  }

  /** The device's own random_t. */
  class Source {
    var tape: seq<Word>

    constructor (words: seq<Word>)
      ensures tape == words
    {
      tape := words;
    }

    /** random_uint32: None is the fatal read error. */
    method Uint32() returns (ok: bool, w: Word)
      modifies this
      ensures ok == (old(tape) != [])
      ensures ok ==> old(tape) == [w] + tape
      ensures !ok ==> tape == old(tape)
    {
      ok, w := tape != [], 0;
      if ok {
        w := tape[0];
        tape := tape[1..];
      }
    }

    method RandomCustom(count: int) returns (ok: bool, value: nat)
      requires count > 0
      modifies this
      ensures ok == Custom(old(tape), count).Drawn?
      ensures ok ==> Custom(old(tape), count) == Drawn(value, tape)
    {
      var limit := Limit(count);
      var w: Word;
      value := 0;
      ok, w := Uint32();
      while ok && w > limit
        invariant ok ==> Custom(old(tape), count) == Custom([w] + tape, count)
        invariant !ok ==> Custom(old(tape), count) == Dry
        decreases |tape|, ok
      {
        ghost var before := tape;
        assert ([w] + tape)[1..] == tape;
        ok, w := Uint32();
        if !ok {
          assert before == [];
        }
      }
      if ok {
        assert ([w] + tape)[1..] == tape;
        value := w % count;
      }
    }
  }
}
