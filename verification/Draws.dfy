/** What the random words decide: which block comes out of the unscheduled ones, to which slot it is promised, and which
    macroblocks a device is given.  Every candidate has the same number of words. */
module Draws {
  import opened Prelude
  import opened Random
  import opened Juggler

  // ----- zero words -----

  ghost predicate AllZero(tape: seq<Word>) {
    forall i :: 0 <= i < |tape| ==> tape[i] == 0
  }

  /** The zero words left after at most n were drawn. */
  ghost predicate Drew(tape: seq<Word>, rest: seq<Word>, n: nat) {
    AllZero(rest) && |rest| + n >= |tape|
  }

  lemma ZeroDraws(tape: seq<Word>, count: int)
    requires count > 0 && AllZero(tape) && tape != []
    ensures Custom(tape, count) == Drawn(0, tape[1..]) && AllZero(tape[1..])
  {
    hide Limit;
    assert 0 % count == 0;
  }

  /** A zero word places a block in the first free slot. */
  lemma {:induction false} PlacesAtOnce(s: seq<Ticket>, i: nat, g: nat, avail: nat, tape: seq<Word>)
    requires i <= |s| && avail > 0 && AllZero(tape) && tape != []
    ensures Place(s, i, g, avail, tape).Slot? && Drew(tape, Place(s, i, g, avail, tape).tape, 1)
    decreases |s| - i
  {
    hide Custom;
    ZeroDraws(tape, avail);
    if i < |s| && g == s[i].next {
      PlacesAtOnce(s, i + 1, g + 1, avail + 1, tape);
    }
  }

  lemma SelectsAtOnce(j: Schedule, tape: seq<Word>)
    requires NotStuck(j) && AllZero(tape) && |tape| >= 2
    ensures GetDevblock(j, false, tape).Handed? && Drew(tape, GetDevblock(j, false, tape).tape, 2)
  {
    hide Place, Custom, AllZero;
    match Obsoleted(j) {
      case Some(b) => PlacesAtOnce(j.scheduled[1..], 0, j.seqno + 2, |j.unscheduled| + 1, tape);
      case None =>
        ZeroDraws(tape, |j.unscheduled|);
        PlacesAtOnce(j.scheduled, 0, j.seqno + 2, |j.unscheduled[..0] + j.unscheduled[1..]| + 1, tape[1..]);
    }
  }

  // ----- one word -----

  /** Word w is accepted for a draw over count. */
  predicate Passes(w: int, count: int) {
    0 <= w < WORDS && 0 < count && w <= Limit(count)
  }

  lemma FirstWord(w: Word, rest: seq<Word>, count: int)
    requires count > 0 && Passes(w, count)
    ensures Custom([w] + rest, count) == Drawn(w % count, rest)
  {
    hide Limit;
    assert ([w] + rest)[1..] == rest;
  }

  /** The words that are accepted and have residue r are one in count. */
  lemma ShareOfWords(count: int, r: int, s: set<int>)
    requires 0 <= r < count < WORDS
    requires forall w :: w in s <==> Passes(w, count) && w % count == r
    ensures |s| == WORDS / count
  {
    LimitIsExact(count);
    Uniform(count, r);
    hide Limit;
    assert s == Accepted(count, r);
  }

  // ----- which block -----

  /** With first word w, block id can be handed out. */
  ghost predicate HandsOut(j: Schedule, discard: bool, w: Word, id: nat) {
    exists rest :: HandsIt(j, discard, w, rest, id)
  }

  ghost predicate HandsIt(j: Schedule, discard: bool, w: Word, rest: seq<Word>, id: nat) {
    var o := GetDevblock(j, discard, [w] + rest); o.Handed? && o.block.id == id
  }

  lemma WordDecides(j: Schedule, discard: bool, w: Word, rest: seq<Word>)
    requires Obsoleted(j) == None && j.unscheduled != [] && Passes(w, |j.unscheduled|)
    ensures var o := GetDevblock(j, discard, [w] + rest); o.Handed? ==> o.block.id == j.unscheduled[w % |j.unscheduled|]
  {
    hide Place, Custom, Passes;
    FirstWord(w, rest, |j.unscheduled|);
  }

  lemma WordSuffices(j: Schedule, discard: bool, w: Word)
    requires Obsoleted(j) == None && j.unscheduled != [] && Passes(w, |j.unscheduled|)
    requires discard ==> DiscardPossible(j)
    ensures GetDevblock(j, discard, [w] + [0]).Handed?
  {
    hide Place, Custom, Passes;
    FirstWord(w, [0], |j.unscheduled|);
    var i := w % |j.unscheduled|;
    PlacesAtOnce(j.scheduled, 0, j.seqno + 2, |j.unscheduled[..i] + j.unscheduled[i + 1..]| + 1, [0]);
  }

  /** Where no block is promised, every unscheduled block is handed out by exactly one in |j.unscheduled| of the words:
      floor(2^32 / |j.unscheduled|) of them; for selections as for discards. */
  lemma HandsOutUniformly(j: Schedule, discard: bool, id: nat)
    requires Obsoleted(j) == None && NoDup(j.unscheduled) && id in j.unscheduled && |j.unscheduled| < WORDS
    requires discard ==> DiscardPossible(j)
    ensures var n := |j.unscheduled|;
      |set w: int | 0 <= w < WORDS && Passes(w, n) && HandsOut(j, discard, w, id)| == WORDS / n
  {
    hide GetDevblock, Passes, Obsoleted, DiscardPossible;
    var n := |j.unscheduled|;
    var i :| 0 <= i < n && j.unscheduled[i] == id;
    PassesIsWord();
    forall w: int | Passes(w, n)
      ensures HandsOut(j, discard, w, id) <==> w % n == i
    {
      WordSuffices(j, discard, w);
      forall rest: seq<Word>
        ensures HandsIt(j, discard, w, rest, id) ==> w % n == i
      {
        WordDecides(j, discard, w, rest);
      }
      WordDecides(j, discard, w, [0]);
      assert w % n == i ==> HandsIt(j, discard, w, [0], id);
    }
    var s := set w: int | 0 <= w < WORDS && Passes(w, n) && HandsOut(j, discard, w, id);
    ShareOfWords(n, i, s);
  }

  lemma PassesIsWord()
    ensures forall w, n :: Passes(w, n) ==> 0 <= w < WORDS
  {
  }

  // ----- which slot -----

  /** The tape when the slot is drawn: a word for the block is gone if none was promised. */
  function SlotTape(j: Schedule, tape: seq<Word>): seq<Word> {
    if Obsoleted(j).Some? || j.unscheduled == [] then tape
    else match Custom(tape, |j.unscheduled|) case Dry => [] case Drawn(_, rest) => rest
  }

  /** The other scheduled blocks. */
  function Others(j: Schedule): seq<Ticket> {
    if Obsoleted(j).Some? && j.scheduled != [] then j.scheduled[1..] else j.scheduled
  }

  /** The slot of the block that is selected is the one that the specification names; no word is lost. */
  lemma SelectPlaces(j: Schedule, tape: seq<Word>)
    requires Valid(j) && GetDevblock(j, false, tape).Handed?
    ensures var o := GetDevblock(j, false, tape);
      && o.block.seqno == o.j.seqno == j.seqno + 1
      && FirstZero(Promised(Others(j)), |o.j.unscheduled|, j.seqno + 2, SlotTape(j, tape)) ==
         Some((o.block.next, o.tape))
  {
    hide Custom, Place, FirstZero, Promised;
    OthersLater(j);
    var o := GetDevblock(j, false, tape);
    PlaceIsFirstZero(Others(j), 0, j.seqno + 2, |o.j.unscheduled|, SlotTape(j, tape));
  }

  lemma OthersLater(j: Schedule)
    requires Valid(j)
    ensures Sorted(Others(j)) && forall k :: 0 <= k < |Others(j)| ==> Others(j)[k].next >= j.seqno + 2
  {
    if j.scheduled != [] {
      assert forall k :: 0 < k < |j.scheduled| ==> j.scheduled[0].next < j.scheduled[k].next;
    }
  }

  /** The first slot from g on that nobody was promised. */
  function FirstFree(taken: set<nat>, g: nat): (f: nat)
    ensures f >= g && f !in taken
    decreases From(taken, g)
  {
    if g in taken then
      assert g in From(taken, g) && g !in From(taken, g + 1);
      FirstFree(taken, g + 1)
    else g
  }

  /** How many blocks may take slot f: the one that is placed, u unscheduled ones, and those promised before. */
  function Rivals(taken: set<nat>, u: nat, f: nat): nat {
    1 + u + |Before(taken, f)|
  }

  lemma {:induction false} FirstZeroAtFree(taken: set<nat>, u: nat, g: nat, w: Word, rest: seq<Word>)
    requires Passes(w, Rivals(taken, u, FirstFree(taken, g)))
    ensures var f := FirstFree(taken, g);
      var r := FirstZero(taken, u, g, [w] + rest);
      if w % Rivals(taken, u, f) == 0 then r == Some((f, rest)) else r.Some? ==> r.value.0 > f
    decreases From(taken, g)
  {
    hide Passes, Custom, Before;
    if g in taken {
      assert g in From(taken, g) && g !in From(taken, g + 1);
      FirstZeroAtFree(taken, u, g + 1, w, rest);
    } else {
      FirstWord(w, rest, Rivals(taken, u, g));
      FirstZeroLater(taken, u, g + 1, rest);
    }
  }

  lemma {:induction false} FirstZeroLater(taken: set<nat>, u: nat, g: nat, tape: seq<Word>)
    ensures FirstZero(taken, u, g, tape).Some? ==> FirstZero(taken, u, g, tape).value.0 >= g
    decreases |tape|, From(taken, g)
  {
    hide Limit, Before;
    if g in taken {
      assert g in From(taken, g) && g !in From(taken, g + 1);
      FirstZeroLater(taken, u, g + 1, tape);
    } else {
      match Custom(tape, 1 + u + |Before(taken, g)|) {
        case Dry =>
        case Drawn(v, rest) => if v != 0 { FirstZeroLater(taken, u, g + 1, rest); }
      }
    }
  }

  /** With first word w, a promised block can be promised slot f next. */
  ghost predicate PromisesSlot(j: Schedule, w: Word, f: nat) {
    exists rest :: PromisesIt(j, w, rest, f)
  }

  ghost predicate PromisesIt(j: Schedule, w: Word, rest: seq<Word>, f: nat) {
    var o := GetDevblock(j, false, [w] + rest); o.Handed? && o.block.next == f
  }

  lemma WordPlaces(j: Schedule, w: Word, rest: seq<Word>)
    requires Valid(j) && Obsoleted(j).Some?
    requires Passes(w, Rivals(Promised(Others(j)), |j.unscheduled|, FirstFree(Promised(Others(j)), j.seqno + 2)))
    ensures var taken := Promised(Others(j));
      var f := FirstFree(taken, j.seqno + 2);
      var o := GetDevblock(j, false, [w] + rest);
      && (w % Rivals(taken, |j.unscheduled|, f) == 0 ==> o.Handed? && o.block.next == f)
      && (w % Rivals(taken, |j.unscheduled|, f) != 0 ==> !o.Handed? || o.block.next > f)
  {
    hide Custom, Place, FirstZero, Promised, Passes, FirstFree, Rivals;
    OthersLater(j);
    var taken := Promised(Others(j));
    FirstZeroAtFree(taken, |j.unscheduled|, j.seqno + 2, w, rest);
    PlaceIsFirstZero(Others(j), 0, j.seqno + 2, |j.unscheduled|, [w] + rest);
  }

  /** A block that comes up again is promised the first free slot by exactly one in so many words as there are rivals
      for that slot. */
  lemma PlacesUniformly(j: Schedule)
    requires Valid(j) && Obsoleted(j).Some?
    requires Rivals(Promised(Others(j)), |j.unscheduled|, FirstFree(Promised(Others(j)), j.seqno + 2)) < WORDS
    ensures var taken := Promised(Others(j));
      var f := FirstFree(taken, j.seqno + 2);
      var n := Rivals(taken, |j.unscheduled|, f);
      |set w: int | 0 <= w < WORDS && Passes(w, n) && PromisesSlot(j, w, f)| == WORDS / n
  {
    hide GetDevblock, Passes, Obsoleted, Promised, Others, FirstFree, Valid;
    var taken := Promised(Others(j));
    var f := FirstFree(taken, j.seqno + 2);
    var n := Rivals(taken, |j.unscheduled|, f);
    PassesIsWord();
    forall w: int | Passes(w, n)
      ensures PromisesSlot(j, w, f) <==> w % n == 0
    {
      WordPlaces(j, w, []);
      assert w % n == 0 ==> PromisesIt(j, w, [], f);
      forall rest: seq<Word>
        ensures PromisesIt(j, w, rest, f) ==> w % n == 0
      {
        WordPlaces(j, w, rest);
      }
    }
    var s := set w: int | 0 <= w < WORDS && Passes(w, n) && PromisesSlot(j, w, f);
    ShareOfWords(n, 0, s);
  }

  // ----- which macroblocks -----

  /** What was drawn from a list, what is left of it, and the words left. */
  datatype Drawing = Drawing(taken: seq<nat>, left: seq<nat>, tape: seq<Word>)

  function Cut(s: seq<nat>, i: nat): (r: seq<nat>)
    requires i < |s|
    ensures |r| == |s| - 1
  {
    s[..i] + s[i + 1..]
  }

  /** n elements are drawn from the list, one after the other; None if the words run out. */
  function DrawOut(list: seq<nat>, n: nat, tape: seq<Word>): Option<Drawing>
    requires n <= |list|
    decreases n
  {
    if n == 0 then Some(Drawing([], list, tape))
    else match Custom(tape, |list|)
      case Dry => None
      case Drawn(i, rest) => Ahead([list[i]], DrawOut(Cut(list, i), n - 1, rest))
  }

  /** The drawing when done was drawn before. */
  function Ahead(done: seq<nat>, o: Option<Drawing>): Option<Drawing> {
    match o
    case None => None
    case Some(d) => Some(d.(taken := done + d.taken))
  }

  lemma CutMembers(s: seq<nat>, i: nat)
    requires i < |s| && NoDup(s)
    ensures NoDup(Cut(s, i)) && s[i] !in Cut(s, i) && forall x: nat :: x in s <==> x == s[i] || x in Cut(s, i)
  {
    assert s == s[..i] + [s[i]] + s[i + 1..];
  }

  /** As many as asked for are taken, none twice, and the rest is left. */
  lemma {:induction false} DrawOutSplits(list: seq<nat>, n: nat, tape: seq<Word>)
    requires n <= |list| && NoDup(list) && DrawOut(list, n, tape).Some?
    ensures var d := DrawOut(list, n, tape).value;
      && |d.taken| == n && NoDup(d.taken) && NoDup(d.left) && |d.left| == |list| - n
      && forall x: nat :: (x in list <==> x in d.taken || x in d.left) && !(x in d.taken && x in d.left)
    decreases n
  {
    hide Custom;
    if n > 0 {
      var i := Custom(tape, |list|).value;
      CutMembers(list, i);
      DrawOutSplits(Cut(list, i), n - 1, Custom(tape, |list|).rest);
    }
  }

  /** The i-th element taken is the one that the i-th draw names in the list as it is then. */
  lemma {:induction false} IthDraw(list: seq<nat>, n: nat, tape: seq<Word>, i: nat)
    requires i < n <= |list| && DrawOut(list, n, tape).Some?
    ensures var d, p := DrawOut(list, n, tape).value, DrawOut(list, i, tape);
      && p.Some? && |p.value.taken| == i < |d.taken| == n && p.value.taken == d.taken[..i]
      && p.value.left != [] && Custom(p.value.tape, |p.value.left|).Drawn?
      && d.taken[i] == p.value.left[Custom(p.value.tape, |p.value.left|).value]
    decreases i
  {
    hide Custom;
    var k := Custom(tape, |list|).value;
    var list', tape' := Cut(list, k), Custom(tape, |list|).rest;
    TakenSize(list, n, tape);
    if i > 0 {
      IthDraw(list', n - 1, tape', i - 1);
      var d, d' := DrawOut(list, n, tape).value, DrawOut(list', n - 1, tape').value;
      assert d.taken == [list[k]] + d'.taken;
      assert d.taken[..i] == [list[k]] + d'.taken[..i - 1];
    }
  }

  lemma {:induction false} TakenSize(list: seq<nat>, n: nat, tape: seq<Word>)
    requires n <= |list| && DrawOut(list, n, tape).Some?
    ensures |DrawOut(list, n, tape).value.taken| == n
    decreases n
  {
    hide Custom;
    if n > 0 {
      TakenSize(Cut(list, Custom(tape, |list|).value), n - 1, Custom(tape, |list|).rest);
    }
  }

  lemma {:induction false} ZerosSuffice(list: seq<nat>, n: nat, tape: seq<Word>)
    requires n <= |list| && AllZero(tape) && |tape| >= n
    ensures DrawOut(list, n, tape).Some?
    decreases n
  {
    hide Custom, AllZero;
    if n > 0 {
      ZeroDraws(tape, |list|);
      ZerosSuffice(Cut(list, 0), n - 1, tape[1..]);
    }
  }

  /** With first word w, element x can be the first that is taken. */
  ghost predicate TakesFirst(list: seq<nat>, n: nat, w: Word, x: nat)
    requires n <= |list|
  {
    exists rest :: TakesIt(list, n, w, rest, x)
  }

  ghost predicate TakesIt(list: seq<nat>, n: nat, w: Word, rest: seq<Word>, x: nat)
    requires n <= |list|
  {
    var o := DrawOut(list, n, [w] + rest); o.Some? && o.value.taken != [] && o.value.taken[0] == x
  }

  /** Every macroblock of the list is the first to be taken by exactly one in |list| of the words; IthDraw says that
      each further one is drawn in the same way. */
  lemma TakesUniformly(list: seq<nat>, n: nat, x: nat)
    requires 0 < n <= |list| < WORDS && NoDup(list) && x in list
    ensures |set w: int | 0 <= w < WORDS && Passes(w, |list|) && TakesFirst(list, n, w, x)| == WORDS / |list|
  {
    hide DrawOut, Passes;
    var i :| 0 <= i < |list| && list[i] == x;
    PassesIsWord();
    var zeros: seq<Word> := seq(n, _ => 0);
    forall w: int | Passes(w, |list|)
      ensures TakesFirst(list, n, w, x) <==> w % |list| == i
    {
      TakesNamed(list, n, w, zeros);
      ZerosDraw(list, n, w, zeros);
      assert w % |list| == i ==> TakesIt(list, n, w, zeros, x);
      forall rest: seq<Word>
        ensures TakesIt(list, n, w, rest, x) ==> w % |list| == i
      {
        TakesNamed(list, n, w, rest);
      }
    }
    var s := set w: int | 0 <= w < WORDS && Passes(w, |list|) && TakesFirst(list, n, w, x);
    ShareOfWords(|list|, i, s);
  }

  lemma TakesNamed(list: seq<nat>, n: nat, w: Word, rest: seq<Word>)
    requires 0 < n <= |list| && Passes(w, |list|)
    ensures var o := DrawOut(list, n, [w] + rest);
      o.Some? ==> o.value.taken != [] && o.value.taken[0] == list[w % |list|]
  {
    hide Custom, Passes;
    FirstWord(w, rest, |list|);
  }

  lemma ZerosDraw(list: seq<nat>, n: nat, w: Word, zeros: seq<Word>)
    requires 0 < n <= |list| && Passes(w, |list|) && AllZero(zeros) && |zeros| >= n
    ensures DrawOut(list, n, [w] + zeros).Some?
  {
    hide Custom, Passes, AllZero;
    FirstWord(w, zeros, |list|);
    ZerosSuffice(Cut(list, w % |list|), n - 1, zeros);
  }

  // ----- what becomes of them -----

  /** New blocks are put in front of the unscheduled ones, one by one. */
  function Pushed(ids: seq<nat>, u: seq<nat>): (r: seq<nat>)
    ensures forall id :: id in r <==> id in ids || id in u
    ensures |r| == |ids| + |u|
  {
    if ids == [] then u else Pushed(ids[1..], [ids[0]] + u)
  }

  lemma {:induction false} PushedMore(ids: seq<nat>, u: seq<nat>, x: nat)
    ensures Pushed(ids + [x], u) == [x] + Pushed(ids, u)
    decreases |ids|
  {
    if ids == [] {
      assert ([] + [x])[1..] == [];
    } else {
      assert (ids + [x])[1..] == ids[1..] + [x];
      PushedMore(ids[1..], [ids[0]] + u, x);
    }
  }

  lemma NothingAhead(o: Option<Drawing>)
    ensures Ahead([], o) == o
  {
    if o.Some? {
      assert [] + o.value.taken == o.value.taken;
    }
  }

  lemma DrawsNext(done: seq<nat>, list: seq<nat>, n: nat, tape: seq<Word>)
    requires 0 < n <= |list|
    ensures var o := Ahead(done, DrawOut(list, n, tape));
      match Custom(tape, |list|)
      case Dry => o == None
      case Drawn(i, rest) => o == Ahead(done + [list[i]], DrawOut(Cut(list, i), n - 1, rest))
  {
    hide Custom;
    match Custom(tape, |list|) {
      case Dry =>
      case Drawn(i, rest) => AheadMore(done, list[i], DrawOut(Cut(list, i), n - 1, rest));
    }
  }

  lemma AllDrawn(done: seq<nat>, list: seq<nat>, tape: seq<Word>)
    ensures Ahead(done, DrawOut(list, 0, tape)) == Some(Drawing(done, list, tape))
  {
    assert done + [] == done;
  }

  lemma NothingPushed(u: seq<nat>)
    ensures Pushed([], u) == u
  {
  }

  lemma AheadMore(done: seq<nat>, x: nat, o: Option<Drawing>)
    ensures Ahead(done, Ahead([x], o)) == Ahead(done + [x], o)
  {
    if o.Some? {
      assert done + ([x] + o.value.taken) == done + [x] + o.value.taken;
    }
  }
}
