/** The block provider (src/juggler.c) as a function of its state and of the random tape. */
module Juggler {
  import opened Prelude
  import opened Random

  /** A block as the juggler sees it; next is the seqno at which it will be handed out again. */
  datatype Ticket = Ticket(id: nat, seqno: nat, next: nat)

  datatype Schedule = Schedule(scheduled: seq<Ticket>, unscheduled: seq<nat>, seqno: nat)

  const EMPTY: Schedule := Schedule([], [], 0)

  /** Starved: the tape is dry.  Stuck: an assertion fails. */
  datatype Outcome =
    | Handed(block: Ticket, j: Schedule, tape: seq<Word>)
    | Refused
    | Starved
    | Stuck

  datatype Slot = Slot(pos: nat, next: nat, tape: seq<Word>) | NoSlot

  // ----- operations -----

  /** Where the walk over the scheduled list stops for a block promised at seqno n. */
  function InsertPos(s: seq<Ticket>, n: nat, i: nat): (p: nat)
    requires i <= |s|
    ensures i <= p <= |s|
    ensures forall k :: i <= k < p ==> s[k].next < n
    ensures p < |s| ==> s[p].next >= n
    decreases |s| - i
  {
    if i < |s| && s[i].next < n then InsertPos(s, n, i + 1) else i
  }

  /** Linking a block in before position p. */
  function Insert(s: seq<Ticket>, p: nat, b: Ticket): seq<Ticket>
    requires p <= |s|
  {
    s[..p] + [b] + s[p..]
  }

  /** juggler_add_macroblock; None stands for a failing assertion. */
  function AddMacroblock(j: Schedule, b: Ticket): Option<Schedule> {
    if b.seqno == 0 && b.next == 0 then
      Some(j.(unscheduled := [b.id] + j.unscheduled))
    else if b.seqno < b.next then
      var p := InsertPos(j.scheduled, b.next, 0);
      if p < |j.scheduled| && j.scheduled[p].next == b.next then None
      else Some(Schedule(Insert(j.scheduled, p, b), j.unscheduled,
                         if b.seqno > j.seqno then b.seqno else j.seqno))
    else None
  }

  /** juggler_get_obsoleted */
  function Obsoleted(j: Schedule): Option<Ticket> {
    if j.scheduled != [] && j.scheduled[0].next == j.seqno + 1 then Some(j.scheduled[0]) else None
  }

  /** juggler_discard_possible, for the block that Obsoleted yields */
  predicate DiscardPossible(j: Schedule) {
    if Obsoleted(j).Some? then
      |j.unscheduled| > 0 || (|j.scheduled| > 1 && j.scheduled[1].next == j.scheduled[0].next + 1)
    else
      |j.unscheduled| >= 2
  }

  /** The rescheduling loop at candidate slot g, standing before scheduled[i]. */
  function Place(s: seq<Ticket>, i: nat, g: nat, avail: nat, tape: seq<Word>): (r: Slot)
    requires i <= |s| && avail > 0
    ensures r.Slot? ==> i <= r.pos <= |s| && |r.tape| < |tape|
    decreases |tape|, |s| - i
  {
    if i < |s| && g == s[i].next then Place(s, i + 1, g + 1, avail + 1, tape)
    else match Custom(tape, avail)
      case Dry => NoSlot
      case Drawn(v, rest) => if v == 0 then Slot(i, g, rest) else Place(s, i, g + 1, avail, rest)
  }

  /** The second half of juggler_get_devblock: block id was taken out of its list. */
  function Reschedule(id: nat, j: Schedule, discard: bool, tape: seq<Word>): (r: Outcome)
    ensures r.Handed? && !discard ==> |r.tape| < |tape|
  {
    var now := j.seqno + 1;
    if discard then
      if j.unscheduled != [] || (j.scheduled != [] && j.scheduled[0].next == now + 1)
      then Handed(Ticket(id, now, now), j.(seqno := now), tape)
      else Stuck
    else match Place(j.scheduled, 0, now + 1, |j.unscheduled| + 1, tape)
      case NoSlot => Starved
      case Slot(p, n, rest) =>
        var b := Ticket(id, now, n);
        Handed(b, Schedule(Insert(j.scheduled, p, b), j.unscheduled, now), rest)
  }

  /** juggler_get_devblock */
  function GetDevblock(j: Schedule, discard: bool, tape: seq<Word>): (r: Outcome)
    ensures r.Handed? && !discard ==> |r.tape| < |tape|
  {
    if discard && !DiscardPossible(j) then Refused
    else match Obsoleted(j)
      case Some(b) => Reschedule(b.id, j.(scheduled := j.scheduled[1..]), discard, tape)
      case None =>
        if j.unscheduled == [] then Stuck
        else match Custom(tape, |j.unscheduled|)
          case Dry => Starved
          case Drawn(i, rest) =>
            var id := j.unscheduled[i];
            var j' := j.(unscheduled := j.unscheduled[..i] + j.unscheduled[i + 1..]);
            if !discard then Reschedule(id, j', false, rest)
            else if j'.unscheduled == [] then Stuck
            else Handed(Ticket(id, 0, 0), j', rest)
  }

  // ----- the invariant -----

  ghost predicate Sorted(s: seq<Ticket>) {
    forall i, k :: 0 <= i < k < |s| ==> s[i].next < s[k].next
  }

  ghost predicate DistinctTickets(s: seq<Ticket>) {
    forall i, k :: 0 <= i < k < |s| ==> s[i].id != s[k].id && s[i].seqno != s[k].seqno
  }

  ghost predicate Disjoint(s: seq<Ticket>, u: seq<nat>) {
    forall i, k :: 0 <= i < |s| && 0 <= k < |u| ==> s[i].id != u[k]
  }

  /** Promises lie in the future and are ordered, past seqnos are distinct, and no block is listed twice. */
  ghost predicate Valid(j: Schedule) {
    && Sorted(j.scheduled)
    && DistinctTickets(j.scheduled)
    && NoDup(j.unscheduled)
    && Disjoint(j.scheduled, j.unscheduled)
    && forall i :: 0 <= i < |j.scheduled| ==> 0 < j.scheduled[i].seqno <= j.seqno < j.scheduled[i].next
  }

  /** If no block is promised for the next seqno, an unscheduled one can fill the hole. */
  ghost predicate NotStuck(j: Schedule) {
    Obsoleted(j).Some? || j.unscheduled != []
  }

  ghost predicate Has(j: Schedule, id: nat) {
    id in j.unscheduled || exists i :: 0 <= i < |j.scheduled| && j.scheduled[i].id == id
  }

  lemma InsertMembers(s: seq<Ticket>, p: nat, b: Ticket)
    requires p <= |s|
    ensures forall t :: t in Insert(s, p, b) <==> t in s || t == b
  {
    assert s == s[..p] + s[p..];
  }

  lemma InsertAt(s: seq<Ticket>, p: nat, b: Ticket)
    requires p <= |s|
    ensures |Insert(s, p, b)| == |s| + 1
    ensures forall k :: 0 <= k <= |s| ==>
        Insert(s, p, b)[k] == if k < p then s[k] else if k == p then b else s[k - 1]
  {
  }

  lemma InsertKeepsSorted(s: seq<Ticket>, p: nat, b: Ticket)
    requires Sorted(s) && p <= |s|
    requires forall k :: 0 <= k < p ==> s[k].next < b.next
    requires forall k :: p <= k < |s| ==> s[k].next > b.next
    ensures Sorted(Insert(s, p, b))
  {
    InsertAt(s, p, b);
  }

  lemma InsertKeepsDistinct(s: seq<Ticket>, p: nat, b: Ticket)
    requires DistinctTickets(s) && p <= |s|
    requires forall k :: 0 <= k < |s| ==> s[k].id != b.id && s[k].seqno != b.seqno
    ensures DistinctTickets(Insert(s, p, b))
  {
    InsertAt(s, p, b);
  }

  lemma {:induction false} PlaceLands(s: seq<Ticket>, i: nat, g: nat, avail: nat, tape: seq<Word>)
    requires i <= |s| && avail > 0 && Sorted(s)
    requires forall k :: 0 <= k < i ==> s[k].next < g
    requires forall k :: i <= k < |s| ==> s[k].next >= g
    ensures var r := Place(s, i, g, avail, tape);
            r.Slot? ==>
              && r.next >= g
              && (forall k :: 0 <= k < r.pos ==> s[k].next < r.next)
              && (forall k :: r.pos <= k < |s| ==> s[k].next > r.next)
              && (avail == 1 && (i < |s| ==> s[i].next != g) ==> r.pos == i && r.next == g)
    decreases |tape|, |s| - i
  {
    if i < |s| && g == s[i].next {
      PlaceLands(s, i + 1, g + 1, avail + 1, tape);
    } else {
      match Custom(tape, avail) {
        case Dry =>
        case Drawn(v, rest) =>
          if v != 0 {
            PlaceLands(s, i, g + 1, avail, rest);
          }
      }
    }
  }

  /** What a normal selection does to the lists: one block leaves its list and is promised a free slot. */
  ghost predicate Selected(j: Schedule, b: Ticket, j': Schedule) {
    && j'.seqno == j.seqno + 1 == b.seqno < b.next
    && b in j'.scheduled
    && (forall t :: t in j'.scheduled ==> t == b || (t in j.scheduled && t.id != b.id))
    && (forall t :: t in j.scheduled && t.id != b.id ==> t in j'.scheduled)
    && (forall id :: id in j'.unscheduled <==> id in j.unscheduled && id != b.id)
    && (match Obsoleted(j)
        case Some(t) => b.id == t.id && j'.unscheduled == j.unscheduled
        case None => b.id in j.unscheduled && (forall t :: t in j.scheduled ==> t.id != b.id))
  }

  /** Promising block b, selected at the next seqno, the free slot b.next. */
  lemma ScheduleKeeps(j: Schedule, p: nat, b: Ticket)
    requires Valid(j) && !Has(j, b.id) && p <= |j.scheduled|
    requires j.seqno + 1 == b.seqno < b.next
    requires forall i :: 0 <= i < |j.scheduled| ==> j.scheduled[i].next > b.seqno
    requires forall k :: 0 <= k < p ==> j.scheduled[k].next < b.next
    requires forall k :: p <= k < |j.scheduled| ==> j.scheduled[k].next > b.next
    ensures Valid(Schedule(Insert(j.scheduled, p, b), j.unscheduled, b.seqno))
    ensures forall t :: t in Insert(j.scheduled, p, b) <==> t in j.scheduled || t == b
  {
    InsertKeepsSorted(j.scheduled, p, b);
    InsertKeepsDistinct(j.scheduled, p, b);
    InsertMembers(j.scheduled, p, b);
    InsertAt(j.scheduled, p, b);
  }

  /** With no unscheduled block left, the next slot is taken: by an earlier promise or by this block. */
  lemma RescheduleFillsTheHole(id: nat, j: Schedule, tape: seq<Word>)
    requires Sorted(j.scheduled) && forall i :: 0 <= i < |j.scheduled| ==> j.scheduled[i].next > j.seqno + 1
    ensures var r := Reschedule(id, j, false, tape); r.Handed? ==> NotStuck(r.j)
  {
    if j.unscheduled == [] {
      PlaceLands(j.scheduled, 0, j.seqno + 2, 1, tape);
    }
  }

  lemma RescheduleKeeps(id: nat, j: Schedule, tape: seq<Word>)
    requires Valid(j) && !Has(j, id)
    requires forall i :: 0 <= i < |j.scheduled| ==> j.scheduled[i].next > j.seqno + 1
    ensures !Reschedule(id, j, false, tape).Stuck? && !Reschedule(id, j, false, tape).Refused?
    ensures var r := Reschedule(id, j, false, tape);
            r.Handed? ==>
              && Valid(r.j)
              && r.block.id == id && r.block.seqno == r.j.seqno == j.seqno + 1 < r.block.next
              && r.j.unscheduled == j.unscheduled
              && (forall t :: t in r.j.scheduled <==> t in j.scheduled || t == r.block)
  {
    hide DistinctTickets, NoDup, Disjoint, Insert;
    var now := j.seqno + 1;
    PlaceLands(j.scheduled, 0, now + 1, |j.unscheduled| + 1, tape);
    var r := Place(j.scheduled, 0, now + 1, |j.unscheduled| + 1, tape);
    if r.Slot? {
      var b := Ticket(id, now, r.next);
      var j' := Schedule(Insert(j.scheduled, r.pos, b), j.unscheduled, now);
      assert Reschedule(id, j, false, tape) == Handed(b, j', r.tape);
      ScheduleKeeps(j, r.pos, b);
      assert Valid(j');
    }
  }

  lemma DropHead(j: Schedule)
    requires Valid(j) && Obsoleted(j).Some?
    ensures var j1 := j.(scheduled := j.scheduled[1..]);
            && Valid(j1) && !Has(j1, j.scheduled[0].id)
            && (forall i :: 0 <= i < |j1.scheduled| ==> j1.scheduled[i].next > j.seqno + 1)
            && (forall t :: t in j1.scheduled <==> t in j.scheduled && t.id != j.scheduled[0].id)
  {
    var j1 := j.(scheduled := j.scheduled[1..]);
    forall t | t in j.scheduled && t.id != j.scheduled[0].id
      ensures t in j1.scheduled
    {
      var k :| 0 <= k < |j.scheduled| && j.scheduled[k] == t;
      assert j1.scheduled[k - 1] == t;
    }
  }

  lemma DropUnscheduled(j: Schedule, i: nat)
    requires Valid(j) && i < |j.unscheduled|
    ensures var j1 := j.(unscheduled := j.unscheduled[..i] + j.unscheduled[i + 1..]);
            && Valid(j1) && !Has(j1, j.unscheduled[i])
            && (forall id :: id in j1.unscheduled <==> id in j.unscheduled && id != j.unscheduled[i])
  {
    var u, id := j.unscheduled, j.unscheduled[i];
    var u' := u[..i] + u[i + 1..];
    assert forall k :: 0 <= k < |u'| ==> u'[k] == if k < i then u[k] else u[k + 1];
    forall x | x in u && x != id
      ensures x in u'
    {
      var k :| 0 <= k < |u| && u[k] == x;
      assert u'[if k < i then k else k - 1] == x;
    }
  }

  /** A normal selection never trips an assertion and keeps the invariant. */
  lemma SelectKeeps(j: Schedule, tape: seq<Word>)
    requires Valid(j) && NotStuck(j)
    ensures GetDevblock(j, false, tape).Handed? || GetDevblock(j, false, tape).Starved?
    ensures var r := GetDevblock(j, false, tape);
            r.Handed? ==> Valid(r.j) && NotStuck(r.j) && Selected(j, r.block, r.j) && |r.tape| < |tape|
  {
    match Obsoleted(j) {
      case Some(t) =>
        DropHead(j);
        RescheduleKeeps(t.id, j.(scheduled := j.scheduled[1..]), tape);
        RescheduleFillsTheHole(t.id, j.(scheduled := j.scheduled[1..]), tape);
      case None =>
        match Custom(tape, |j.unscheduled|) {
          case Dry =>
          case Drawn(i, rest) =>
            DropUnscheduled(j, i);
            var j1 := j.(unscheduled := j.unscheduled[..i] + j.unscheduled[i + 1..]);
            RescheduleKeeps(j.unscheduled[i], j1, rest);
            RescheduleFillsTheHole(j.unscheduled[i], j1, rest);
            assert forall t :: t in j.scheduled ==> t.id != j.unscheduled[i];
        }
    }
  }

  /** A discard is refused or keeps the invariant; it never trips an assertion. */
  lemma DiscardKeeps(j: Schedule, tape: seq<Word>)
    requires Valid(j) && NotStuck(j)
    ensures !GetDevblock(j, true, tape).Stuck?
    ensures GetDevblock(j, true, tape).Refused? <==> !DiscardPossible(j)
    ensures var r := GetDevblock(j, true, tape);
            r.Handed? ==>
              && Valid(r.j) && NotStuck(r.j)
              && r.block.seqno == r.block.next && !Has(r.j, r.block.id)
              && (forall t :: t in r.j.scheduled <==> t in j.scheduled && t.id != r.block.id)
              && (match Obsoleted(j)
                  case Some(t) => r.block.id == t.id && r.block.seqno == r.j.seqno == j.seqno + 1
                  case None => r.block.seqno == 0 && r.j.seqno == j.seqno && r.block.id in j.unscheduled)
  {
    if DiscardPossible(j) {
      match Obsoleted(j) {
        case Some(t) =>
          DropHead(j);
        case None =>
          match Custom(tape, |j.unscheduled|) {
            case Dry =>
            case Drawn(i, rest) =>
              DropUnscheduled(j, i);
              assert forall t :: t in j.scheduled ==> t.id != j.unscheduled[i];
          }
      }
    }
  }

  /** A discard is possible exactly if the juggler could go on without the block, whichever is drawn. */
  lemma DiscardIsExact(j: Schedule)
    requires Valid(j) && NotStuck(j)
    ensures DiscardPossible(j) <==>
      match Obsoleted(j)
      case Some(_) => NotStuck(Schedule(j.scheduled[1..], j.unscheduled, j.seqno + 1))
      case None => forall i :: 0 <= i < |j.unscheduled| ==>
        NotStuck(j.(unscheduled := j.unscheduled[..i] + j.unscheduled[i + 1..]))
  {
    if Obsoleted(j) == None {
      assert |j.unscheduled[..0] + j.unscheduled[1..]| == |j.unscheduled| - 1;
      forall i | 0 <= i < |j.unscheduled|
        ensures |j.unscheduled[..i] + j.unscheduled[i + 1..]| == |j.unscheduled| - 1
      {
      }
    }
  }

  lemma AddNewKeeps(j: Schedule, id: nat)
    requires Valid(j) && !Has(j, id)
    ensures var r := AddMacroblock(j, Ticket(id, 0, 0));
            r.Some? && Valid(r.value) && NotStuck(r.value) && r.value.scheduled == j.scheduled
  {
    var u := [id] + j.unscheduled;
    assert forall k :: 0 < k < |u| ==> u[k] == j.unscheduled[k - 1] && u[k] in j.unscheduled;
  }

  // ----- runs -----

  datatype Op = Add(id: nat) | Get(discard: bool)

  datatype Stop = Sticks | TapeDry | ListedTwice

  datatype Run = Ran(j: Schedule, tape: seq<Word>, handed: seq<Ticket>) | Stopped(why: Stop)

  /** One operation; handed is the block it returned, if any. */
  function Step(j: Schedule, tape: seq<Word>, op: Op): Run {
    match op
    case Add(id) =>
      if id in j.unscheduled || (exists i :: 0 <= i < |j.scheduled| && j.scheduled[i].id == id) then
        Stopped(ListedTwice)
      else (
        match AddMacroblock(j, Ticket(id, 0, 0))
        case None => Stopped(Sticks)
        case Some(j') => Ran(j', tape, [])
      )
    case Get(discard) =>
      match GetDevblock(j, discard, tape)
      case Handed(b, j', tape') => Ran(j', tape', [b])
      case Refused => Ran(j, tape, [])
      case Starved => Stopped(TapeDry)
      case Stuck => Stopped(Sticks)
  }

  /** Any interleaving of additions of new blocks, selections and discards. */
  function Operate(j: Schedule, tape: seq<Word>, ops: seq<Op>): Run
    decreases |ops|
  {
    if ops == [] then Ran(j, tape, [])
    else match Step(j, tape, ops[0])
      case Stopped(why) => Stopped(why)
      case Ran(j1, tape1, h1) =>
        match Operate(j1, tape1, ops[1..])
        case Stopped(why) => Stopped(why)
        case Ran(j2, tape2, h2) => Ran(j2, tape2, h1 + h2)
  }

  lemma StepKeeps(j: Schedule, tape: seq<Word>, op: Op)
    requires Valid(j) && NotStuck(j)
    ensures Step(j, tape, op) != Stopped(Sticks)
    ensures Step(j, tape, op).Ran? ==> Valid(Step(j, tape, op).j) && NotStuck(Step(j, tape, op).j)
  {
    match op {
      case Add(id) =>
        if !Has(j, id) { AddNewKeeps(j, id); }
      case Get(discard) =>
        if discard { DiscardKeeps(j, tape); } else { SelectKeeps(j, tape); }
    }
  }

  /** The juggler never sticks: from at least one block, no interleaving trips an assertion. */
  lemma {:induction false} NeverSticks(j: Schedule, tape: seq<Word>, ops: seq<Op>)
    requires Valid(j) && NotStuck(j)
    ensures Operate(j, tape, ops) != Stopped(Sticks)
    ensures Operate(j, tape, ops).Ran? ==> Valid(Operate(j, tape, ops).j) && NotStuck(Operate(j, tape, ops).j)
    decreases |ops|
  {
    if ops != [] {
      StepKeeps(j, tape, ops[0]);
      var r := Step(j, tape, ops[0]);
      if r.Ran? {
        NeverSticks(r.j, r.tape, ops[1..]);
      }
    }
  }

  /** A block promised for seqno n is the one, and the only one, handed out when the seqno rises to n. */
  ghost predicate KeptPromise(t: Ticket, r: Run)
    requires r.Ran?
  {
    && (forall i :: 0 <= i < |r.handed| && r.handed[i].seqno == t.next ==> r.handed[i].id == t.id)
    && (r.j.seqno < t.next ==> t in r.j.scheduled)
    && (r.j.seqno >= t.next ==> exists i :: 0 <= i < |r.handed| && r.handed[i].seqno == t.next)
  }

  /** The seqno does not fall, and whatever is handed out carries 0 or a seqno in between. */
  ghost predicate Forward(from: nat, r: Run)
    requires r.Ran?
  {
    && from <= r.j.seqno
    && forall i :: 0 <= i < |r.handed| ==> r.handed[i].seqno == 0 || from < r.handed[i].seqno <= r.j.seqno
  }

  lemma StepKeepsPromise(j: Schedule, tape: seq<Word>, op: Op, t: Ticket)
    requires Valid(j) && NotStuck(j) && Step(j, tape, op).Ran?
    ensures Forward(j.seqno, Step(j, tape, op))
    ensures t in j.scheduled ==> KeptPromise(t, Step(j, tape, op))
  {
    hide GetDevblock, NotStuck, NoDup, DiscardPossible;
    var r := Step(j, tape, op);
    if op.Get? {
      if op.discard { DiscardKeeps(j, tape); } else { SelectKeeps(j, tape); }
      if t in j.scheduled {
        var i :| 0 <= i < |j.scheduled| && j.scheduled[i] == t;
        if Obsoleted(j).Some? {
          assert i > 0 ==> j.scheduled[0].next < t.next && j.scheduled[0].id != t.id;
          if i == 0 && r.handed != [] {
            assert r.handed[0].seqno == t.next;
          }
        }
      }
    } else if t in j.scheduled {
      var i :| 0 <= i < |j.scheduled| && j.scheduled[i] == t;
    }
  }

  lemma {:induction false} PromisesAreKept(j: Schedule, tape: seq<Word>, ops: seq<Op>, t: Ticket)
    requires Valid(j) && NotStuck(j) && Operate(j, tape, ops).Ran?
    ensures Forward(j.seqno, Operate(j, tape, ops))
    ensures t in j.scheduled ==> KeptPromise(t, Operate(j, tape, ops))
    decreases |ops|
  {
    hide Step, NotStuck, KeptPromise, Forward;
    if ops == [] {
      NothingHanded(j, tape, t);
    } else {
      var r1 := Step(j, tape, ops[0]);
      StepKeeps(j, tape, ops[0]);
      StepKeepsPromise(j, tape, ops[0], t);
      PromisesAreKept(r1.j, r1.tape, ops[1..], t);
      JoinPromises(j.seqno, r1, Operate(r1.j, r1.tape, ops[1..]), t, t in j.scheduled);
    }
  }

  lemma NothingHanded(j: Schedule, tape: seq<Word>, t: Ticket)
    requires Valid(j)
    ensures Forward(j.seqno, Ran(j, tape, [])) && (t in j.scheduled ==> KeptPromise(t, Ran(j, tape, [])))
  {
  }

  lemma JoinPromises(from: nat, r1: Run, r2: Run, t: Ticket, promised: bool)
    requires r1.Ran? && r2.Ran? && Forward(from, r1) && Forward(r1.j.seqno, r2)
    requires promised ==> KeptPromise(t, r1) && from < t.next
    requires promised && t in r1.j.scheduled ==> KeptPromise(t, r2)
    ensures Forward(from, Ran(r2.j, r2.tape, r1.handed + r2.handed))
    ensures promised ==> KeptPromise(t, Ran(r2.j, r2.tape, r1.handed + r2.handed))
  {
    var h := r1.handed + r2.handed;
    if promised && r1.j.seqno < t.next <= r2.j.seqno {
      var i :| 0 <= i < |r2.handed| && r2.handed[i].seqno == t.next;
      assert h[|r1.handed| + i].seqno == t.next;
    } else if promised && r1.j.seqno >= t.next {
      var i :| 0 <= i < |r1.handed| && r1.handed[i].seqno == t.next;
      assert h[i].seqno == t.next;
    }
  }

  ghost predicate Increasing(h: seq<Ticket>) {
    forall a, b :: 0 <= a < b < |h| ==> h[b].seqno == 0 || h[a].seqno < h[b].seqno
  }

  lemma IncreasingConcat(h1: seq<Ticket>, h2: seq<Ticket>, mid: nat)
    requires |h1| <= 1 && Increasing(h2)
    requires forall i :: 0 <= i < |h1| ==> h1[i].seqno <= mid
    requires forall i :: 0 <= i < |h2| ==> h2[i].seqno == 0 || mid < h2[i].seqno
    ensures Increasing(h1 + h2)
  {
  }

  /** No seqno is ever given to two blocks: those handed out (0 for a block that need not be written) increase. */
  lemma {:induction false} SeqnosIncrease(j: Schedule, tape: seq<Word>, ops: seq<Op>)
    requires Valid(j) && NotStuck(j) && Operate(j, tape, ops).Ran?
    ensures Increasing(Operate(j, tape, ops).handed)
    decreases |ops|
  {
    if ops != [] {
      var r1 := Step(j, tape, ops[0]);
      StepKeeps(j, tape, ops[0]);
      StepKeepsPromise(j, tape, ops[0], Ticket(0, 0, 0));
      PromisesAreKept(r1.j, r1.tape, ops[1..], Ticket(0, 0, 0));
      SeqnosIncrease(r1.j, r1.tape, ops[1..]);
      IncreasingConcat(r1.handed, Operate(r1.j, r1.tape, ops[1..]).handed, r1.j.seqno);
    }
  }

  // ----- slot choice -----

  function Promised(s: seq<Ticket>): set<nat> {
    set i | 0 <= i < |s| :: s[i].next
  }

  function From(taken: set<nat>, g: nat): set<nat> {
    set o | o in taken && o >= g
  }

  function Before(taken: set<nat>, g: nat): set<nat> {
    set o | o in taken && o < g
  }

  /** Slot choice without a list: from g on, the first free slot whose draw is 0, where the draw at a free
      slot is over the block itself, the u unscheduled ones and those promised earlier. */
  function FirstZero(taken: set<nat>, u: nat, g: nat, tape: seq<Word>): Option<(nat, seq<Word>)>
    decreases |tape|, From(taken, g)
  {
    if g in taken then
      assert g in From(taken, g) && g !in From(taken, g + 1);
      FirstZero(taken, u, g + 1, tape)
    else match Custom(tape, 1 + u + |Before(taken, g)|)
      case Dry => None
      case Drawn(v, rest) => if v == 0 then Some((g, rest)) else FirstZero(taken, u, g + 1, rest)
  }

  lemma {:induction false} PromisedCount(s: seq<Ticket>, i: nat)
    requires Sorted(s) && i <= |s|
    ensures |Promised(s[..i])| == i
  {
    if i > 0 {
      PromisedCount(s, i - 1);
      assert Promised(s[..i]) == Promised(s[..i - 1]) + {s[i - 1].next} by {
        assert s[..i][i - 1] == s[i - 1];
        assert forall k :: 0 <= k < i - 1 ==> s[..i][k] == s[..i - 1][k];
      }
      assert s[i - 1].next !in Promised(s[..i - 1]);
    }
  }

  lemma FreeSlot(s: seq<Ticket>, i: nat, g: nat)
    requires i <= |s| && Sorted(s) && (i < |s| ==> g < s[i].next)
    requires forall k :: 0 <= k < i ==> s[k].next < g
    ensures g !in Promised(s) && |Before(Promised(s), g)| == i
  {
    assert forall k :: i <= k < |s| ==> s[i].next <= s[k].next;
    assert forall k :: 0 <= k < i ==> s[..i][k] == s[k];
    assert Before(Promised(s), g) == Promised(s[..i]);
    PromisedCount(s, i);
  }

  /** The list walk chooses exactly the slot that the specification names. */
  lemma {:induction false} PlaceIsFirstZero(s: seq<Ticket>, i: nat, g: nat, u: nat, tape: seq<Word>)
    requires i <= |s| && Sorted(s)
    requires forall k :: 0 <= k < i ==> s[k].next < g
    requires forall k :: i <= k < |s| ==> s[k].next >= g
    ensures var r := Place(s, i, g, 1 + u + i, tape);
            FirstZero(Promised(s), u, g, tape) == if r.Slot? then Some((r.next, r.tape)) else None
    decreases |tape|, |s| - i
  {
    if i < |s| && g == s[i].next {
      assert g in Promised(s);
      PlaceIsFirstZero(s, i + 1, g + 1, u, tape);
    } else {
      FreeSlot(s, i, g);
      match Custom(tape, 1 + u + i) {
        case Dry =>
        case Drawn(v, rest) =>
          if v != 0 {
            PlaceIsFirstZero(s, i, g + 1, u, rest);
          }
      }
    }
  }

  // ----- reload -----

  /** juggler_add_macroblock on every block of a list, as scubed3_init does. */
  function Load(j: Schedule, blocks: seq<Ticket>): Option<Schedule>
    decreases |blocks|
  {
    if blocks == [] then Some(j)
    else match AddMacroblock(j, blocks[0])
      case None => None
      case Some(j') => Load(j', blocks[1..])
  }

  /** The head of a sorted list is its least member, so equal members make equal heads. */
  lemma SameHead(a: seq<Ticket>, b: seq<Ticket>)
    requires Sorted(a) && Sorted(b) && a != []
    requires forall t :: t in a <==> t in b
    ensures b != [] && a[0] == b[0]
  {
    assert a[0] in b;
    assert b[0] in a;
  }

  lemma TailMembers(a: seq<Ticket>, t: Ticket)
    requires Sorted(a) && a != []
    ensures t in a[1..] <==> t in a && t != a[0]
  {
    assert a == [a[0]] + a[1..];
  }

  /** A sorted list is determined by its members. */
  lemma {:induction false} SortedIsUnique(a: seq<Ticket>, b: seq<Ticket>)
    requires Sorted(a) && Sorted(b)
    requires forall t :: t in a <==> t in b
    ensures a == b
  {
    if a == [] {
      if b != [] {
        SameHead(b, a);
      }
    } else {
      SameHead(a, b);
      forall t
        ensures t in a[1..] <==> t in b[1..]
      {
        TailMembers(a, t);
        TailMembers(b, t);
      }
      SortedIsUnique(a[1..], b[1..]);
      assert a == [a[0]] + a[1..] && b == [b[0]] + b[1..];
    }
  }

  ghost predicate DistinctPromises(s: seq<Ticket>) {
    forall i, k :: 0 <= i < k < |s| ==> s[i].next != s[k].next
  }

  /** Adding a block whose promise is not taken. */
  lemma AddSorts(j: Schedule, b: Ticket)
    requires Sorted(j.scheduled) && 0 < b.seqno < b.next
    requires forall k :: 0 <= k < |j.scheduled| ==> b.next != j.scheduled[k].next
    ensures AddMacroblock(j, b).Some?
    ensures var j' := AddMacroblock(j, b).value;
            && Sorted(j'.scheduled) && j'.unscheduled == j.unscheduled
            && (forall t :: t in j'.scheduled <==> t in j.scheduled || t == b)
            && j'.seqno == if b.seqno > j.seqno then b.seqno else j.seqno
  {
    var p := InsertPos(j.scheduled, b.next, 0);
    InsertKeepsSorted(j.scheduled, p, b);
    InsertMembers(j.scheduled, p, b);
  }

  /** Loading blocks with distinct promises never trips an assertion, in any order of the blocks. */
  lemma {:induction false} LoadSorts(j: Schedule, blocks: seq<Ticket>)
    requires Sorted(j.scheduled) && DistinctPromises(blocks)
    requires forall i :: 0 <= i < |blocks| ==> 0 < blocks[i].seqno < blocks[i].next
    requires forall i, k :: 0 <= i < |blocks| && 0 <= k < |j.scheduled| ==> blocks[i].next != j.scheduled[k].next
    ensures Load(j, blocks).Some?
    ensures var j' := Load(j, blocks).value;
            && Sorted(j'.scheduled) && j'.unscheduled == j.unscheduled
            && (forall t :: t in j'.scheduled <==> t in j.scheduled || t in blocks)
            && (forall i :: 0 <= i < |blocks| ==> blocks[i].seqno <= j'.seqno)
            && (j'.seqno == j.seqno || exists i :: 0 <= i < |blocks| && blocks[i].seqno == j'.seqno)
            && j.seqno <= j'.seqno
    decreases |blocks|
  {
    hide Sorted, AddMacroblock;
    if blocks != [] {
      var b, rest := blocks[0], blocks[1..];
      assert forall i :: 0 <= i < |rest| ==> rest[i] == blocks[i + 1];
      assert blocks == [b] + rest;
      AddSorts(j, b);
      var j1 := AddMacroblock(j, b).value;
      forall i, k | 0 <= i < |rest| && 0 <= k < |j1.scheduled|
        ensures rest[i].next != j1.scheduled[k].next
      {
        assert j1.scheduled[k] in j1.scheduled;
        assert blocks[0].next != blocks[i + 1].next;
      }
      LoadSorts(j1, rest);
      var j' := Load(j, blocks).value;
      if j'.seqno != j1.seqno {
        var i :| 0 <= i < |rest| && rest[i].seqno == j'.seqno;
        assert blocks[i + 1].seqno == j'.seqno;
      }
      forall i | 0 <= i < |blocks|
        ensures blocks[i].seqno <= j'.seqno
      {
        assert i > 0 ==> blocks[i] == rest[i - 1];
      }
    }
  }

  /** The seqno is that of the youngest scheduled block, as it is whenever a block has just been selected. */
  ghost predicate SeqnoIsNewest(j: Schedule) {
    exists i :: 0 <= i < |j.scheduled| && j.scheduled[i].seqno == j.seqno
  }

  function ScheduledSeqnos(j: Schedule): seq<nat> {
    seq(|j.scheduled|, i requires 0 <= i < |j.scheduled| => j.scheduled[i].seqno)
  }

  /** The juggler keeps nothing that the headers do not tell: re-adding the scheduled blocks in any order gives
      back the list, the seqno and hence the digest of seqnos. */
  lemma ReloadRestores(j: Schedule, blocks: seq<Ticket>, unscheduled: seq<nat>)
    requires Valid(j) && SeqnoIsNewest(j)
    requires DistinctPromises(blocks) && forall t :: t in blocks <==> t in j.scheduled
    ensures Load(Schedule([], unscheduled, 0), blocks) == Some(j.(unscheduled := unscheduled))
    ensures ScheduledSeqnos(Load(Schedule([], unscheduled, 0), blocks).value) == ScheduledSeqnos(j)
  {
    forall i | 0 <= i < |blocks|
      ensures 0 < blocks[i].seqno <= j.seqno < blocks[i].next
    {
      assert blocks[i] in j.scheduled;
    }
    LoadSorts(Schedule([], unscheduled, 0), blocks);
    var j' := Load(Schedule([], unscheduled, 0), blocks).value;
    SortedIsUnique(j'.scheduled, j.scheduled);
    var i :| 0 <= i < |j.scheduled| && j.scheduled[i].seqno == j.seqno;
    assert j.scheduled[i] in blocks;
    var k :| 0 <= k < |blocks| && blocks[k] == j.scheduled[i];
  }
}
