/** juggler_t: the lists, their counters and the walks over them, in place.  Each method is proved against the
    function of module Juggler that describes it. */
module JugglerLists {
  import opened Prelude
  import opened Random
  import opened Juggler

  datatype Status = Given | Declined | Dry | Failing

  /** The status that goes with an outcome. */
  function StatusOf(o: Outcome): Status {
    match o
    case Handed(_, _, _) => Given
    case Refused => Declined
    case Starved => Status.Dry
    case Stuck => Failing
  }

  class Provider {
    var scheduled: seq<Ticket>
    var unscheduled: seq<nat>
    var noScheduled: nat
    var noUnscheduled: nat
    var seqno: nat
    const r: Source

    /** Both counters equal the lengths of their lists. */
    ghost predicate Counted()
      reads this
    {
      noScheduled == |scheduled| && noUnscheduled == |unscheduled|
    }

    ghost function View(): Schedule
      reads this
    {
      Schedule(scheduled, unscheduled, seqno)
    }

    constructor (r: Source)
      ensures Counted() && View() == EMPTY && this.r == r
    {
      this.r := r;
      scheduled, unscheduled := [], [];
      noScheduled, noUnscheduled, seqno := 0, 0, 0;
    }

    method NotifySeqno(s: nat)
      modifies this`seqno
      ensures seqno == if s > old(seqno) then s else old(seqno)
    {
      if s > seqno {
        seqno := s;
      }
    }

    method AddMacroblock(b: Ticket) returns (ok: bool)
      requires Counted()
      modifies this
      ensures Counted()
      ensures ok == Juggler.AddMacroblock(old(View()), b).Some?
      ensures View() == if ok then Juggler.AddMacroblock(old(View()), b).value else old(View())
    {
      if b.seqno == 0 && b.next == 0 {
        noUnscheduled := noUnscheduled + 1;
        unscheduled := [b.id] + unscheduled;
        return true;
      }
      if b.seqno >= b.next {
        return false;
      }
      var i := 0;
      while i < |scheduled| && scheduled[i].next < b.next
        invariant i <= |scheduled|
        invariant InsertPos(scheduled, b.next, 0) == InsertPos(scheduled, b.next, i)
      {
        i := i + 1;
      }
      if i < |scheduled| && scheduled[i].next == b.next {
        return false;
      }
      scheduled := Insert(scheduled, i, b);
      noScheduled := noScheduled + 1;
      NotifySeqno(b.seqno);
      ok := true;
    }

    method GetObsoleted() returns (t: Option<Ticket>)
      ensures t == Obsoleted(View())
    {
      t := if scheduled != [] && scheduled[0].next == seqno + 1 then Some(scheduled[0]) else None;
    }

    method DiscardIsPossible(next: Option<Ticket>) returns (yes: bool)
      requires Counted() && next == Obsoleted(View())
      ensures yes == DiscardPossible(View())
    {
      if next.Some? && noUnscheduled == 0 && (|scheduled| < 2 || scheduled[1].next != next.value.next + 1) {
        return false;
      }
      if next.None? && noUnscheduled < 2 {
        return false;
      }
      yes := true;
    }

    /** The loop that looks for a free slot, and links block id in there. */
    method Replace(id: nat) returns (st: Status, b: Ticket)
      requires Counted() && seqno > 0
      modifies this, r
      ensures st == StatusOf(Reschedule(id, old(Schedule(scheduled, unscheduled, seqno - 1)), false, old(r.tape)))
      ensures st == Given ==> Counted() && Handed(b, View(), r.tape)
                              == Reschedule(id, old(Schedule(scheduled, unscheduled, seqno - 1)), false, old(r.tape))
    {
      hide Custom;
      b := Ticket(id, seqno, seqno);
      var available, i := noUnscheduled + 1, 0;
      while true
        invariant unchanged(this) && i <= |scheduled| && available > 0
        invariant b.id == id && b.seqno == seqno && b.next >= seqno
        invariant Place(scheduled, 0, seqno + 1, |unscheduled| + 1, old(r.tape))
                  == Place(scheduled, i, b.next + 1, available, r.tape)
        decreases |r.tape|, |scheduled| - i
      {
        b := b.(next := b.next + 1);
        if i < |scheduled| && b.next == scheduled[i].next {
          i := i + 1;
          available := available + 1;
        } else {
          var ok, v := r.RandomCustom(available);
          if !ok {
            return Status.Dry, b;
          }
          if v == 0 {
            break;
          }
        }
      }
      scheduled := Insert(scheduled, i, b);
      noScheduled := noScheduled + 1;
      st := Given;
    }

    /** Unlinks a random unscheduled block. */
    method TakeUnscheduled() returns (ok: bool, id: nat)
      requires Counted() && noUnscheduled > 0
      modifies this`unscheduled, this`noUnscheduled, r
      ensures ok == Custom(old(r.tape), |old(unscheduled)|).Drawn?
      ensures ok ==> Counted()
      ensures ok ==>
        var i := Custom(old(r.tape), |old(unscheduled)|).value;
        && r.tape == Custom(old(r.tape), |old(unscheduled)|).rest
        && id == old(unscheduled)[i] && unscheduled == old(unscheduled)[..i] + old(unscheduled)[i + 1..]
    {
      id := 0;
      var index;
      ok, index := r.RandomCustom(noUnscheduled);
      if ok {
        var at := 0;
        while index > 0
          invariant at + index == Custom(old(r.tape), |old(unscheduled)|).value
        {
          at, index := at + 1, index - 1;
        }
        id := unscheduled[at];
        unscheduled := unscheduled[..at] + unscheduled[at + 1..];
        noUnscheduled := noUnscheduled - 1;
      }
    }

    method GetDevblock(discard: bool) returns (st: Status, b: Ticket)
      requires Counted()
      modifies this, r
      ensures st == StatusOf(Juggler.GetDevblock(old(View()), discard, old(r.tape)))
      ensures st == Given ==>
        Counted() && Handed(b, View(), r.tape) == Juggler.GetDevblock(old(View()), discard, old(r.tape))
      ensures st == Declined ==> unchanged(this) && unchanged(r)
    {
      hide Custom, Place;
      var next := GetObsoleted();
      b := Ticket(0, 0, 0);
      if discard {
        var possible := DiscardIsPossible(next);
        if !possible {
          return Declined, b;
        }
      }
      var id: nat;
      if next.Some? {
        id := next.value.id;
        scheduled := scheduled[1..];
        noScheduled := noScheduled - 1;
      } else {
        if noUnscheduled == 0 {
          return Failing, b;
        }
        var ok;
        ok, id := TakeUnscheduled();
        if !ok {
          return Status.Dry, b;
        }
        if discard {
          if noUnscheduled == 0 {
            return Failing, b;
          }
          return Given, Ticket(id, 0, 0);
        }
      }
      seqno := seqno + 1;
      if discard {
        b := Ticket(id, seqno, seqno);
        if noUnscheduled > 0 || (scheduled != [] && scheduled[0].next == seqno + 1) {
          return Given, b;
        }
        return Failing, b;
      }
      st, b := Replace(id);
    }

    /** The input of juggler_hash_scheduled_seqnos: the seqnos of the scheduled blocks, in order. */
    method HashScheduledSeqnos() returns (input: seq<nat>)
      ensures input == ScheduledSeqnos(View())
    {
      input := [];
      var i := 0;
      while i < |scheduled|
        invariant i <= |scheduled| && input == ScheduledSeqnos(View())[..i]
      {
        input := input + [scheduled[i].seqno];
        i := i + 1;
      }
    }
  }
}
