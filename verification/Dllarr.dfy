/** The doubly linked list with an array beside it (src/dllarr.c): links, array and indices always represent one
    sequence of elements. */
module Dllarr {

  const START_SIZE: nat := 32

  /** dllarr_elt_t; key is the seqno of the record that the element is embedded in. */
  class Elt {
    var prev: Elt?
    var next: Elt?
    var index: int
    const key: nat

    constructor (key: nat)
      ensures prev == null && next == null && index == 0 && this.key == key
    {
      prev, next, index := null, null, 0;
      this.key := key;
    }
  }

  ghost predicate Distinct(s: seq<Elt>) {
    forall i, k :: 0 <= i < k < |s| ==> s[i] != s[k]
  }

  /** The elements of s follow each other in the list. */
  ghost predicate Chained(s: seq<Elt>)
    reads s
  {
    && s != [] && s[0].prev == null && s[|s| - 1].next == null
    && (forall i {:trigger s[i].next} :: 0 <= i < |s| - 1 ==> s[i].next == s[i + 1])
    && (forall i {:trigger s[i].prev} :: 0 < i < |s| ==> s[i].prev == s[i - 1])
  }

  /** Up to position k the elements are numbered from -1 on, and from there on with an offset. */
  ghost predicate Numbered(s: seq<Elt>, k: int, offset: int)
    reads s
  {
    forall i {:trigger s[i].index} :: 0 <= i < |s| ==> s[i].index == if i < k then i - 1 else i - 1 + offset
  }

  function InsertedAt<T>(s: seq<T>, q: nat, x: T): seq<T>
    requires q <= |s|
  {
    s[..q] + [x] + s[q..]
  }

  function RemovedAt<T>(s: seq<T>, q: nat): seq<T>
    requires q < |s|
  {
    s[..q] + s[q + 1..]
  }

  lemma InsertedIndex(s: seq<Elt>, q: nat, x: Elt)
    requires q <= |s|
    ensures |InsertedAt(s, q, x)| == |s| + 1
    ensures forall i :: 0 <= i <= |s| ==>
      InsertedAt(s, q, x)[i] == if i < q then s[i] else if i == q then x else s[i - 1]
    ensures Distinct(s) && x !in s ==> Distinct(InsertedAt(s, q, x))
  {
  }

  lemma RemovedIndex(s: seq<Elt>, q: nat)
    requires q < |s|
    ensures |RemovedAt(s, q)| == |s| - 1
    ensures forall i :: 0 <= i < |s| - 1 ==> RemovedAt(s, q)[i] == if i < q then s[i] else s[i + 1]
    ensures Distinct(s) ==> Distinct(RemovedAt(s, q)) && s[q] !in RemovedAt(s, q)
  {
  }

  lemma InsertedSize(s: seq<Elt>, p: nat, x: Elt)
    requires p <= |s|
    ensures |InsertedAt(s, p, x)| == |s| + 1
  {
  }

  lemma InsertBetween(h: Elt, s: seq<Elt>, t: Elt, p: nat, x: Elt)
    requires p <= |s|
    ensures [h] + InsertedAt(s, p, x) + [t] == InsertedAt([h] + s + [t], p + 1, x)
  {
    var all := [h] + s + [t];
    assert all[..p + 1] == [h] + s[..p] && all[p + 1..] == s[p..] + [t];
  }

  lemma RemoveBetween(h: Elt, s: seq<Elt>, t: Elt, p: nat)
    requires p < |s|
    ensures [h] + RemovedAt(s, p) + [t] == RemovedAt([h] + s + [t], p + 1)
  {
    var all := [h] + s + [t];
    assert all[..p + 1] == [h] + s[..p] && all[p + 2..] == s[p + 1..] + [t];
  }

  /** dllarr_t */
  class List {
    const head: Elt
    const tail: Elt
    var slots: array<Elt>
    ghost var elts: seq<Elt>

    /** The elements between the two sentinels. */
    ghost function All(): seq<Elt>
      reads this
    {
      [head] + elts + [tail]
    }

    ghost predicate Valid()
      reads this, slots, All()
    {
      && Distinct(All()) && Chained(All()) && Numbered(All(), |elts| + 2, 0)
      && 0 < slots.Length && |elts| <= slots.Length
      && forall i :: 0 <= i < |elts| ==> slots[i] == elts[i]
    }

    constructor ()
      ensures Valid() && elts == [] && fresh(All()) && fresh(slots)
    {
      head := new Elt(0);
      tail := new Elt(0);
      elts := [];
      new;
      head.next, head.index := tail, -1;
      tail.prev, tail.index := head, 0;
      slots := new Elt[START_SIZE](_ => head);
    }

    // ----- reading -----

    method Count() returns (n: int)
      requires Valid()
      ensures n == |elts|
    {
      n := tail.index;
      assert All()[|elts| + 1].index == |elts|;
    }

    method Nth(n: nat) returns (e: Elt)
      requires Valid() && n < |elts|
      ensures e == elts[n] && e.index == n
    {
      e := slots[n];
      assert All()[n + 1].index == n;
    }

    /** dllarr_index is the inverse of dllarr_nth. */
    method Index(e: Elt) returns (n: int)
      requires Valid() && e in elts
      ensures 0 <= n < |elts| && elts[n] == e && slots[n] == e
    {
      ghost var k :| 0 <= k < |elts| && elts[k] == e;
      n := e.index;
      assert All()[k + 1].index == k;
    }

    method First() returns (e: Elt?)
      requires Valid()
      ensures e == if elts == [] then null else elts[0]
    {
      assert All()[0].next == All()[1];
      e := if head.next == tail then null else head.next;
    }

    method Last() returns (e: Elt?)
      requires Valid()
      ensures e == if elts == [] then null else elts[|elts| - 1]
    {
      assert All()[|elts| + 1].prev == All()[|elts|];
      e := if tail.prev == head then null else tail.prev;
    }

    /** dllarr_iterate with the test of sort_to_replay: the first element whose key is not below key. */
    method FirstNotBelow(key: nat) returns (e: Elt?)
      requires Valid()
      ensures e == null ==> forall i :: 0 <= i < |elts| ==> elts[i].key < key
      ensures e != null ==> exists p :: 0 <= p < |elts| && elts[p] == e && e.key >= key
                                        && forall i :: 0 <= i < p ==> elts[i].key < key
    {
      ghost var k := 0;
      assert All()[0].next == All()[1];
      e := head.next;
      while e != tail
        invariant 0 <= k <= |elts| && e == All()[k + 1]
        invariant forall i :: 0 <= i < k ==> elts[i].key < key
        decreases |elts| - k
      {
        assert e == elts[k];
        if e.key >= key {
          return;
        }
        assert All()[k + 1].next == All()[k + 2];
        e := e.next;
        k := k + 1;
      }
      e := null;
    }

    // ----- updating -----

    /** The array doubles when it is full. */
    method Grow()
      requires Valid()
      modifies this`slots
      ensures Valid() && elts == old(elts) && |elts| < slots.Length
      ensures slots == old(slots) || fresh(slots)
    {
      assert All()[|elts| + 1].index == |elts|;
      if tail.index == slots.Length {
        var old_ := slots;
        slots := new Elt[2 * old_.Length](i requires 0 <= i reads old_ => if i < old_.Length then old_[i] else head);
      }
    }

    /** The renumbering loops: start and everything after it moves by step. */
    static method Renumber(start: Elt?, ghost s: seq<Elt>, ghost from: nat, step: int)
      requires Distinct(s) && Chained(s) && from <= |s| && start == if from < |s| then s[from] else null
      modifies set i | from <= i < |s| :: s[i]`index
      ensures forall i {:trigger s[i].index} :: 0 <= i < |s| ==>
                s[i].index == old(s[i].index) + if i < from then 0 else step
      ensures Chained(s)
    {
      var e := start;
      ghost var k := from;
      while e != null
        invariant from <= k <= |s| && e == if k < |s| then s[k] else null
        invariant forall i {:trigger s[i].index} :: 0 <= i < |s| ==>
                    s[i].index == old(s[i].index) + if from <= i < k then step else 0
        decreases |s| - k
      {
        assert k < |s| - 1 ==> s[k].next == s[k + 1];
        e.index := e.index + step;
        e := e.next;
        k := k + 1;
      }
    }

    /** Links x in before the element at position q of s. */
    static method LinkBefore(x: Elt, at: Elt, ghost s: seq<Elt>, ghost q: nat)
      requires Distinct(s) && Chained(s) && x !in s && 0 < q < |s| && at == s[q]
      modifies x, s[q], s[q - 1]
      ensures Chained(InsertedAt(s, q, x))
      ensures x.index == old(x.index) && forall i :: 0 <= i < |s| ==> s[i].index == old(s[i].index)
    {
      assert at.prev == s[q - 1];
      at.prev.next := x;
      x.prev := at.prev;
      x.next := at;
      at.prev := x;
      ghost var s' := InsertedAt(s, q, x);
      assert forall i :: 0 <= i < |s'| ==> s'[i] == if i < q then s[i] else if i == q then x else s[i - 1];
    }

    /** Takes the element at position q of s out of the list. */
    static method Unlink(at: Elt, ghost s: seq<Elt>, ghost q: nat)
      requires Distinct(s) && Chained(s) && 0 < q < |s| - 1 && at == s[q]
      modifies s[q], s[q - 1], s[q + 1]
      ensures Chained(RemovedAt(s, q)) && at.prev == null && at.next == null
      ensures forall i :: 0 <= i < |s| ==> s[i].index == old(s[i].index)
    {
      assert at.prev == s[q - 1] && at.next == s[q + 1];
      at.next.prev := at.prev;
      at.prev.next := at.next;
      at.next, at.prev := null, null;
      ghost var s' := RemovedAt(s, q);
      assert forall i :: 0 <= i < |s'| ==> s'[i] == if i < q then s[i] else s[i + 1];
    }

    /** Where an insertion at element at (null: at the end) puts the new element. */
    ghost predicate Before(at: Elt?, p: nat)
      reads this
    {
      p <= |elts| && if at == null then p == |elts| else p < |elts| && elts[p] == at
    }

    /** memmove of the slots i to n - 1 one place up. */
    method OpenSlot(i: nat, n: nat)
      requires i <= n < slots.Length
      modifies slots
      ensures forall k :: 0 <= k < slots.Length ==> slots[k] == old(if i < k <= n then slots[k - 1] else slots[k])
    {
      forall k | i <= k < n {
        slots[k + 1] := slots[k];
      }
    }

    /** memmove of the slots after i, up to n - 1, one place down. */
    method CloseSlot(i: nat, n: nat)
      requires i < n <= slots.Length
      modifies slots
      ensures forall k :: 0 <= k < slots.Length ==> slots[k] == old(if i <= k < n - 1 then slots[k + 1] else slots[k])
    {
      forall k | i < k < n {
        slots[k - 1] := slots[k];
      }
    }

    /** Links and numbers: x comes before pos, at position q of s. */
    static method Enlist(x: Elt, pos: Elt, ghost s: seq<Elt>, ghost q: nat)
      requires Distinct(s) && Chained(s) && Numbered(s, |s|, 0) && x !in s && 0 < q < |s| && pos == s[q]
      modifies x, s
      ensures var s' := InsertedAt(s, q, x); Distinct(s') && Chained(s') && Numbered(s', |s'|, 0)
    {
      hide Distinct, Chained;
      ghost var s' := InsertedAt(s, q, x);
      InsertedIndex(s, q, x);
      x.index := pos.index;
      LinkBefore(x, pos, s, q);
      forall i | 0 <= i <= |s|
        ensures (s'[i] == x || s'[i] in s) && s'[i].index == if i <= q then i - 1 else i - 2
      {
        assert i < q ==> s'[i] == s[i] && old(s[i].index) == i - 1;
        assert i > q ==> s'[i] == s[i - 1] && old(s[i - 1].index) == i - 2;
      }
      Renumber(pos, s', q + 1, 1);
    }

    /** The elements of s are numbered, but for element at, at position q. */
    ghost static predicate Skips(s: seq<Elt>, q: nat)
      requires q < |s|
      reads s
    {
      forall i {:trigger s[i].index} :: 0 <= i < |s| ==>
        s[i].index == if i < q then i - 1 else if i == q then 0 else i - 2
    }

    /** The numbers of dllarr_remove. */
    static method Unnumber(at: Elt, ghost s: seq<Elt>, ghost q: nat)
      requires Distinct(s) && Chained(s) && Numbered(s, |s|, 0) && 0 < q < |s| - 1 && at == s[q] && at.next == s[q + 1]
      modifies set i | q <= i < |s| :: s[i]`index
      ensures Chained(s) && Skips(s, q)
    {
      Renumber(at.next, s, q + 1, -1);
      at.index := 0;
    }

    /** Links and numbers of dllarr_remove. */
    static method Delist(at: Elt, ghost s: seq<Elt>, ghost q: nat)
      requires Distinct(s) && Chained(s) && Numbered(s, |s|, 0) && 0 < q < |s| - 1 && at == s[q] && at.next == s[q + 1]
      modifies s
      ensures at.prev == null && at.next == null && at.index == 0
      ensures var s' := RemovedAt(s, q); Distinct(s') && Chained(s') && Numbered(s', |s'|, 0)
    {
      hide Distinct, Chained;
      Unnumber(at, s, q);
      Unlink(at, s, q);
      RemovedIndex(s, q);
    }

    /** The array part of dllarr_insert. */
    method FillSlot(x: Elt, at: Elt?, ghost p: nat)
      requires Valid() && Before(at, p) && |elts| < slots.Length
      modifies slots
      ensures forall k :: 0 <= k <= |elts| ==> slots[k] == InsertedAt(elts, p, x)[k]
    {
      hide Distinct, Chained;
      var pos := if at == null then tail else at;
      assert All()[|elts| + 1].index == |elts| && All()[p + 1].index == p;
      if at != null {
        OpenSlot(pos.index, tail.index);
      }
      slots[pos.index] := x;
    }

    /** The array has x at position p, but the links and numbers do not. */
    ghost predicate Filled(x: Elt, p: nat)
      reads this, slots, All()
    {
      && Distinct(All()) && Chained(All()) && Numbered(All(), |elts| + 2, 0)
      && p <= |elts| < slots.Length
      && forall k :: 0 <= k <= |elts| ==> slots[k] == InsertedAt(elts, p, x)[k]
    }

    /** The array is made longer when it is full, and then filled. */
    method Fill(x: Elt, at: Elt?, ghost p: nat)
      requires Valid() && Before(at, p)
      modifies this`slots, slots
      ensures Filled(x, p) && elts == old(elts) && (slots == old(slots) || fresh(slots))
    {
      Grow();
      FillSlot(x, at, p);
    }

    /** The links and numbers of dllarr_insert. */
    method Attach(x: Elt, at: Elt?, ghost p: nat)
      requires Filled(x, p) && Before(at, p)
      requires x !in All() && x.prev == null && x.next == null && x.index == 0
      modifies this`elts, All(), x
      ensures Valid() && elts == InsertedAt(old(elts), p, x)
    {
      hide Distinct, Chained, Numbered, InsertedAt;
      ghost var s := All();
      var pos := if at == null then tail else at;
      assert s[p + 1] == pos;
      Enlist(x, pos, s, p + 1);
      InsertBetween(head, elts, tail, p, x);
      InsertedSize(elts, p, x);
      elts := InsertedAt(elts, p, x);
    }

    /** dllarr_insert; dllarr_append is the case at == null. */
    method Insert(x: Elt, at: Elt?, ghost p: nat)
      requires Valid() && Before(at, p)
      requires x !in All() && x.prev == null && x.next == null && x.index == 0
      modifies this, slots, All(), x
      ensures Valid() && elts == InsertedAt(old(elts), p, x)
      ensures slots == old(slots) || fresh(slots)
    {
      hide Filled, InsertedAt;
      Fill(x, at, p);
      Attach(x, at, p);
    }

    /** dllarr_prepend */
    method Prepend(x: Elt)
      requires Valid() && x !in All() && x.prev == null && x.next == null && x.index == 0
      modifies this, slots, All(), x
      ensures Valid() && elts == [x] + old(elts)
      ensures slots == old(slots) || fresh(slots)
    {
      var f := First();
      Insert(x, f, 0);
    }

    /** The array part of dllarr_remove. */
    method DropSlot(at: Elt, ghost p: nat)
      requires Valid() && p < |elts| && elts[p] == at
      modifies slots
      ensures forall k :: 0 <= k < |elts| - 1 ==> slots[k] == RemovedAt(elts, p)[k]
    {
      ghost var s := All();
      assert s[p + 1] == at && s[p + 1].index == p && s[|elts| + 1].index == |elts|;
      assert at.next == s[p + 2];
      if at.next != tail {
        CloseSlot(at.index, tail.index);
      } else {
        assert p + 2 == |elts| + 1;
      }
    }

    /** dllarr_remove */
    method Remove(at: Elt, ghost p: nat)
      requires Valid() && p < |elts| && elts[p] == at
      modifies this, slots, All()
      ensures Valid() && elts == RemovedAt(old(elts), p)
      ensures at.prev == null && at.next == null && at.index == 0 && slots == old(slots)
    {
      ghost var s := All();
      assert s[p + 1] == at && at.next == s[p + 2];
      DropSlot(at, p);
      hide Distinct, Chained, Numbered;
      Delist(at, s, p + 1);
      RemoveBetween(head, elts, tail, p);
      elts := RemovedAt(elts, p);
    }

    /** sort_to_replay: insertion before the first element with a greater seqno keeps the list sorted. */
    method SortIn(x: Elt) returns (ghost p: nat)
      requires Valid() && Ascending(elts)
      requires x !in All() && x.prev == null && x.next == null && x.index == 0
      requires forall i :: 0 <= i < |elts| ==> elts[i].key != x.key
      modifies this, slots, All(), x
      ensures Valid() && Ascending(elts) && p <= old(|elts|) && elts == InsertedAt(old(elts), p, x)
    {
      var at := FirstNotBelow(x.key);
      p := |elts|;
      if at != null {
        p :| 0 <= p < |elts| && elts[p] == at && at.key >= x.key && forall i :: 0 <= i < p ==> elts[i].key < x.key;
      }
      AscendingInsert(elts, p, x);
      Insert(x, at, p);
    }
  }

  ghost predicate Ascending(s: seq<Elt>) {
    forall i, k :: 0 <= i < k < |s| ==> s[i].key < s[k].key
  }

  lemma AscendingInsert(s: seq<Elt>, p: nat, x: Elt)
    requires Ascending(s) && p <= |s|
    requires forall i :: 0 <= i < p ==> s[i].key < x.key
    requires p < |s| ==> s[p].key > x.key
    ensures Ascending(InsertedAt(s, p, x))
  {
    assert forall k :: p <= k < |s| ==> s[k].key > x.key;
  }

  /** Removing what was inserted gives back the sequence. */
  lemma RemoveUndoesInsert<T>(s: seq<T>, p: nat, x: T)
    requires p <= |s|
    ensures RemovedAt(InsertedAt(s, p, x), p) == s
  {
    assert InsertedAt(s, p, x)[..p] == s[..p];
    assert InsertedAt(s, p, x)[p + 1..] == s[p..];
  }
}
