/** The locking protocol of the thread-safe table with unique keys (src/hashtbl.c), as lock and unlock steps of any
    number of threads.  An element is named by a number; its key, and so its bucket, never changes. */
module Hashtbl {
  import opened Prelude

  /** The number of buckets, the key of every element, and get_bucket. */
  datatype Table = Table(buckets: nat, key: nat -> int, bucketOf: int -> nat)

  /** Whose next pointer a ptr_mutex protects. */
  datatype Node = Head(bucket: nat) | Elt(e: nat)

  datatype Lock = Count | Uniq(b: nat) | Ptr(n: Node) | Data(e: nat)

  /** What a walk looks for: a key to find, a key or an element to delete, the key of an element that is to be added,
      or anything at all, for a traversal. */
  datatype Goal = FindKey(k: int) | DeleteKey(k: int) | DeleteElt(e: nat) | Check(e: nat) | Any

  /** Where a thread is.  Await... means blocked on a mutex; Holds and Awaits say which mutexes are involved. */
  datatype Pc =
    | Idle
    | Using(e: nat)
    | Enter(goal: Goal, b: nat)
    | Walk(goal: Goal, b: nat, at: Node)
    | AwaitPtr(goal: Goal, b: nat, at: Node, n: nat)
    | HandOver(goal: Goal, b: nat, at: Node, n: nat)
    | AwaitData(goal: Goal, b: nat, at: Node, n: nat)
    | Found(goal: Goal, b: nat, at: Node, n: nat)
    | DelAwaitCount(goal: Goal, b: nat, at: Node, n: nat)
    | DelCounting(goal: Goal, b: nat, at: Node, n: nat)
    | DelAwaitPtr(goal: Goal, b: nat, at: Node, n: nat)
    | DelLocked(goal: Goal, b: nat, at: Node, n: nat)
    | DelUnlinked(goal: Goal, b: nat, at: Node, n: nat)
    | DelPtrFree(goal: Goal, b: nat, at: Node, n: nat)
    | DelDestroy(goal: Goal, b: nat, at: Node, n: nat)
    | AddAwaitCount(e: nat)
    | AddCounting(e: nat)
    | AddAwaitUniq(e: nat)
    | AddAwaitBucket(e: nat)
    | AddLocked(e: nat)
    | AddAwaitData(e: nat)
    | AddData(e: nat)
    | AddUniqLast(e: nat)
    | DupData(e: nat, n: nat)
    | DupUniq(e: nat)
    | DupAwaitCount(e: nat)
    | DupCounting(e: nat)
    | NextAwaitPtr(e: nat)
    | NextBoth(e: nat)

  datatype State = State(chains: seq<seq<nat>>, count: int, threads: seq<Pc>)

  /** What the caller of the table asks of an idle thread, or of one that has an element. */
  datatype Cmd = Find(k: int) | DelByKey(k: int) | DelByPtr(e: nat) | Add(e: nat) | First | Unlock | NextElt | Go

  function BucketOf(t: Table, e: nat): nat {
    t.bucketOf(t.key(e))
  }

  /** get_bucket stays below the number of buckets. */
  ghost predicate Fine(t: Table) {
    forall k: int :: t.bucketOf(k) < t.buckets
  }

  /** compare_key, compare_ptr and compare_true */
  predicate Matches(t: Table, goal: Goal, n: nat) {
    match goal
    case FindKey(k) => t.key(n) == k
    case DeleteKey(k) => t.key(n) == k
    case DeleteElt(e) => n == e
    case Check(e) => t.key(n) == t.key(e)
    case Any => true
  }

  // ----- mutexes -----

  function UniqFor(goal: Goal, b: nat): set<Lock> {
    if goal.Check? then {Uniq(b)} else {}
  }

  function Holds(t: Table, pc: Pc): set<Lock> {
    match pc
    case Idle => {}
    case Using(e) => {Data(e)}
    case Enter(goal, b) => UniqFor(goal, b)
    case Walk(goal, b, at) => UniqFor(goal, b) + {Ptr(at)}
    case AwaitPtr(goal, b, at, n) => UniqFor(goal, b) + {Ptr(at)}
    case HandOver(goal, b, at, n) => UniqFor(goal, b) + {Ptr(at), Ptr(Elt(n))}
    case AwaitData(goal, b, at, n) => UniqFor(goal, b) + {Ptr(at)}
    case Found(goal, b, at, n) => UniqFor(goal, b) + {Ptr(at), Data(n)}
    case DelAwaitCount(goal, b, at, n) => {Ptr(at), Data(n)}
    case DelCounting(goal, b, at, n) => {Ptr(at), Data(n), Count}
    case DelAwaitPtr(goal, b, at, n) => {Ptr(at), Data(n)}
    case DelLocked(goal, b, at, n) => {Ptr(at), Data(n), Ptr(Elt(n))}
    case DelUnlinked(goal, b, at, n) => {Ptr(at), Data(n), Ptr(Elt(n))}
    case DelPtrFree(goal, b, at, n) => {Ptr(at), Data(n)}
    case DelDestroy(goal, b, at, n) => {Ptr(at)}
    case AddAwaitCount(e) => {}
    case AddCounting(e) => {Count}
    case AddAwaitUniq(e) => {}
    case AddAwaitBucket(e) => {Uniq(BucketOf(t, e))}
    case AddLocked(e) => {Uniq(BucketOf(t, e)), Ptr(Head(BucketOf(t, e)))}
    case AddAwaitData(e) => {Uniq(BucketOf(t, e)), Ptr(Head(BucketOf(t, e)))}
    case AddData(e) => {Uniq(BucketOf(t, e)), Ptr(Head(BucketOf(t, e))), Data(e)}
    case AddUniqLast(e) => {Uniq(BucketOf(t, e)), Data(e)}
    case DupData(e, n) => {Uniq(BucketOf(t, e)), Data(n)}
    case DupUniq(e) => {Uniq(BucketOf(t, e))}
    case DupAwaitCount(e) => {}
    case DupCounting(e) => {Count}
    case NextAwaitPtr(e) => {Data(e)}
    case NextBoth(e) => {Data(e), Ptr(Elt(e))}
  }

  function Awaits(t: Table, pc: Pc): Option<Lock> {
    match pc
    case Enter(goal, b) => Some(Ptr(Head(b)))
    case AwaitPtr(goal, b, at, n) => Some(Ptr(Elt(n)))
    case AwaitData(goal, b, at, n) => Some(Data(n))
    case DelAwaitCount(goal, b, at, n) => Some(Count)
    case DelAwaitPtr(goal, b, at, n) => Some(Ptr(Elt(n)))
    case AddAwaitCount(e) => Some(Count)
    case AddAwaitUniq(e) => Some(Uniq(BucketOf(t, e)))
    case AddAwaitBucket(e) => Some(Ptr(Head(BucketOf(t, e))))
    case AddAwaitData(e) => Some(Data(e))
    case DupAwaitCount(e) => Some(Count)
    case NextAwaitPtr(e) => Some(Ptr(Elt(e)))
    case _ => None
  }

  /** An element that no other thread can reach: not yet linked in, or just unlinked. */
  function Private(pc: Pc): set<nat> {
    match pc
    case Enter(Check(e), _) => {e}
    case Walk(Check(e), _, _) => {e}
    case AwaitPtr(Check(e), _, _, _) => {e}
    case HandOver(Check(e), _, _, _) => {e}
    case AwaitData(Check(e), _, _, _) => {e}
    case Found(Check(e), _, _, _) => {e}
    case DelUnlinked(_, _, _, n) => {n}
    case DelPtrFree(_, _, _, n) => {n}
    case DelDestroy(_, _, _, n) => {n}
    case AddAwaitCount(e) => {e}
    case AddCounting(e) => {e}
    case AddAwaitUniq(e) => {e}
    case AddAwaitBucket(e) => {e}
    case AddLocked(e) => {e}
    case DupData(e, _) => {e}
    case DupUniq(e) => {e}
    case DupAwaitCount(e) => {e}
    case DupCounting(e) => {e}
    case _ => {}
  }

  predicate Free(t: Table, s: State, l: Lock) {
    forall i :: 0 <= i < |s.threads| ==> l !in Holds(t, s.threads[i])
  }

  // ----- chains -----

  function IndexOf(c: seq<nat>, e: nat): (i: nat)
    requires e in c
    ensures i < |c| && c[i] == e
  {
    if c[0] == e then 0 else 1 + IndexOf(c[1..], e)
  }

  predicate InChain(c: seq<nat>, b: nat, at: Node) {
    match at
    case Head(b') => b' == b
    case Elt(e) => e in c
  }

  /** The number of elements up to and including the node; the next element is at this index. */
  function Pos(c: seq<nat>, b: nat, at: Node): (p: nat)
    requires InChain(c, b, at)
    ensures p <= |c|
  {
    match at
    case Head(_) => 0
    case Elt(e) => 1 + IndexOf(c, e)
  }

  function Unlinked(c: seq<nat>, n: nat): seq<nat>
    requires n in c
  {
    c[..IndexOf(c, n)] + c[IndexOf(c, n) + 1..]
  }

  // ----- steps -----

  function Go1(s: State, i: nat, pc: Pc): Option<State>
    requires i < |s.threads|
  {
    Some(s.(threads := s.threads[i := pc]))
  }

  /** A step that acquires the mutex the thread waits for. */
  function Acquire(t: Table, s: State, i: nat, pc: Pc): Option<State>
    requires i < |s.threads|
  {
    if Awaits(t, s.threads[i]).Some? && Free(t, s, Awaits(t, s.threads[i]).value) then Go1(s, i, pc) else None
  }

  /** One step of thread i; None if it is blocked, or if the command does not apply. */
  function Next(t: Table, s: State, i: nat, cmd: Cmd): Option<State>
    requires i < |s.threads| && |s.chains| == t.buckets
  {
    match s.threads[i]
    case Idle => (
      match cmd
      case Find(k) => Go1(s, i, Enter(FindKey(k), t.bucketOf(k)))
      case DelByKey(k) => Go1(s, i, Enter(DeleteKey(k), t.bucketOf(k)))
      case DelByPtr(e) => Go1(s, i, Enter(DeleteElt(e), BucketOf(t, e)))
      case First => if t.buckets > 0 then Go1(s, i, Enter(Any, 0)) else None
      case Add(e) =>
        if BucketOf(t, e) < |s.chains| && e !in s.chains[BucketOf(t, e)]
          && forall j :: 0 <= j < |s.threads| ==> e !in Private(s.threads[j])
        then Go1(s, i, AddAwaitCount(e)) else None
      case _ => None)
    case Using(e) => (
      match cmd
      case Unlock => Go1(s, i, Idle)
      case NextElt => Go1(s, i, NextAwaitPtr(e))
      case _ => None)
    case Enter(goal, b) => Acquire(t, s, i, Walk(goal, b, Head(b)))
    case Walk(goal, b, at) =>
      if b >= |s.chains| || !InChain(s.chains[b], b, at) then None
      else if Pos(s.chains[b], b, at) < |s.chains[b]| then
        var n := s.chains[b][Pos(s.chains[b], b, at)];
        Go1(s, i, if Matches(t, goal, n) then AwaitData(goal, b, at, n) else AwaitPtr(goal, b, at, n))
      else Go1(s, i, match goal
                     case Check(e) => AddAwaitBucket(e)
                     case Any => if b + 1 < t.buckets then Enter(Any, b + 1) else Idle
                     case _ => Idle)
    case AwaitPtr(goal, b, at, n) => Acquire(t, s, i, HandOver(goal, b, at, n))
    case HandOver(goal, b, at, n) => Go1(s, i, Walk(goal, b, Elt(n)))
    case AwaitData(goal, b, at, n) => Acquire(t, s, i, Found(goal, b, at, n))
    case Found(goal, b, at, n) =>
      Go1(s, i, match goal
                case Check(e) => DupData(e, n)
                case DeleteKey(_) => DelAwaitCount(goal, b, at, n)
                case DeleteElt(_) => DelAwaitCount(goal, b, at, n)
                case _ => Using(n))
    case DelAwaitCount(goal, b, at, n) => Acquire(t, s, i, DelCounting(goal, b, at, n))
    case DelCounting(goal, b, at, n) => Go1(s.(count := s.count - 1), i, DelAwaitPtr(goal, b, at, n))
    case DelAwaitPtr(goal, b, at, n) => Acquire(t, s, i, DelLocked(goal, b, at, n))
    case DelLocked(goal, b, at, n) =>
      if b >= |s.chains| || n !in s.chains[b] then None
      else Go1(s.(chains := s.chains[b := Unlinked(s.chains[b], n)]), i, DelUnlinked(goal, b, at, n))
    case DelUnlinked(goal, b, at, n) => Go1(s, i, DelPtrFree(goal, b, at, n))
    case DelPtrFree(goal, b, at, n) => Go1(s, i, DelDestroy(goal, b, at, n))
    case DelDestroy(goal, b, at, n) => Go1(s, i, Idle)
    case AddAwaitCount(e) => Acquire(t, s, i, AddCounting(e))
    case AddCounting(e) => Go1(s.(count := s.count + 1), i, AddAwaitUniq(e))
    case AddAwaitUniq(e) => Acquire(t, s, i, Enter(Check(e), BucketOf(t, e)))
    case AddAwaitBucket(e) => Acquire(t, s, i, AddLocked(e))
    case AddLocked(e) =>
      var b := BucketOf(t, e);
      if b >= |s.chains| then None
      else Go1(s.(chains := s.chains[b := [e] + s.chains[b]]), i, AddAwaitData(e))
    case AddAwaitData(e) => Acquire(t, s, i, AddData(e))
    case AddData(e) => Go1(s, i, AddUniqLast(e))
    case AddUniqLast(e) => Go1(s, i, Using(e))
    case DupData(e, n) => Go1(s, i, DupUniq(e))
    case DupUniq(e) => Go1(s, i, DupAwaitCount(e))
    case DupAwaitCount(e) => Acquire(t, s, i, DupCounting(e))
    case DupCounting(e) => Go1(s.(count := s.count - 1), i, Idle)
    case NextAwaitPtr(e) => Acquire(t, s, i, NextBoth(e))
    case NextBoth(e) => Go1(s, i, Walk(Any, BucketOf(t, e), Elt(e)))
  }

  // ----- the invariant -----

  ghost predicate GoodTable(t: Table, s: State) {
    |s.chains| == t.buckets && Fine(t)
  }

  /** No two elements of a chain have the same key, and every element is in the bucket of its key. */
  ghost predicate ChainsOk(t: Table, chains: seq<seq<nat>>) {
    && (forall b, i, k :: 0 <= b < |chains| && 0 <= i < k < |chains[b]| ==> t.key(chains[b][i]) != t.key(chains[b][k]))
    && (forall b, i :: 0 <= b < |chains| && 0 <= i < |chains[b]| ==> BucketOf(t, chains[b][i]) == b)
  }

  /** None of the first p elements has the key of e. */
  ghost predicate Absent(t: Table, c: seq<nat>, p: nat, e: nat) {
    forall i :: 0 <= i < p && i < |c| ==> t.key(c[i]) != t.key(e)
  }

  ghost predicate At(t: Table, chains: seq<seq<nat>>, goal: Goal, b: nat, at: Node) {
    && b < |chains| && InChain(chains[b], b, at)
    && (goal.Check? ==> b == BucketOf(t, goal.e) && Absent(t, chains[b], Pos(chains[b], b, at), goal.e))
  }

  /** n is the element after node at. */
  ghost predicate Follows(chains: seq<seq<nat>>, b: nat, at: Node, n: nat) {
    && b < |chains| && InChain(chains[b], b, at)
    && Pos(chains[b], b, at) < |chains[b]| && chains[b][Pos(chains[b], b, at)] == n
  }

  ghost predicate Linked(t: Table, chains: seq<seq<nat>>, e: nat) {
    BucketOf(t, e) < |chains| && e in chains[BucketOf(t, e)]
  }

  ghost predicate IsFirst(t: Table, chains: seq<seq<nat>>, e: nat) {
    BucketOf(t, e) < |chains| && chains[BucketOf(t, e)] != [] && chains[BucketOf(t, e)][0] == e
  }

  ghost predicate PcOk(t: Table, chains: seq<seq<nat>>, pc: Pc) {
    match pc
    case Using(e) => Linked(t, chains, e)
    case Enter(goal, b) => b < |chains| && (goal.Check? ==> b == BucketOf(t, goal.e))
    case Walk(goal, b, at) => At(t, chains, goal, b, at)
    case AwaitPtr(goal, b, at, n) => At(t, chains, goal, b, at) && Follows(chains, b, at, n) && !Matches(t, goal, n)
    case HandOver(goal, b, at, n) => At(t, chains, goal, b, at) && Follows(chains, b, at, n) && !Matches(t, goal, n)
    case AwaitData(goal, b, at, n) => At(t, chains, goal, b, at) && Follows(chains, b, at, n)
    case Found(goal, b, at, n) => At(t, chains, goal, b, at) && Follows(chains, b, at, n)
    case DelAwaitCount(goal, b, at, n) => Follows(chains, b, at, n)
    case DelCounting(goal, b, at, n) => Follows(chains, b, at, n)
    case DelAwaitPtr(goal, b, at, n) => Follows(chains, b, at, n)
    case DelLocked(goal, b, at, n) => Follows(chains, b, at, n)
    case DelUnlinked(goal, b, at, n) => b < |chains| && InChain(chains[b], b, at)
    case DelPtrFree(goal, b, at, n) => b < |chains| && InChain(chains[b], b, at)
    case DelDestroy(goal, b, at, n) => b < |chains| && InChain(chains[b], b, at)
    case AddAwaitBucket(e) =>
      BucketOf(t, e) < |chains| && Absent(t, chains[BucketOf(t, e)], |chains[BucketOf(t, e)]|, e)
    case AddLocked(e) => BucketOf(t, e) < |chains| && Absent(t, chains[BucketOf(t, e)], |chains[BucketOf(t, e)]|, e)
    case AddAwaitData(e) => IsFirst(t, chains, e)
    case AddData(e) => IsFirst(t, chains, e)
    case AddUniqLast(e) => Linked(t, chains, e)
    case DupData(e, n) => Linked(t, chains, n)
    case NextAwaitPtr(e) => Linked(t, chains, e)
    case NextBoth(e) => Linked(t, chains, e)
    case _ => true
  }

  ghost predicate AllOk(t: Table, s: State) {
    forall i :: 0 <= i < |s.threads| ==> PcOk(t, s.chains, s.threads[i])
  }

  ghost predicate Exclusive(t: Table, s: State) {
    forall i, j :: 0 <= i < |s.threads| && 0 <= j < |s.threads| && i != j ==>
      Holds(t, s.threads[i]) !! Holds(t, s.threads[j])
  }

  ghost predicate PrivateOk(t: Table, s: State) {
    && (forall i, j :: 0 <= i < |s.threads| && 0 <= j < |s.threads| && i != j ==>
          Private(s.threads[i]) !! Private(s.threads[j]))
    && (forall i, e :: 0 <= i < |s.threads| && e in Private(s.threads[i]) ==> !Linked(t, s.chains, e))
  }

  ghost predicate Inv(t: Table, s: State) {
    GoodTable(t, s) && ChainsOk(t, s.chains) && AllOk(t, s) && Exclusive(t, s) && PrivateOk(t, s)
  }

  // ----- steps that leave the chains alone -----

  /** Thread i moves to pc, with at most the mutex it waited for, and at most an element that nobody has. */
  ghost predicate LocalMove(t: Table, s: State, i: nat, pc: Pc) {
    && i < |s.threads| && PcOk(t, s.chains, pc)
    && (forall l :: l in Holds(t, pc) ==> l in Holds(t, s.threads[i]) || Free(t, s, l))
    && (forall e :: e in Private(pc) ==>
          e in Private(s.threads[i])
          || (!Linked(t, s.chains, e) && forall j :: 0 <= j < |s.threads| ==> e !in Private(s.threads[j])))
  }

  lemma LocalKeeps(t: Table, s: State, i: nat, pc: Pc, count: int)
    requires Inv(t, s) && LocalMove(t, s, i, pc)
    ensures Inv(t, State(s.chains, count, s.threads[i := pc]))
  {
    hide PcOk, Holds, Private, ChainsOk, Linked;
    var s' := State(s.chains, count, s.threads[i := pc]);
    forall a, b | 0 <= a < |s'.threads| && 0 <= b < |s'.threads| && a != b
      ensures Holds(t, s'.threads[a]) !! Holds(t, s'.threads[b])
      ensures Private(s'.threads[a]) !! Private(s'.threads[b])
    {
    }
  }

  // ----- linking an element in -----

  lemma LinkIndex(c: seq<nat>, e: nat, x: nat)
    requires x in c && x != e
    ensures x in [e] + c && IndexOf([e] + c, x) == IndexOf(c, x) + 1
  {
    assert ([e] + c)[1..] == c;
  }

  ghost function LinkIn(t: Table, chains: seq<seq<nat>>, e: nat): seq<seq<nat>>
    requires BucketOf(t, e) < |chains|
  {
    chains[BucketOf(t, e) := [e] + chains[BucketOf(t, e)]]
  }

  /** A node other than the head of the bucket keeps its place among the others. */
  lemma LinkNode(t: Table, chains: seq<seq<nat>>, e: nat, b: nat, at: Node)
    requires BucketOf(t, e) < |chains| && !Linked(t, chains, e)
    requires b < |chains| && InChain(chains[b], b, at) && (b == BucketOf(t, e) ==> at != Head(b))
    ensures var c, c' := chains[b], LinkIn(t, chains, e)[b];
            && InChain(c', b, at)
            && c' == (if b == BucketOf(t, e) then [e] + c else c)
            && Pos(c', b, at) == Pos(c, b, at) + |c'| - |c|
  {
    if b == BucketOf(t, e) {
      LinkIndex(chains[b], e, at.e);
    }
  }

  lemma LinkFollows(t: Table, chains: seq<seq<nat>>, e: nat, b: nat, at: Node, n: nat)
    requires BucketOf(t, e) < |chains| && !Linked(t, chains, e)
    requires Follows(chains, b, at, n) && (b == BucketOf(t, e) ==> at != Head(b))
    ensures Follows(LinkIn(t, chains, e), b, at, n)
  {
    LinkNode(t, chains, e, b, at);
  }

  lemma LinkAt(t: Table, chains: seq<seq<nat>>, e: nat, goal: Goal, b: nat, at: Node)
    requires BucketOf(t, e) < |chains| && !Linked(t, chains, e)
    requires At(t, chains, goal, b, at) && (b == BucketOf(t, e) ==> at != Head(b) && !goal.Check?)
    ensures At(t, LinkIn(t, chains, e), goal, b, at)
  {
    LinkNode(t, chains, e, b, at);
  }

  lemma LinkLinked(t: Table, chains: seq<seq<nat>>, e: nat, x: nat)
    requires BucketOf(t, e) < |chains|
    ensures Linked(t, LinkIn(t, chains, e), x) <==> Linked(t, chains, x) || x == e
  {
  }

  /** Somewhere in hashtbl_find_elementp_starting_at. */
  predicate Searching(pc: Pc) {
    pc.Walk? || pc.AwaitPtr? || pc.HandOver? || pc.AwaitData? || pc.Found?
  }

  lemma LinkKeepsSearch(t: Table, chains: seq<seq<nat>>, e: nat, pc: Pc)
    requires BucketOf(t, e) < |chains| && !Linked(t, chains, e) && PcOk(t, chains, pc) && Searching(pc)
    requires Uniq(BucketOf(t, e)) !in Holds(t, pc) && Ptr(Head(BucketOf(t, e))) !in Holds(t, pc)
    ensures PcOk(t, LinkIn(t, chains, e), pc)
  {
    hide At, Follows, Linked, InChain, Pos;
    match pc {
      case Walk(goal, b, at) => LinkAt(t, chains, e, goal, b, at);
      case AwaitPtr(goal, b, at, n) => LinkAt(t, chains, e, goal, b, at); LinkFollows(t, chains, e, b, at, n);
      case HandOver(goal, b, at, n) => LinkAt(t, chains, e, goal, b, at); LinkFollows(t, chains, e, b, at, n);
      case AwaitData(goal, b, at, n) => LinkAt(t, chains, e, goal, b, at); LinkFollows(t, chains, e, b, at, n);
      case Found(goal, b, at, n) => LinkAt(t, chains, e, goal, b, at); LinkFollows(t, chains, e, b, at, n);
      case _ =>
    }
  }

  /** Somewhere in hashtbl_delete_element, past the search. */
  predicate Deleting(pc: Pc) {
    pc.DelAwaitCount? || pc.DelCounting? || pc.DelAwaitPtr? || pc.DelLocked? || pc.DelUnlinked? || pc.DelPtrFree?
    || pc.DelDestroy?
  }

  lemma LinkKeepsDelete(t: Table, chains: seq<seq<nat>>, e: nat, pc: Pc)
    requires BucketOf(t, e) < |chains| && !Linked(t, chains, e) && PcOk(t, chains, pc) && Deleting(pc)
    requires Uniq(BucketOf(t, e)) !in Holds(t, pc) && Ptr(Head(BucketOf(t, e))) !in Holds(t, pc)
    ensures PcOk(t, LinkIn(t, chains, e), pc)
  {
    hide At, Follows, Linked, InChain, Pos;
    match pc {
      case DelAwaitCount(goal, b, at, n) => LinkFollows(t, chains, e, b, at, n);
      case DelCounting(goal, b, at, n) => LinkFollows(t, chains, e, b, at, n);
      case DelAwaitPtr(goal, b, at, n) => LinkFollows(t, chains, e, b, at, n);
      case DelLocked(goal, b, at, n) => LinkFollows(t, chains, e, b, at, n);
      case DelUnlinked(goal, b, at, n) => LinkNode(t, chains, e, b, at);
      case DelPtrFree(goal, b, at, n) => LinkNode(t, chains, e, b, at);
      case DelDestroy(goal, b, at, n) => LinkNode(t, chains, e, b, at);
      case _ =>
    }
  }

  /** A thread that holds none of the adder's mutexes finds its place unchanged. */
  lemma LinkKeepsPc(t: Table, chains: seq<seq<nat>>, e: nat, pc: Pc)
    requires BucketOf(t, e) < |chains| && !Linked(t, chains, e) && PcOk(t, chains, pc)
    requires Uniq(BucketOf(t, e)) !in Holds(t, pc) && Ptr(Head(BucketOf(t, e))) !in Holds(t, pc)
    ensures PcOk(t, LinkIn(t, chains, e), pc)
  {
    hide At, Follows, Linked, InChain, Pos;
    if Searching(pc) {
      LinkKeepsSearch(t, chains, e, pc);
      return;
    }
    if Deleting(pc) {
      LinkKeepsDelete(t, chains, e, pc);
      return;
    }
    match pc {
      case Using(x) => LinkLinked(t, chains, e, x);
      case AddUniqLast(x) => LinkLinked(t, chains, e, x);
      case DupData(x, n) => LinkLinked(t, chains, e, n);
      case NextAwaitPtr(x) => LinkLinked(t, chains, e, x);
      case NextBoth(x) => LinkLinked(t, chains, e, x);
      case _ =>
    }
  }

  lemma LinkKeepsChains(t: Table, chains: seq<seq<nat>>, e: nat)
    requires BucketOf(t, e) < |chains| && ChainsOk(t, chains)
    requires Absent(t, chains[BucketOf(t, e)], |chains[BucketOf(t, e)]|, e)
    ensures ChainsOk(t, LinkIn(t, chains, e)) && !Linked(t, chains, e)
  {
  }

  lemma LinkKeeps(t: Table, s: State, i: nat)
    requires Inv(t, s) && i < |s.threads| && s.threads[i].AddLocked?
    ensures Next(t, s, i, Go).Some? && Inv(t, Next(t, s, i, Go).value)
  {
    var e := s.threads[i].e;
    var s' := Next(t, s, i, Go).value;
    assert PcOk(t, s.chains, s.threads[i]);
    LinkKeepsChains(t, s.chains, e);
    LinkKeepsOthers(t, s, i);
    hide PcOk, ChainsOk, Linked;
    forall j, k | 0 <= j < |s'.threads| && 0 <= k < |s'.threads| && j != k
      ensures Holds(t, s'.threads[j]) !! Holds(t, s'.threads[k])
      ensures Private(s'.threads[j]) !! Private(s'.threads[k])
    {
      assert Holds(t, s'.threads[i]) == Holds(t, s.threads[i]);
    }
  }

  lemma LinkKeepsOthers(t: Table, s: State, i: nat)
    requires Inv(t, s) && i < |s.threads| && s.threads[i].AddLocked? && !Linked(t, s.chains, s.threads[i].e)
    ensures Next(t, s, i, Go).Some?
    ensures var s' := Next(t, s, i, Go).value;
            && s'.chains == LinkIn(t, s.chains, s.threads[i].e)
            && AllOk(t, s')
            && forall j, x :: 0 <= j < |s'.threads| && x in Private(s'.threads[j]) ==> !Linked(t, s'.chains, x)
  {
    hide ChainsOk, Absent;
    var e := s.threads[i].e;
    assert PcOk(t, s.chains, s.threads[i]);
    assert Holds(t, s.threads[i]) == {Uniq(BucketOf(t, e)), Ptr(Head(BucketOf(t, e)))};
    var s' := Next(t, s, i, Go).value;
    forall j | 0 <= j < |s'.threads| && j != i
      ensures PcOk(t, s'.chains, s'.threads[j])
    {
      assert Holds(t, s.threads[i]) !! Holds(t, s.threads[j]);
      LinkKeepsPc(t, s.chains, e, s.threads[j]);
    }
    forall j, x | 0 <= j < |s'.threads| && j != i && x in Private(s'.threads[j])
      ensures !Linked(t, s'.chains, x)
    {
      assert Private(s.threads[i]) !! Private(s.threads[j]);
      LinkLinked(t, s.chains, e, x);
    }
  }

  // ----- unlinking an element -----

  lemma {:induction false} IndexIs(c: seq<nat>, i: nat)
    requires i < |c| && NoDup(c)
    ensures IndexOf(c, c[i]) == i
  {
  }

  lemma UnlinkIndex(c: seq<nat>, n: nat, x: nat)
    requires n in c && x in c && x != n && NoDup(c)
    ensures x in Unlinked(c, n) && n !in Unlinked(c, n) && NoDup(Unlinked(c, n))
    ensures IndexOf(Unlinked(c, n), x) == if IndexOf(c, x) < IndexOf(c, n) then IndexOf(c, x) else IndexOf(c, x) - 1
  {
    var i, p := IndexOf(c, x), IndexOf(c, n);
    var k := if i < p then i else i - 1;
    assert Unlinked(c, n)[k] == x;
    IndexIs(Unlinked(c, n), k);
  }

  /** The deleter's place: node at is before n, which is about to be unlinked. */
  ghost predicate Cut(t: Table, chains: seq<seq<nat>>, b: nat, at: Node, n: nat) {
    ChainsOk(t, chains) && Follows(chains, b, at, n)
  }

  ghost function UnlinkFrom(chains: seq<seq<nat>>, b: nat, n: nat): seq<seq<nat>>
    requires b < |chains| && n in chains[b]
  {
    chains[b := Unlinked(chains[b], n)]
  }

  lemma CutIndex(t: Table, chains: seq<seq<nat>>, b: nat, at: Node, n: nat)
    requires Cut(t, chains, b, at, n)
    ensures NoDup(chains[b]) && n in chains[b] && IndexOf(chains[b], n) == Pos(chains[b], b, at)
  {
    IndexIs(chains[b], Pos(chains[b], b, at));
  }

  /** A node other than the unlinked element keeps its place among the others. */
  lemma UnlinkNode(t: Table, chains: seq<seq<nat>>, b: nat, at: Node, n: nat, b': nat, at': Node)
    requires Cut(t, chains, b, at, n) && b' < |chains| && InChain(chains[b'], b', at') && at' != Elt(n)
    ensures n in chains[b]
    ensures var c, c' := chains[b'], UnlinkFrom(chains, b, n)[b'];
            && InChain(c', b', at')
            && Pos(c', b', at') == (if b' == b && Pos(c, b', at') > Pos(c, b, at) then Pos(c, b', at') - 1
                                    else Pos(c, b', at'))
  {
    CutIndex(t, chains, b, at, n);
    if b' == b && at'.Elt? {
      UnlinkIndex(chains[b], n, at'.e);
    }
  }

  lemma UnlinkedAt(c: seq<nat>, n: nat, k: nat)
    requires n in c && k < |Unlinked(c, n)|
    ensures |Unlinked(c, n)| == |c| - 1
    ensures Unlinked(c, n)[k] == if k < IndexOf(c, n) then c[k] else c[k + 1]
  {
  }

  lemma SamePlace(c: seq<nat>, b: nat, at: Node, at': Node)
    requires InChain(c, b, at) && InChain(c, b, at') && Pos(c, b, at) == Pos(c, b, at')
    ensures at == at'
  {
  }

  lemma UnlinkFollows(t: Table, chains: seq<seq<nat>>, b: nat, at: Node, n: nat, b': nat, at': Node, n': nat)
    requires Cut(t, chains, b, at, n) && Follows(chains, b', at', n') && at' != Elt(n) && (b' == b ==> at' != at)
    ensures n in chains[b] && Follows(UnlinkFrom(chains, b, n), b', at', n')
  {
    UnlinkNode(t, chains, b, at, n, b', at');
    CutIndex(t, chains, b, at, n);
    if b' == b {
      var c := chains[b];
      if Pos(c, b, at') == Pos(c, b, at) {
        SamePlace(c, b, at, at');
      } else {
        hide ChainsOk, IndexOf;
        var p' := Pos(Unlinked(c, n), b, at');
        if p' < |Unlinked(c, n)| {
          UnlinkedAt(c, n, p');
        }
      }
    }
  }

  lemma UnlinkAbsent(t: Table, c: seq<nat>, n: nat, p: nat, p': nat, e: nat)
    requires n in c && Absent(t, c, p, e) && ((p' <= IndexOf(c, n) && p' <= p) || p' + 1 <= p)
    ensures Absent(t, Unlinked(c, n), p', e)
  {
    forall k | 0 <= k < p' && k < |Unlinked(c, n)|
      ensures t.key(Unlinked(c, n)[k]) != t.key(e)
    {
      UnlinkedAt(c, n, k);
    }
  }

  lemma UnlinkAt(t: Table, chains: seq<seq<nat>>, b: nat, at: Node, n: nat, goal: Goal, b': nat, at': Node)
    requires Cut(t, chains, b, at, n) && At(t, chains, goal, b', at') && at' != Elt(n)
    ensures n in chains[b] && At(t, UnlinkFrom(chains, b, n), goal, b', at')
  {
    UnlinkNode(t, chains, b, at, n, b', at');
    CutIndex(t, chains, b, at, n);
    if b' == b && goal.Check? {
      UnlinkAbsent(t, chains[b], n, Pos(chains[b], b, at'), Pos(Unlinked(chains[b], n), b, at'), goal.e);
    }
  }

  lemma UnlinkLinked(t: Table, chains: seq<seq<nat>>, b: nat, at: Node, n: nat, x: nat)
    requires Cut(t, chains, b, at, n)
    ensures n in chains[b]
    ensures Linked(t, UnlinkFrom(chains, b, n), x) <==> Linked(t, chains, x) && x != n
  {
    CutIndex(t, chains, b, at, n);
    assert BucketOf(t, n) == b;
    var c := chains[b];
    if x in c && x != n {
      UnlinkIndex(c, n, x);
    }
    if x in Unlinked(c, n) {
      var k :| 0 <= k < |Unlinked(c, n)| && Unlinked(c, n)[k] == x;
      UnlinkedAt(c, n, k);
    }
  }

  lemma UnlinkFirst(t: Table, chains: seq<seq<nat>>, b: nat, at: Node, n: nat, x: nat)
    requires Cut(t, chains, b, at, n) && IsFirst(t, chains, x) && (BucketOf(t, x) == b ==> at != Head(b))
    ensures n in chains[b] && IsFirst(t, UnlinkFrom(chains, b, n), x)
  {
    CutIndex(t, chains, b, at, n);
    if BucketOf(t, x) == b {
      UnlinkedAt(chains[b], n, 0);
    }
  }

  lemma UnlinkNoKey(t: Table, chains: seq<seq<nat>>, b: nat, at: Node, n: nat, x: nat)
    requires Cut(t, chains, b, at, n)
    requires BucketOf(t, x) < |chains| && Absent(t, chains[BucketOf(t, x)], |chains[BucketOf(t, x)]|, x)
    ensures n in chains[b]
    ensures var c' := UnlinkFrom(chains, b, n)[BucketOf(t, x)]; Absent(t, c', |c'|, x)
  {
    CutIndex(t, chains, b, at, n);
    if BucketOf(t, x) == b {
      UnlinkAbsent(t, chains[b], n, |chains[b]|, |chains[b]| - 1, x);
    }
  }

  lemma UnlinkKeepsSearch(t: Table, chains: seq<seq<nat>>, b: nat, at: Node, n: nat, pc: Pc)
    requires Cut(t, chains, b, at, n) && PcOk(t, chains, pc) && Searching(pc)
    requires Ptr(at) !in Holds(t, pc) && Ptr(Elt(n)) !in Holds(t, pc) && Data(n) !in Holds(t, pc)
    ensures n in chains[b] && PcOk(t, UnlinkFrom(chains, b, n), pc)
  {
    CutIndex(t, chains, b, at, n);
    CutAtHead(t, chains, b, at, n);
    hide At, Follows, Linked, InChain, Pos, Cut, IsFirst, Absent, Unlinked;
    match pc {
      case Walk(goal, b', at') => UnlinkAt(t, chains, b, at, n, goal, b', at');
      case AwaitPtr(goal, b', at', n') =>
        UnlinkAt(t, chains, b, at, n, goal, b', at');
        UnlinkFollows(t, chains, b, at, n, b', at', n');
      case HandOver(goal, b', at', n') =>
        UnlinkAt(t, chains, b, at, n, goal, b', at');
        UnlinkFollows(t, chains, b, at, n, b', at', n');
      case AwaitData(goal, b', at', n') =>
        UnlinkAt(t, chains, b, at, n, goal, b', at');
        UnlinkFollows(t, chains, b, at, n, b', at', n');
      case Found(goal, b', at', n') =>
        UnlinkAt(t, chains, b, at, n, goal, b', at');
        UnlinkFollows(t, chains, b, at, n, b', at', n');
      case _ =>
    }
  }

  lemma UnlinkKeepsDelete(t: Table, chains: seq<seq<nat>>, b: nat, at: Node, n: nat, pc: Pc)
    requires Cut(t, chains, b, at, n) && PcOk(t, chains, pc) && Deleting(pc)
    requires Ptr(at) !in Holds(t, pc) && Ptr(Elt(n)) !in Holds(t, pc) && Data(n) !in Holds(t, pc)
    ensures n in chains[b] && PcOk(t, UnlinkFrom(chains, b, n), pc)
  {
    CutIndex(t, chains, b, at, n);
    CutAtHead(t, chains, b, at, n);
    hide At, Follows, Linked, InChain, Pos, Cut, IsFirst, Absent, Unlinked;
    match pc {
      case DelAwaitCount(goal, b', at', n') => UnlinkFollows(t, chains, b, at, n, b', at', n');
      case DelCounting(goal, b', at', n') => UnlinkFollows(t, chains, b, at, n, b', at', n');
      case DelAwaitPtr(goal, b', at', n') => UnlinkFollows(t, chains, b, at, n, b', at', n');
      case DelLocked(goal, b', at', n') => UnlinkFollows(t, chains, b, at, n, b', at', n');
      case DelUnlinked(goal, b', at', n') => UnlinkNode(t, chains, b, at, n, b', at');
      case DelPtrFree(goal, b', at', n') => UnlinkNode(t, chains, b, at, n, b', at');
      case DelDestroy(goal, b', at', n') => UnlinkNode(t, chains, b, at, n, b', at');
      case _ =>
    }
  }

  /** A thread that holds none of the deleter's mutexes finds its place unchanged. */
  lemma UnlinkKeepsPc(t: Table, chains: seq<seq<nat>>, b: nat, at: Node, n: nat, pc: Pc)
    requires Cut(t, chains, b, at, n) && PcOk(t, chains, pc)
    requires Ptr(at) !in Holds(t, pc) && Ptr(Elt(n)) !in Holds(t, pc) && Data(n) !in Holds(t, pc)
    ensures n in chains[b] && PcOk(t, UnlinkFrom(chains, b, n), pc)
  {
    CutIndex(t, chains, b, at, n);
    CutAtHead(t, chains, b, at, n);
    hide At, Follows, Linked, InChain, Pos, Cut, IsFirst, Absent, Unlinked;
    if Searching(pc) {
      UnlinkKeepsSearch(t, chains, b, at, n, pc);
      return;
    }
    if Deleting(pc) {
      UnlinkKeepsDelete(t, chains, b, at, n, pc);
      return;
    }
    match pc {
      case Using(x) => UnlinkLinked(t, chains, b, at, n, x);
      case AddAwaitBucket(x) => UnlinkNoKey(t, chains, b, at, n, x);
      case AddLocked(x) => UnlinkNoKey(t, chains, b, at, n, x);
      case AddAwaitData(x) => UnlinkFirst(t, chains, b, at, n, x);
      case AddData(x) => UnlinkFirst(t, chains, b, at, n, x);
      case AddUniqLast(x) => UnlinkLinked(t, chains, b, at, n, x);
      case DupData(x, n') => UnlinkLinked(t, chains, b, at, n, n');
      case NextAwaitPtr(x) => UnlinkLinked(t, chains, b, at, n, x);
      case NextBoth(x) => UnlinkLinked(t, chains, b, at, n, x);
      case _ =>
    }
  }

  lemma CutAtHead(t: Table, chains: seq<seq<nat>>, b: nat, at: Node, n: nat)
    requires Cut(t, chains, b, at, n)
    ensures at.Head? ==> at.bucket == b
    ensures b < |chains| && n in chains[b] && at != Elt(n) && InChain(Unlinked(chains[b], n), b, at)
  {
    CutIndex(t, chains, b, at, n);
    UnlinkNode(t, chains, b, at, n, b, at);
  }

  lemma UnlinkKeepsChains(t: Table, chains: seq<seq<nat>>, b: nat, at: Node, n: nat)
    requires Cut(t, chains, b, at, n)
    ensures n in chains[b] && ChainsOk(t, UnlinkFrom(chains, b, n))
  {
    CutIndex(t, chains, b, at, n);
    forall k | 0 <= k < |Unlinked(chains[b], n)|
      ensures Unlinked(chains[b], n)[k] == if k < IndexOf(chains[b], n) then chains[b][k] else chains[b][k + 1]
    {
      UnlinkedAt(chains[b], n, k);
    }
  }

  lemma UnlinkKeepsOthers(t: Table, s: State, i: nat)
    requires Inv(t, s) && i < |s.threads| && s.threads[i].DelLocked?
    requires var pc := s.threads[i]; Cut(t, s.chains, pc.b, pc.at, pc.n) && pc.n in s.chains[pc.b]
    ensures Next(t, s, i, Go).Some?
    ensures var s', pc := Next(t, s, i, Go).value, s.threads[i];
            && s'.chains == UnlinkFrom(s.chains, pc.b, pc.n)
            && AllOk(t, s')
            && forall j, x :: 0 <= j < |s'.threads| && x in Private(s'.threads[j]) ==> !Linked(t, s'.chains, x)
  {
    hide ChainsOk, Absent, Unlinked, Cut;
    var pc := s.threads[i];
    CutAtHead(t, s.chains, pc.b, pc.at, pc.n);
    assert Holds(t, pc) == {Ptr(pc.at), Data(pc.n), Ptr(Elt(pc.n))};
    var s' := Next(t, s, i, Go).value;
    forall j | 0 <= j < |s'.threads| && j != i
      ensures PcOk(t, s'.chains, s'.threads[j])
    {
      assert Holds(t, s.threads[i]) !! Holds(t, s.threads[j]);
      UnlinkKeepsPc(t, s.chains, pc.b, pc.at, pc.n, s.threads[j]);
    }
    forall j, x | 0 <= j < |s'.threads| && x in Private(s'.threads[j])
      ensures !Linked(t, s'.chains, x)
    {
      UnlinkLinked(t, s.chains, pc.b, pc.at, pc.n, x);
    }
  }

  lemma UnlinkKeeps(t: Table, s: State, i: nat)
    requires Inv(t, s) && i < |s.threads| && s.threads[i].DelLocked?
    ensures Next(t, s, i, Go).Some? && Inv(t, Next(t, s, i, Go).value)
  {
    var pc := s.threads[i];
    assert PcOk(t, s.chains, pc);
    CutIndex(t, s.chains, pc.b, pc.at, pc.n);
    CutIsLinked(t, s.chains, pc.b, pc.at, pc.n);
    UnlinkKeepsChains(t, s.chains, pc.b, pc.at, pc.n);
    UnlinkKeepsOthers(t, s, i);
    var s' := Next(t, s, i, Go).value;
    hide PcOk, ChainsOk, Linked;
    assert Holds(t, s'.threads[i]) == Holds(t, s.threads[i]);
    forall j, k | 0 <= j < |s'.threads| && 0 <= k < |s'.threads| && j != k
      ensures Holds(t, s'.threads[j]) !! Holds(t, s'.threads[k])
    {
    }
    forall j, k | 0 <= j < |s'.threads| && 0 <= k < |s'.threads| && j != k
      ensures Private(s'.threads[j]) !! Private(s'.threads[k])
    {
    }
  }

  lemma CutIsLinked(t: Table, chains: seq<seq<nat>>, b: nat, at: Node, n: nat)
    requires Cut(t, chains, b, at, n)
    ensures Linked(t, chains, n)
  {
    CutIndex(t, chains, b, at, n);
    assert BucketOf(t, n) == b;
  }

  // ----- every step -----

  /** A step that is neither of the two that relink a chain. */
  ghost predicate Plain(t: Table, s: State, i: nat, cmd: Cmd) {
    && Inv(t, s) && i < |s.threads| && !s.threads[i].AddLocked? && !s.threads[i].DelLocked?
    && Next(t, s, i, cmd).Some?
  }

  lemma PlainNext(t: Table, s: State, i: nat, cmd: Cmd)
    requires Plain(t, s, i, cmd)
    ensures |s.chains| == t.buckets && i < |s.threads| && Next(t, s, i, cmd).Some?
  {
  }

  lemma PlainShape(t: Table, s: State, i: nat, cmd: Cmd)
    requires Plain(t, s, i, cmd)
    ensures var s' := Next(t, s, i, cmd).value;
            |s'.threads| == |s.threads| && s' == State(s.chains, s'.count, s.threads[i := s'.threads[i]])
  {
    hide PcOk, Holds, Private, ChainsOk, Linked;
  }

  /** A thread that adds walks the bucket of its element. */
  lemma CheckBucket(t: Table, s: State, i: nat)
    requires Inv(t, s) && i < |s.threads|
    ensures var pc := s.threads[i];
            (pc.Walk? || pc.Found?) && pc.goal.Check? ==> pc.b == BucketOf(t, pc.goal.e)
  {
    assert PcOk(t, s.chains, s.threads[i]);
  }

  lemma PlainHoldsSearch(t: Table, s: State, i: nat, cmd: Cmd, l: Lock)
    requires Plain(t, s, i, cmd) && Searching(s.threads[i])
    ensures var s' := Next(t, s, i, cmd).value;
            i < |s'.threads| && (l in Holds(t, s'.threads[i]) ==> l in Holds(t, s.threads[i]) || Free(t, s, l))
  {
    hide Private, ChainsOk, Linked, Free, PcOk, Exclusive, PrivateOk, AllOk;
    CheckBucket(t, s, i);
  }

  lemma PlainHoldsDelete(t: Table, s: State, i: nat, cmd: Cmd, l: Lock)
    requires Plain(t, s, i, cmd) && Deleting(s.threads[i])
    ensures var s' := Next(t, s, i, cmd).value;
            i < |s'.threads| && (l in Holds(t, s'.threads[i]) ==> l in Holds(t, s.threads[i]) || Free(t, s, l))
  {
    hide Private, ChainsOk, Linked, Free, PcOk, Exclusive, PrivateOk, AllOk;
    CheckBucket(t, s, i);
  }

  lemma PlainHoldsElse(t: Table, s: State, i: nat, cmd: Cmd, l: Lock)
    requires Plain(t, s, i, cmd) && !Searching(s.threads[i]) && !Deleting(s.threads[i])
    ensures var s' := Next(t, s, i, cmd).value;
            i < |s'.threads| && (l in Holds(t, s'.threads[i]) ==> l in Holds(t, s.threads[i]) || Free(t, s, l))
  {
    hide Private, ChainsOk, Linked, Free, PcOk, Exclusive, PrivateOk, AllOk;
    CheckBucket(t, s, i);
  }

  lemma PlainHolds(t: Table, s: State, i: nat, cmd: Cmd, l: Lock)
    requires Plain(t, s, i, cmd)
    ensures var s' := Next(t, s, i, cmd).value;
            i < |s'.threads| && (l in Holds(t, s'.threads[i]) ==> l in Holds(t, s.threads[i]) || Free(t, s, l))
  {
    hide Plain, Next, Holds, Private, Free, Linked, PcOk;
    PlainNext(t, s, i, cmd);
    if Searching(s.threads[i]) {
      PlainHoldsSearch(t, s, i, cmd, l);
    } else if Deleting(s.threads[i]) {
      PlainHoldsDelete(t, s, i, cmd, l);
    } else {
      PlainHoldsElse(t, s, i, cmd, l);
    }
  }

  lemma PlainPrivateSearch(t: Table, s: State, i: nat, cmd: Cmd, e: nat)
    requires Plain(t, s, i, cmd) && Searching(s.threads[i])
    ensures var s' := Next(t, s, i, cmd).value;
            && i < |s'.threads|
            && (e in Private(s'.threads[i]) ==>
                  e in Private(s.threads[i])
                  || (!Linked(t, s.chains, e) && forall j :: 0 <= j < |s.threads| ==> e !in Private(s.threads[j])))
  {
    hide Holds, ChainsOk, Free, At, Follows, IsFirst, Absent, PcOk;
  }

  lemma PlainPrivateDelete(t: Table, s: State, i: nat, cmd: Cmd, e: nat)
    requires Plain(t, s, i, cmd) && Deleting(s.threads[i])
    ensures var s' := Next(t, s, i, cmd).value;
            && i < |s'.threads|
            && (e in Private(s'.threads[i]) ==>
                  e in Private(s.threads[i])
                  || (!Linked(t, s.chains, e) && forall j :: 0 <= j < |s.threads| ==> e !in Private(s.threads[j])))
  {
    hide Holds, ChainsOk, Free, At, Follows, IsFirst, Absent, PcOk;
  }

  lemma PlainPrivateElse(t: Table, s: State, i: nat, cmd: Cmd, e: nat)
    requires Plain(t, s, i, cmd) && !Searching(s.threads[i]) && !Deleting(s.threads[i])
    ensures var s' := Next(t, s, i, cmd).value;
            && i < |s'.threads|
            && (e in Private(s'.threads[i]) ==>
                  e in Private(s.threads[i])
                  || (!Linked(t, s.chains, e) && forall j :: 0 <= j < |s.threads| ==> e !in Private(s.threads[j])))
  {
    hide Holds, ChainsOk, Free, At, Follows, IsFirst, Absent, PcOk;
  }

  lemma PlainPrivate(t: Table, s: State, i: nat, cmd: Cmd, e: nat)
    requires Plain(t, s, i, cmd)
    ensures var s' := Next(t, s, i, cmd).value;
            && i < |s'.threads|
            && (e in Private(s'.threads[i]) ==>
                  e in Private(s.threads[i])
                  || (!Linked(t, s.chains, e) && forall j :: 0 <= j < |s.threads| ==> e !in Private(s.threads[j])))
  {
    hide Plain, Next, Holds, Private, Free, Linked, PcOk;
    PlainNext(t, s, i, cmd);
    if Searching(s.threads[i]) {
      PlainPrivateSearch(t, s, i, cmd, e);
    } else if Deleting(s.threads[i]) {
      PlainPrivateDelete(t, s, i, cmd, e);
    } else {
      PlainPrivateElse(t, s, i, cmd, e);
    }
  }

  lemma FirstIsLinked(t: Table, chains: seq<seq<nat>>, e: nat)
    requires IsFirst(t, chains, e)
    ensures Linked(t, chains, e)
  {
  }

  lemma WalkPlace(t: Table, s: State, i: nat, cmd: Cmd)
    requires Plain(t, s, i, cmd) && s.threads[i].Walk?
    ensures var s' := Next(t, s, i, cmd).value; i < |s'.threads| && PcOk(t, s.chains, s'.threads[i])
  {
    hide Holds, Private, ChainsOk, Free, Exclusive, PrivateOk, IndexOf;
    assert PcOk(t, s.chains, s.threads[i]);
  }

  /** The key that a command looks for, or any. */
  function Sought(t: Table, cmd: Cmd): int {
    match cmd
    case Find(k) => k
    case DelByKey(k) => k
    case DelByPtr(e) => t.key(e)
    case _ => 0
  }

  lemma PlainPlaceSearch(t: Table, s: State, i: nat, cmd: Cmd)
    requires Plain(t, s, i, cmd) && Searching(s.threads[i])
    ensures var s' := Next(t, s, i, cmd).value; i < |s'.threads| && PcOk(t, s.chains, s'.threads[i])
  {
    hide Holds, Private, ChainsOk, Free, Exclusive, PrivateOk, At, Follows, IsFirst, Absent, Linked, InChain, Pos;
    var pc := s.threads[i];
    assert PcOk(t, s.chains, pc);
    match pc {
      case Walk(goal, b, at) => WalkPlace(t, s, i, cmd);
      case HandOver(goal, b, at, n) => WalkOn(t, s.chains, goal, b, at, n);
      case Found(goal, b, at, n) => FollowersLinked(t, s.chains);
      case _ =>
    }
  }

  lemma PlainPlaceDelete(t: Table, s: State, i: nat, cmd: Cmd)
    requires Plain(t, s, i, cmd) && Deleting(s.threads[i])
    ensures var s' := Next(t, s, i, cmd).value; i < |s'.threads| && PcOk(t, s.chains, s'.threads[i])
  {
    hide Holds, Private, ChainsOk, Free, Exclusive, PrivateOk, At, Follows, IsFirst, Absent, Linked, InChain, Pos;
    assert PcOk(t, s.chains, s.threads[i]);
  }

  lemma PlainPlaceElse(t: Table, s: State, i: nat, cmd: Cmd)
    requires Plain(t, s, i, cmd) && !Searching(s.threads[i]) && !Deleting(s.threads[i])
    ensures var s' := Next(t, s, i, cmd).value; i < |s'.threads| && PcOk(t, s.chains, s'.threads[i])
  {
    hide Holds, Private, ChainsOk, Free, Exclusive, PrivateOk, At, Follows, IsFirst, Absent, Linked, InChain, Pos;
    var pc := s.threads[i];
    assert PcOk(t, s.chains, pc);
    match pc {
      case Enter(goal, b) => AtHead(t, s.chains, goal, b);
      case AddData(e) => FirstIsLinked(t, s.chains, e);
      case NextBoth(e) => AtElement(t, s.chains, e);
      case Idle => BucketInRange(t, Sought(t, cmd));
      case AddAwaitUniq(e) => BucketInRange(t, t.key(e));
      case _ =>
    }
  }

  lemma PlainPlace(t: Table, s: State, i: nat, cmd: Cmd)
    requires Plain(t, s, i, cmd)
    ensures var s' := Next(t, s, i, cmd).value; i < |s'.threads| && PcOk(t, s.chains, s'.threads[i])
  {
    hide Plain, Next, Holds, Private, Free, Linked, PcOk;
    PlainNext(t, s, i, cmd);
    if Searching(s.threads[i]) {
      PlainPlaceSearch(t, s, i, cmd);
    } else if Deleting(s.threads[i]) {
      PlainPlaceDelete(t, s, i, cmd);
    } else {
      PlainPlaceElse(t, s, i, cmd);
    }
  }

  lemma BucketInRange(t: Table, k: int)
    requires Fine(t)
    ensures t.bucketOf(k) < t.buckets
  {
  }

  lemma AtHead(t: Table, chains: seq<seq<nat>>, goal: Goal, b: nat)
    requires b < |chains| && (goal.Check? ==> b == BucketOf(t, goal.e))
    ensures At(t, chains, goal, b, Head(b))
  {
  }

  lemma AtElement(t: Table, chains: seq<seq<nat>>, e: nat)
    requires Linked(t, chains, e)
    ensures At(t, chains, Any, BucketOf(t, e), Elt(e))
  {
  }

  lemma OtherStepsAreLocal(t: Table, s: State, i: nat, cmd: Cmd)
    requires Plain(t, s, i, cmd)
    ensures var s' := Next(t, s, i, cmd).value;
            && |s'.threads| == |s.threads| && s' == State(s.chains, s'.count, s.threads[i := s'.threads[i]])
            && LocalMove(t, s, i, s'.threads[i])
  {
    hide Plain, Next, PcOk, Holds, Private, Free, Linked, Inv;
    PlainInv(t, s, i, cmd);
    PlainShape(t, s, i, cmd);
    PlainPlace(t, s, i, cmd);
    forall l
      ensures l in Holds(t, Next(t, s, i, cmd).value.threads[i]) ==> l in Holds(t, s.threads[i]) || Free(t, s, l)
    {
      PlainHolds(t, s, i, cmd, l);
    }
    forall e: nat
      ensures e in Private(Next(t, s, i, cmd).value.threads[i]) ==>
          e in Private(s.threads[i])
          || (!Linked(t, s.chains, e) && forall j :: 0 <= j < |s.threads| ==> e !in Private(s.threads[j]))
    {
      PlainPrivate(t, s, i, cmd, e);
    }
  }

  lemma PlainInv(t: Table, s: State, i: nat, cmd: Cmd)
    requires Plain(t, s, i, cmd)
    ensures Inv(t, s) && i < |s.threads| && |s.chains| == t.buckets && Next(t, s, i, cmd).Some?
  {
  }

  /** Every step of every thread keeps the invariant. */
  lemma StepKeeps(t: Table, s: State, i: nat, cmd: Cmd)
    requires Inv(t, s) && i < |s.threads| && Next(t, s, i, cmd).Some?
    ensures Inv(t, Next(t, s, i, cmd).value)
  {
    hide Next, Inv;
    InvShape(t, s);
    if s.threads[i].AddLocked? {
      LinkKeeps(t, s, i);
      CommandIgnored(t, s, i, cmd);
    } else if s.threads[i].DelLocked? {
      UnlinkKeeps(t, s, i);
      CommandIgnored(t, s, i, cmd);
    } else {
      OtherStepsAreLocal(t, s, i, cmd);
      var s' := Next(t, s, i, cmd).value;
      LocalKeeps(t, s, i, s'.threads[i], s'.count);
    }
  }

  lemma InvShape(t: Table, s: State)
    requires Inv(t, s)
    ensures |s.chains| == t.buckets
  {
  }

  lemma CommandIgnored(t: Table, s: State, i: nat, cmd: Cmd)
    requires i < |s.threads| && |s.chains| == t.buckets && (s.threads[i].AddLocked? || s.threads[i].DelLocked?)
    ensures Next(t, s, i, cmd) == Next(t, s, i, Go)
  {
  }

  /** The walk advances: node n and all before it have been looked at. */
  lemma WalkOn(t: Table, chains: seq<seq<nat>>, goal: Goal, b: nat, at: Node, n: nat)
    requires ChainsOk(t, chains) && At(t, chains, goal, b, at) && Follows(chains, b, at, n) && !Matches(t, goal, n)
    ensures At(t, chains, goal, b, Elt(n))
  {
    CutIndex(t, chains, b, at, n);
  }

  // ----- runs -----

  /** A new table, with any number of idle threads. */
  ghost predicate Start(t: Table, s: State) {
    && Fine(t) && s.chains == seq(t.buckets, _ => []) && s.count == 0
    && forall i :: 0 <= i < |s.threads| ==> s.threads[i] == Idle
  }

  /** Consecutive states differ by one step of one thread. */
  ghost predicate IsRun(t: Table, run: seq<State>) {
    && run != [] && Start(t, run[0])
    && forall k :: 0 <= k < |run| - 1 ==> Steps(t, run[k], run[k + 1])
  }

  ghost predicate Steps(t: Table, s: State, s': State) {
    |s.chains| == t.buckets && exists i, cmd :: 0 <= i < |s.threads| && Next(t, s, i, cmd) == Some(s')
  }

  /** A step changes one thread. */
  lemma StepFrame(t: Table, s: State, i: nat, cmd: Cmd)
    requires |s.chains| == t.buckets && i < |s.threads| && Next(t, s, i, cmd).Some?
    ensures var s' := Next(t, s, i, cmd).value;
      && |s'.threads| == |s.threads| && |s'.chains| == |s.chains|
      && forall k :: 0 <= k < |s.threads| && k != i ==> s'.threads[k] == s.threads[k]
  {
    hide Free, Holds, Private, Awaits, Matches;
  }

  lemma StartInv(t: Table, s: State)
    requires Start(t, s)
    ensures Inv(t, s)
  {
  }

  /** The invariant holds after any interleaving of any number of threads. */
  lemma {:induction false} RunInv(t: Table, run: seq<State>, k: nat)
    requires IsRun(t, run) && k < |run|
    ensures Inv(t, run[k])
  {
    hide Inv, Next;
    if k == 0 {
      StartInv(t, run[0]);
    } else {
      RunInv(t, run, k - 1);
      assert Steps(t, run[k - 1], run[k - 1 + 1]);
      var i, cmd :| 0 <= i < |run[k - 1].threads| && Next(t, run[k - 1], i, cmd) == Some(run[k]);
      StepKeeps(t, run[k - 1], i, cmd);
    }
  }

  // ----- what the protocol is for -----

  /** A table with unique keys never holds two elements with the same key. */
  lemma KeysStayUnique(t: Table, run: seq<State>, k: nat, b: nat, i: nat, j: nat, b': nat)
    requires IsRun(t, run) && k < |run|
    requires b < |run[k].chains| && b' < |run[k].chains| && i < |run[k].chains[b]| && j < |run[k].chains[b']|
    requires b != b' || i != j
    ensures t.key(run[k].chains[b][i]) != t.key(run[k].chains[b'][j])
  {
    RunInv(t, run, k);
    assert BucketOf(t, run[k].chains[b][i]) == b;
    assert BucketOf(t, run[k].chains[b'][j]) == b';
    if b == b' && j < i {
      assert t.key(run[k].chains[b][j]) != t.key(run[k].chains[b][i]);
    }
  }

  /** When an element's mutexes are destroyed no other thread holds or awaits them, or will use the element. */
  lemma DestroyedUnused(t: Table, run: seq<State>, k: nat, i: nat, j: nat)
    requires IsRun(t, run) && k < |run| && i < |run[k].threads| && j < |run[k].threads| && i != j
    requires run[k].threads[i].DelDestroy?
    ensures var n := run[k].threads[i].n;
            && Ptr(Elt(n)) !in Holds(t, run[k].threads[j]) && Data(n) !in Holds(t, run[k].threads[j])
            && Awaits(t, run[k].threads[j]) != Some(Ptr(Elt(n))) && Awaits(t, run[k].threads[j]) != Some(Data(n))
  {
    RunInv(t, run, k);
    var s := run[k];
    var n := s.threads[i].n;
    assert n in Private(s.threads[i]);
    assert !Linked(t, s.chains, n);
    assert Private(s.threads[i]) !! Private(s.threads[j]);
    assert PcOk(t, s.chains, s.threads[j]);
    if Ptr(Elt(n)) in Holds(t, s.threads[j]) || Data(n) in Holds(t, s.threads[j])
       || Awaits(t, s.threads[j]) == Some(Ptr(Elt(n))) || Awaits(t, s.threads[j]) == Some(Data(n)) {
      TouchedIsLinked(t, s, j, n);
    }
  }

  /** A thread holds or awaits only mutexes of elements that are linked in or that only it can reach. */
  lemma TouchedIsLinked(t: Table, s: State, j: nat, n: nat)
    requires Inv(t, s) && j < |s.threads| && n !in Private(s.threads[j])
    requires Ptr(Elt(n)) in Holds(t, s.threads[j]) || Data(n) in Holds(t, s.threads[j])
             || Awaits(t, s.threads[j]) == Some(Ptr(Elt(n))) || Awaits(t, s.threads[j]) == Some(Data(n))
    ensures Linked(t, s.chains, n)
  {
    hide Exclusive, PrivateOk, Linked, Absent;
    var pc := s.threads[j];
    assert PcOk(t, s.chains, pc);
    FollowersLinked(t, s.chains);
  }

  lemma FollowersLinked(t: Table, chains: seq<seq<nat>>)
    requires ChainsOk(t, chains)
    ensures forall b, at, n :: Follows(chains, b, at, n) ==> Linked(t, chains, n)
    ensures forall b, e :: 0 <= b < |chains| && InChain(chains[b], b, Elt(e)) ==> Linked(t, chains, e)
  {
    forall b: nat, e: nat | b < |chains| && InChain(chains[b], b, Elt(e))
      ensures Linked(t, chains, e)
    {
      var i :| 0 <= i < |chains[b]| && chains[b][i] == e;
      assert BucketOf(t, chains[b][i]) == b;
    }
    forall b: nat, at: Node, n: nat | Follows(chains, b, at, n)
      ensures Linked(t, chains, n)
    {
      assert BucketOf(t, chains[b][Pos(chains[b], b, at)]) == b;
    }
  }

  // ----- no deadlock -----

  ghost predicate LongerThan(chains: seq<seq<nat>>, m: nat) {
    forall b :: 0 <= b < |chains| ==> |chains[b]| <= m
  }

  lemma {:induction false} Longest(chains: seq<seq<nat>>) returns (m: nat)
    ensures LongerThan(chains, m)
  {
    m := 0;
    if chains != [] {
      m := Longest(chains[1..]);
      m := if |chains[0]| > m then |chains[0]| else m;
      assert forall b :: 0 < b < |chains| ==> chains[b] == chains[1..][b - 1];
    }
  }

  /** The order in which mutexes are acquired: along a chain, and the counter last. */
  ghost function Rank(t: Table, chains: seq<seq<nat>>, m: nat, l: Lock): nat {
    match l
    case Uniq(_) => 0
    case Ptr(Head(_)) => 1
    case Data(e) => if Linked(t, chains, e) then 2 + 2 * IndexOf(chains[BucketOf(t, e)], e) else 0
    case Ptr(Elt(e)) => if Linked(t, chains, e) then 3 + 2 * IndexOf(chains[BucketOf(t, e)], e) else 0
    case Count => 2 * m + 4
  }

  lemma RankBound(t: Table, chains: seq<seq<nat>>, m: nat, l: Lock)
    requires LongerThan(chains, m)
    ensures Rank(t, chains, m, l) <= 2 * m + 4
    ensures l != Count ==> Rank(t, chains, m, l) < 2 * m + 4
  {
  }

  /** The element after a node is ranked above the node's own mutexes. */
  lemma FollowerRank(t: Table, chains: seq<seq<nat>>, m: nat, b: nat, at: Node, n: nat)
    requires ChainsOk(t, chains) && Follows(chains, b, at, n)
    ensures Rank(t, chains, m, Ptr(at)) < Rank(t, chains, m, Data(n)) < Rank(t, chains, m, Ptr(Elt(n)))
    ensures Rank(t, chains, m, Data(n)) >= 2
  {
    CutIndex(t, chains, b, at, n);
    CutIsLinked(t, chains, b, at, n);
    if at.Elt? {
      FollowersLinked(t, chains);
      assert Linked(t, chains, at.e);
      assert InChain(chains[b], b, at);
      assert BucketOf(t, chains[b][IndexOf(chains[b], at.e)]) == b;
    }
    assert BucketOf(t, n) == b;
  }

  lemma FirstRank(t: Table, chains: seq<seq<nat>>, m: nat, e: nat)
    requires IsFirst(t, chains, e)
    ensures Rank(t, chains, m, Data(e)) == 2
  {
  }

  /** A thread awaits only mutexes that come after all those it holds. */
  lemma Ordered(t: Table, s: State, m: nat, i: nat, l: Lock, k: Lock)
    requires Inv(t, s) && LongerThan(s.chains, m) && i < |s.threads|
    requires Awaits(t, s.threads[i]) == Some(l) && k in Holds(t, s.threads[i])
    ensures Rank(t, s.chains, m, k) < Rank(t, s.chains, m, l)
  {
    hide At, ChainsOk, Follows, Linked, IsFirst, Absent, Exclusive, PrivateOk, Matches;
    var pc := s.threads[i];
    assert PcOk(t, s.chains, pc);
    RankBound(t, s.chains, m, k);
    match pc {
      case AwaitPtr(goal, b, at, n) => FollowerRank(t, s.chains, m, b, at, n);
      case AwaitData(goal, b, at, n) => FollowerRank(t, s.chains, m, b, at, n);
      case DelAwaitPtr(goal, b, at, n) => FollowerRank(t, s.chains, m, b, at, n);
      case AddAwaitData(e) => FirstRank(t, s.chains, m, e);
      case _ =>
    }
  }

  /** Thread i awaits a mutex that thread j holds. */
  ghost predicate WaitsFor(t: Table, s: State, i: nat, j: nat) {
    && i < |s.threads| && j < |s.threads|
    && Awaits(t, s.threads[i]).Some? && Awaits(t, s.threads[i]).value in Holds(t, s.threads[j])
  }

  ghost predicate WaitPath(t: Table, s: State, path: seq<nat>) {
    forall k :: 0 <= k < |path| - 1 ==> WaitsFor(t, s, path[k], path[k + 1])
  }

  lemma {:induction false} PathRises(t: Table, s: State, m: nat, path: seq<nat>)
    requires Inv(t, s) && LongerThan(s.chains, m) && |path| >= 2 && WaitPath(t, s, path)
    requires path[|path| - 1] < |s.threads| && Awaits(t, s.threads[path[|path| - 1]]).Some?
    ensures path[0] < |s.threads| && Awaits(t, s.threads[path[0]]).Some?
    ensures Rank(t, s.chains, m, Awaits(t, s.threads[path[0]]).value)
            < Rank(t, s.chains, m, Awaits(t, s.threads[path[|path| - 1]]).value)
  {
    hide Inv, Awaits, Holds, Rank;
    assert WaitsFor(t, s, path[0], path[0 + 1]);
    if |path| > 2 {
      assert forall k :: 0 <= k < |path[1..]| ==> path[1..][k] == path[k + 1];
      assert WaitPath(t, s, path[1..]) by {
        forall k | 0 <= k < |path[1..]| - 1
          ensures WaitsFor(t, s, path[1..][k], path[1..][k + 1])
        {
          assert WaitsFor(t, s, path[k + 1], path[k + 1 + 1]);
        }
      }
      PathRises(t, s, m, path[1..]);
    }
    Ordered(t, s, m, path[1], Awaits(t, s.threads[path[1]]).value, Awaits(t, s.threads[path[0]]).value);
  }

  /** The waits-for graph has no cycle, in any reachable state. */
  lemma WaitsForIsAcyclic(t: Table, run: seq<State>, r: nat, path: seq<nat>)
    requires IsRun(t, run) && r < |run| && |path| >= 2 && WaitPath(t, run[r], path)
    ensures path[0] != path[|path| - 1]
  {
    hide Inv, Awaits, Holds, Rank;
    RunInv(t, run, r);
    var m := Longest(run[r].chains);
    if path[0] == path[|path| - 1] {
      assert WaitsFor(t, run[r], path[0], path[0 + 1]);
      PathRises(t, run[r], m, path);
    }
  }

  /** A thread that can go on at once; one that has an element can at least give it back. */
  ghost predicate Runnable(t: Table, s: State, i: nat) {
    && i < |s.threads| && s.threads[i] != Idle
    && (Awaits(t, s.threads[i]).Some? ==> Free(t, s, Awaits(t, s.threads[i]).value))
  }

  lemma {:induction false} FollowWaits(t: Table, s: State, m: nat, i: nat)
    requires Inv(t, s) && LongerThan(s.chains, m) && i < |s.threads| && s.threads[i] != Idle
    ensures exists j :: Runnable(t, s, j)
    decreases
      if Awaits(t, s.threads[i]).Some? then 2 * m + 5 - Rank(t, s.chains, m, Awaits(t, s.threads[i]).value) else 0
  {
    hide Inv, Rank;
    if Awaits(t, s.threads[i]).None? || Free(t, s, Awaits(t, s.threads[i]).value) {
      assert Runnable(t, s, i);
    } else {
      var l := Awaits(t, s.threads[i]).value;
      var j :| 0 <= j < |s.threads| && l in Holds(t, s.threads[j]);
      RankBound(t, s.chains, m, l);
      if Awaits(t, s.threads[j]).Some? {
        RankBound(t, s.chains, m, Awaits(t, s.threads[j]).value);
        Ordered(t, s, m, j, Awaits(t, s.threads[j]).value, l);
      }
      FollowWaits(t, s, m, j);
    }
  }

  lemma RunnableSteps(t: Table, s: State, i: nat)
    requires Inv(t, s) && Runnable(t, s, i)
    ensures |s.chains| == t.buckets
    ensures Next(t, s, i, if s.threads[i].Using? then Unlock else Go).Some?
  {
    hide Holds, Private, Exclusive, PrivateOk, Absent, Free;
    assert PcOk(t, s.chains, s.threads[i]);
    if s.threads[i].DelLocked? {
      var pc := s.threads[i];
      CutIndex(t, s.chains, pc.b, pc.at, pc.n);
    }
  }

  /** No deadlock: whenever some thread is in the middle of something, some thread can make a step, even if no thread
      asks for anything new and every thread that has an element merely gives it back. */
  lemma NoDeadlock(t: Table, run: seq<State>, r: nat, i: nat)
    requires IsRun(t, run) && r < |run| && i < |run[r].threads| && run[r].threads[i] != Idle
    ensures |run[r].chains| == t.buckets
    ensures exists j :: 0 <= j < |run[r].threads| && run[r].threads[j] != Idle
                        && Next(t, run[r], j, if run[r].threads[j].Using? then Unlock else Go).Some?
  {
    hide Inv, Next;
    RunInv(t, run, r);
    var m := Longest(run[r].chains);
    FollowWaits(t, run[r], m, i);
    var j :| Runnable(t, run[r], j);
    RunnableSteps(t, run[r], j);
  }

  // ----- the counter -----

  /** How far the counter is ahead of the chains on account of one thread. */
  function Ahead(pc: Pc): int {
    match pc
    case AddAwaitUniq(_) => 1
    case Enter(Check(_), _) => 1
    case Walk(Check(_), _, _) => 1
    case AwaitPtr(Check(_), _, _, _) => 1
    case HandOver(Check(_), _, _, _) => 1
    case AwaitData(Check(_), _, _, _) => 1
    case Found(Check(_), _, _, _) => 1
    case AddAwaitBucket(_) => 1
    case AddLocked(_) => 1
    case DupData(_, _) => 1
    case DupUniq(_) => 1
    case DupAwaitCount(_) => 1
    case DupCounting(_) => 1
    case DelAwaitPtr(_, _, _, _) => -1
    case DelLocked(_, _, _, _) => -1
    case _ => 0
  }

  function Total(s: seq<int>): int {
    if s == [] then 0 else s[0] + Total(s[1..])
  }

  function Lengths(chains: seq<seq<nat>>): seq<int> {
    seq(|chains|, b requires 0 <= b < |chains| => |chains[b]|)
  }

  function Leads(threads: seq<Pc>): seq<int> {
    seq(|threads|, i requires 0 <= i < |threads| => Ahead(threads[i]))
  }

  ghost predicate Counted(s: State) {
    s.count == Total(Lengths(s.chains)) + Total(Leads(s.threads))
  }

  lemma {:induction false} TotalUpdate(s: seq<int>, i: nat, x: int)
    requires i < |s|
    ensures Total(s[i := x]) == Total(s) - s[i] + x
  {
    if i > 0 {
      TotalUpdate(s[1..], i - 1, x);
      assert s[i := x][1..] == s[1..][i - 1 := x];
    } else {
      assert s[0 := x][1..] == s[1..];
    }
  }

  /** Thread i and chain b change; the counter follows. */
  lemma CountAfter(s: State, s': State, i: nat, b: nat)
    requires i < |s.threads| == |s'.threads| && s'.threads == s.threads[i := s'.threads[i]]
    requires |s'.chains| == |s.chains|
    requires (s'.chains == s.chains || (b < |s.chains| && s'.chains == s.chains[b := s'.chains[b]]))
    ensures Counted(s) && s'.count - s.count
                          == (if s'.chains == s.chains then 0 else |s'.chains[b]| - |s.chains[b]|)
                             + Ahead(s'.threads[i]) - Ahead(s.threads[i])
            ==> Counted(s')
  {
    TotalUpdate(Leads(s.threads), i, Ahead(s'.threads[i]));
    assert Leads(s'.threads) == Leads(s.threads)[i := Ahead(s'.threads[i])];
    if s'.chains != s.chains {
      TotalUpdate(Lengths(s.chains), b, |s'.chains[b]|);
      assert Lengths(s'.chains) == Lengths(s.chains)[b := |s'.chains[b]|];
    }
  }

  lemma PlainCount(t: Table, s: State, i: nat, cmd: Cmd)
    requires Plain(t, s, i, cmd)
    ensures var s' := Next(t, s, i, cmd).value;
            i < |s'.threads| && s'.count - s.count == Ahead(s'.threads[i]) - Ahead(s.threads[i])
  {
    hide Inv, Free, Private;
  }

  lemma CountKept(t: Table, s: State, i: nat, cmd: Cmd)
    requires Inv(t, s) && Counted(s) && i < |s.threads| && Next(t, s, i, cmd).Some?
    ensures Counted(Next(t, s, i, cmd).value)
  {
    var s' := Next(t, s, i, cmd).value;
    if s.threads[i].AddLocked? {
      CountAfter(s, s', i, BucketOf(t, s.threads[i].e));
    } else if s.threads[i].DelLocked? {
      var b, n := s.threads[i].b, s.threads[i].n;
      assert |Unlinked(s.chains[b], n)| == |s.chains[b]| - 1;
      CountAfter(s, s', i, b);
    } else {
      hide Counted, Inv, Next, Ahead;
      PlainShape(t, s, i, cmd);
      PlainCount(t, s, i, cmd);
      CountAfter(s, s', i, 0);
    }
  }

  lemma {:induction false} TotalZero(s: seq<int>)
    requires forall i :: 0 <= i < |s| ==> s[i] == 0
    ensures Total(s) == 0
  {
    if s != [] {
      TotalZero(s[1..]);
    }
  }

  lemma {:induction false} RunCounted(t: Table, run: seq<State>, k: nat)
    requires IsRun(t, run) && k < |run|
    ensures Counted(run[k])
  {
    if k == 0 {
      TotalZero(Lengths(run[0].chains));
      TotalZero(Leads(run[0].threads));
    } else {
      hide Inv, Next, Counted;
      RunCounted(t, run, k - 1);
      RunInv(t, run, k - 1);
      assert Steps(t, run[k - 1], run[k - 1 + 1]);
      var i, cmd :| 0 <= i < |run[k - 1].threads| && Next(t, run[k - 1], i, cmd) == Some(run[k]);
      CountKept(t, run[k - 1], i, cmd);
    }
  }

  /** When no thread is adding or deleting, the counter is the number of elements. */
  lemma QuietCount(t: Table, run: seq<State>, k: nat)
    requires IsRun(t, run) && k < |run|
    requires forall i :: 0 <= i < |run[k].threads| ==> run[k].threads[i].Idle? || run[k].threads[i].Using?
    ensures run[k].count == Total(Lengths(run[k].chains))
  {
    RunCounted(t, run, k);
    TotalZero(Leads(run[k].threads));
  }

  predicate Discounts(pc: Pc) {
    pc.DelAwaitPtr? || pc.DelLocked?
  }

  /** The elements that the first k threads discounted but did not yet unlink. */
  ghost function Discounted(threads: seq<Pc>, k: nat): set<nat> {
    set i | 0 <= i < k && i < |threads| && Discounts(threads[i]) :: threads[i].n
  }

  ghost function Elements(chains: seq<seq<nat>>): set<nat> {
    set b, i | 0 <= b < |chains| && 0 <= i < |chains[b]| :: chains[b][i]
  }

  lemma {:induction false} TotalSnoc(s: seq<int>, x: int)
    ensures Total(s + [x]) == Total(s) + x
  {
    if s != [] {
      TotalSnoc(s[1..], x);
      assert (s + [x])[1..] == s[1..] + [x];
    }
  }

  lemma AheadBound(pc: Pc)
    ensures Ahead(pc) >= if Discounts(pc) then -1 else 0
  {
  }

  lemma DeletersDiffer(t: Table, s: State, i: nat, j: nat)
    requires Exclusive(t, s) && i < |s.threads| && j < |s.threads| && i != j
    requires Discounts(s.threads[i]) && Discounts(s.threads[j])
    ensures s.threads[i].n != s.threads[j].n
  {
    assert Holds(t, s.threads[i]) !! Holds(t, s.threads[j]);
    assert Data(s.threads[i].n) in Holds(t, s.threads[i]) && Data(s.threads[j].n) in Holds(t, s.threads[j]);
  }

  lemma NextDiscounted(t: Table, s: State, k: nat)
    requires Exclusive(t, s) && k < |s.threads| && Discounts(s.threads[k])
    ensures s.threads[k].n !in Discounted(s.threads, k)
    ensures Discounted(s.threads, k + 1) == Discounted(s.threads, k) + {s.threads[k].n}
  {
    hide Exclusive;
    forall i | 0 <= i < k && Discounts(s.threads[i])
      ensures s.threads[i].n != s.threads[k].n
    {
      DeletersDiffer(t, s, i, k);
    }
  }

  lemma NoLeads(threads: seq<Pc>)
    ensures Total(Leads(threads[..0])) == 0
  {
    assert Leads(threads[..0]) == [];
  }

  lemma LeadsSnoc(threads: seq<Pc>, k: nat)
    requires k < |threads|
    ensures Total(Leads(threads[..k + 1])) == Total(Leads(threads[..k])) + Ahead(threads[k])
  {
    hide Ahead;
    assert Leads(threads[..k + 1]) == Leads(threads[..k]) + [Ahead(threads[k])];
    TotalSnoc(Leads(threads[..k]), Ahead(threads[k]));
  }

  /** Every discounted element has its own deleter, so the counter is behind by no more than their number. */
  lemma {:induction false} LeadsBound(t: Table, s: State, k: nat)
    requires Exclusive(t, s) && k <= |s.threads|
    ensures Total(Leads(s.threads[..k])) >= -|Discounted(s.threads, k)|
  {
    hide Exclusive, Holds, Ahead, Leads, Total, Discounts;
    if k == 0 {
      NoLeads(s.threads);
    } else {
      LeadsBound(t, s, k - 1);
      var pc := s.threads[k - 1];
      LeadsSnoc(s.threads, k - 1);
      AheadBound(pc);
      if Discounts(pc) {
        NextDiscounted(t, s, k - 1);
      } else {
        assert Discounted(s.threads, k) == Discounted(s.threads, k - 1);
      }
    }
  }

  lemma {:induction false} ElementsBound(chains: seq<seq<nat>>)
    ensures |Elements(chains)| <= Total(Lengths(chains))
  {
    if chains == [] {
      assert Elements(chains) == {};
    } else {
      ElementsBound(chains[1..]);
      assert Lengths(chains)[1..] == Lengths(chains[1..]);
      MembersBound(chains[0]);
      forall n | n in Elements(chains)
        ensures n in Members(chains[0]) + Elements(chains[1..])
      {
        var b, i :| 0 <= b < |chains| && 0 <= i < |chains[b]| && chains[b][i] == n;
        if b > 0 {
          assert chains[1..][b - 1][i] == n;
        }
      }
      SubsetSize(Elements(chains), Members(chains[0]) + Elements(chains[1..]));
    }
  }

  lemma {:induction false} MembersBound(s: seq<nat>)
    ensures |Members(s)| <= |s|
  {
    if s != [] {
      var last := |s| - 1;
      MembersBound(s[..last]);
      assert s == s[..last] + [s[last]];
      assert Members(s) == Members(s[..last]) + {s[last]};
    }
  }

  /** The assertion that the counter is not negative never fails. */
  lemma CountNotNegative(t: Table, run: seq<State>, k: nat)
    requires IsRun(t, run) && k < |run|
    ensures run[k].count >= 0
  {
    RunInv(t, run, k);
    RunCounted(t, run, k);
    var s := run[k];
    LeadsBound(t, s, |s.threads|);
    assert s.threads[..|s.threads|] == s.threads;
    ElementsBound(s.chains);
    FollowersLinked(t, s.chains);
    forall n | n in Discounted(s.threads, |s.threads|)
      ensures n in Elements(s.chains)
    {
      var i :| 0 <= i < |s.threads| && Discounts(s.threads[i]) && s.threads[i].n == n;
      assert PcOk(t, s.chains, s.threads[i]);
    }
    SubsetSize(Discounted(s.threads, |s.threads|), Elements(s.chains));
  }
}
