/** Threads that keep an element while they search for another (src/hashtbl.c).

    A thread has two hands, each of which goes through the protocol of module Hashtbl: one may rest on an element while
    the other searches.  The question is in which buckets a thread with an element may search. */
module HeldSearch {
  import opened Prelude
  import opened Hashtbl

  /** Whether a thread with an element of the first bucket may start a search in the second. */
  type Rule = (nat, nat) -> bool

  ghost predicate OnlyUpward(rule: Rule) {
    forall x: nat, y: nat :: rule(x, y) ==> x < y
  }

  ghost predicate AllUpward(rule: Rule) {
    forall x: nat, y: nat :: x < y ==> rule(x, y)
  }

  /** The other hand of the same thread. */
  function Other(h: nat): nat {
    if h % 2 == 0 then h + 1 else h - 1
  }

  /** The hand does nothing, except perhaps to hold an element. */
  predicate Resting(pc: Pc) {
    pc.Idle? || pc.Using?
  }

  /** The bucket that a hand is busy in, or will be. */
  function Region(t: Table, pc: Pc): nat {
    match pc
    case Idle => 0
    case Using(e) => BucketOf(t, e)
    case Enter(_, b) => b
    case Walk(_, b, _) => b
    case AwaitPtr(_, b, _, _) => b
    case HandOver(_, b, _, _) => b
    case AwaitData(_, b, _, _) => b
    case Found(_, b, _, _) => b
    case DelAwaitCount(_, b, _, _) => b
    case DelCounting(_, b, _, _) => b
    case DelAwaitPtr(_, b, _, _) => b
    case DelLocked(_, b, _, _) => b
    case DelUnlinked(_, b, _, _) => b
    case DelPtrFree(_, b, _, _) => b
    case DelDestroy(_, b, _, _) => b
    case AddAwaitCount(e) => BucketOf(t, e)
    case AddCounting(e) => BucketOf(t, e)
    case AddAwaitUniq(e) => BucketOf(t, e)
    case AddAwaitBucket(e) => BucketOf(t, e)
    case AddLocked(e) => BucketOf(t, e)
    case AddAwaitData(e) => BucketOf(t, e)
    case AddData(e) => BucketOf(t, e)
    case AddUniqLast(e) => BucketOf(t, e)
    case DupData(e, _) => BucketOf(t, e)
    case DupUniq(e) => BucketOf(t, e)
    case DupAwaitCount(e) => BucketOf(t, e)
    case DupCounting(e) => BucketOf(t, e)
    case NextAwaitPtr(e) => BucketOf(t, e)
    case NextBoth(e) => BucketOf(t, e)
  }

  /** A step of one hand of a thread: the other rests, and if it holds an element the rule must let a search start. */
  ghost predicate HandSteps(t: Table, rule: Rule, s: State, h: nat, cmd: Cmd, s': State) {
    && |s.chains| == t.buckets && h < |s.threads| && Other(h) < |s.threads|
    && Next(t, s, h, cmd) == Some(s') && h < |s'.threads|
    && Resting(s.threads[Other(h)])
    && (s.threads[Other(h)].Using? && Resting(s.threads[h]) && !s'.threads[h].Idle? ==>
          rule(BucketOf(t, s.threads[Other(h)].e), Region(t, s'.threads[h])))
  }

  ghost predicate ThreadSteps(t: Table, rule: Rule, s: State, s': State) {
    exists h, cmd :: HandSteps(t, rule, s, h, cmd, s')
  }

  ghost predicate IsHeldRun(t: Table, rule: Rule, run: seq<State>) {
    && run != [] && Start(t, run[0]) && |run[0].threads| % 2 == 0
    && forall k :: 0 <= k < |run| - 1 ==> ThreadSteps(t, rule, run[k], run[k + 1])
  }

  ghost predicate Reachable(t: Table, rule: Rule, s: State) {
    exists run :: IsHeldRun(t, rule, run) && run[|run| - 1] == s
  }

  // ----- what every run keeps -----

  /** While one hand is busy the other rests, on nothing or on an element of a lower bucket. */
  ghost predicate HandsOk(t: Table, s: State) {
    && |s.threads| % 2 == 0
    && forall h :: 0 <= h < |s.threads| && !Resting(s.threads[h]) ==> HandOk(t, s, h)
  }

  ghost predicate HandOk(t: Table, s: State, h: nat)
    requires h < |s.threads|
  {
    && Other(h) < |s.threads| && Resting(s.threads[Other(h)])
    && (s.threads[Other(h)].Using? ==> BucketOf(t, s.threads[Other(h)].e) < Region(t, s.threads[h]))
  }

  lemma RegionRisesSearch(t: Table, s: State, h: nat, cmd: Cmd)
    requires Inv(t, s) && h < |s.threads| && Searching(s.threads[h]) && Next(t, s, h, cmd).Some?
    ensures var s' := Next(t, s, h, cmd).value;
      h < |s'.threads| && (s'.threads[h].Idle? || Region(t, s'.threads[h]) >= Region(t, s.threads[h]))
  {
    hide Exclusive, PrivateOk, Absent, Free, Holds, Private, NoDup;
    assert PcOk(t, s.chains, s.threads[h]);
    FollowersLinked(t, s.chains);
  }

  lemma RegionRisesElse(t: Table, s: State, h: nat, cmd: Cmd)
    requires Inv(t, s) && h < |s.threads| && !Resting(s.threads[h]) && !Searching(s.threads[h])
    requires Next(t, s, h, cmd).Some?
    ensures var s' := Next(t, s, h, cmd).value;
      h < |s'.threads| && (s'.threads[h].Idle? || Region(t, s'.threads[h]) >= Region(t, s.threads[h]))
  {
    hide Exclusive, PrivateOk, Absent, Free, Holds, Private;
    assert PcOk(t, s.chains, s.threads[h]);
    FollowersLinked(t, s.chains);
  }

  /** A busy hand never goes back to a lower bucket. */
  lemma RegionRises(t: Table, s: State, h: nat, cmd: Cmd)
    requires Inv(t, s) && h < |s.threads| && !Resting(s.threads[h]) && Next(t, s, h, cmd).Some?
    ensures var s' := Next(t, s, h, cmd).value;
      h < |s'.threads| && (s'.threads[h].Idle? || Region(t, s'.threads[h]) >= Region(t, s.threads[h]))
  {
    hide Next, Region;
    if Searching(s.threads[h]) {
      RegionRisesSearch(t, s, h, cmd);
    } else {
      RegionRisesElse(t, s, h, cmd);
    }
  }

  lemma HandStepsKeep(t: Table, rule: Rule, s: State, h: nat, cmd: Cmd, s': State)
    requires OnlyUpward(rule) && Inv(t, s) && HandsOk(t, s) && HandSteps(t, rule, s, h, cmd, s')
    ensures HandsOk(t, s')
  {
    hide Inv, Next;
    StepFrame(t, s, h, cmd);
    if !Resting(s.threads[h]) {
      RegionRises(t, s, h, cmd);
    }
    forall k | 0 <= k < |s'.threads| && !Resting(s'.threads[k])
      ensures HandOk(t, s', k)
    {
      if k != h {
        assert HandOk(t, s, k);
      }
    }
  }

  lemma {:induction false} HeldRunKeeps(t: Table, rule: Rule, run: seq<State>, k: nat)
    requires IsHeldRun(t, rule, run) && k < |run|
    ensures Inv(t, run[k])
    ensures OnlyUpward(rule) ==> HandsOk(t, run[k])
  {
    hide Inv, Next, Region;
    if k == 0 {
      StartInv(t, run[0]);
    } else {
      HeldRunKeeps(t, rule, run, k - 1);
      assert ThreadSteps(t, rule, run[k - 1], run[k - 1 + 1]);
      var h, cmd :| HandSteps(t, rule, run[k - 1], h, cmd, run[k]);
      StepKeeps(t, run[k - 1], h, cmd);
      if OnlyUpward(rule) {
        HandStepsKeep(t, rule, run[k - 1], h, cmd, run[k]);
      }
    }
  }

  /** Such a run is a run of the protocol, so its keys are unique and its elements are destroyed unused. */
  lemma HeldRunIsRun(t: Table, rule: Rule, run: seq<State>)
    requires IsHeldRun(t, rule, run)
    ensures IsRun(t, run)
  {
    hide Next, Region;
    forall k | 0 <= k < |run| - 1
      ensures Steps(t, run[k], run[k + 1])
    {
      assert ThreadSteps(t, rule, run[k], run[k + 1]);
    }
  }

  // ----- the order of mutexes: bucket by bucket, the counter last -----

  function Level(t: Table, l: Lock): nat {
    match l
    case Count => t.buckets
    case Uniq(b) => b
    case Ptr(Head(b)) => b
    case Ptr(Elt(e)) => BucketOf(t, e)
    case Data(e) => BucketOf(t, e)
  }

  ghost predicate Precedes(t: Table, chains: seq<seq<nat>>, m: nat, k: Lock, l: Lock) {
    Level(t, k) < Level(t, l) || (Level(t, k) == Level(t, l) && Rank(t, chains, m, k) < Rank(t, chains, m, l))
  }

  /** What a waiting hand holds or awaits is in its region, except for the counter. */
  lemma InRegion(t: Table, s: State, h: nat, l: Lock)
    requires Inv(t, s) && h < |s.threads| && l != Count && Awaits(t, s.threads[h]).Some?
    requires l in Holds(t, s.threads[h]) || Awaits(t, s.threads[h]) == Some(l)
    ensures Level(t, l) == Region(t, s.threads[h]) < t.buckets
  {
    hide Exclusive, PrivateOk, Absent, Private, Holds, Awaits, Region, Level, PcOk;
    assert PcOk(t, s.chains, s.threads[h]);
    LevelInRegion(t, s.chains, s.threads[h], l);
    RegionInRange(t, s.chains, s.threads[h]);
  }

  lemma LevelInRegion(t: Table, chains: seq<seq<nat>>, pc: Pc, l: Lock)
    requires PcOk(t, chains, pc) && ChainsOk(t, chains) && l != Count && Awaits(t, pc).Some?
    requires l in Holds(t, pc) || Awaits(t, pc) == Some(l)
    ensures Level(t, l) == Region(t, pc)
  {
    hide Absent;
    FollowersLinked(t, chains);
  }

  lemma RegionInRange(t: Table, chains: seq<seq<nat>>, pc: Pc)
    requires PcOk(t, chains, pc) && Fine(t) && |chains| == t.buckets && Awaits(t, pc).Some?
    ensures Region(t, pc) < t.buckets
  {
    hide Absent, At;
    match pc {
      case AddAwaitCount(e) => BucketInRange(t, t.key(e));
      case AddAwaitUniq(e) => BucketInRange(t, t.key(e));
      case DupAwaitCount(e) => BucketInRange(t, t.key(e));
      case NextAwaitPtr(e) => BucketInRange(t, t.key(e));
      case _ =>
    }
  }

  // ----- threads -----

  /** Hand h awaits a mutex that thread j holds in one of its hands. */
  ghost predicate HandWaits(t: Table, s: State, h: nat, j: nat) {
    && h < |s.threads| && 2 * j + 1 < |s.threads| && Awaits(t, s.threads[h]).Some?
    && (Awaits(t, s.threads[h]).value in Holds(t, s.threads[2 * j])
        || Awaits(t, s.threads[h]).value in Holds(t, s.threads[2 * j + 1]))
  }

  ghost predicate ThreadWaits(t: Table, s: State, i: nat, j: nat) {
    HandWaits(t, s, 2 * i, j) || HandWaits(t, s, 2 * i + 1, j)
  }

  ghost predicate ThreadPath(t: Table, s: State, path: seq<nat>) {
    |path| >= 2 && forall k :: 0 <= k < |path| - 1 ==> ThreadWaits(t, s, path[k], path[k + 1])
  }

  ghost predicate Acyclic(t: Table, s: State) {
    forall path :: ThreadPath(t, s, path) ==> path[0] != path[|path| - 1]
  }

  /** A waiting hand awaits a mutex that comes after all those its thread holds, in either hand. */
  lemma ThreadOrdered(t: Table, s: State, m: nat, h: nat, l: Lock, k: Lock)
    requires Inv(t, s) && HandsOk(t, s) && LongerThan(s.chains, m) && h < |s.threads|
    requires Awaits(t, s.threads[h]) == Some(l)
    ensures Other(h) < |s.threads|
    ensures k in Holds(t, s.threads[h]) || k in Holds(t, s.threads[Other(h)]) ==> Precedes(t, s.chains, m, k, l)
  {
    hide Inv, Rank, Next;
    assert HandOk(t, s, h);
    NotCounting(t, s.threads[h]);
    if l != Count {
      InRegion(t, s, h, l);
    }
    if k in Holds(t, s.threads[h]) {
      Ordered(t, s, m, h, l, k);
      InRegion(t, s, h, k);
    } else if k in Holds(t, s.threads[Other(h)]) {
      assert k == Data(s.threads[Other(h)].e);
      ElementLevel(t, s, k);
    }
  }

  lemma NotCounting(t: Table, pc: Pc)
    requires Awaits(t, pc).Some?
    ensures Count !in Holds(t, pc)
  {
  }

  lemma ElementLevel(t: Table, s: State, k: Lock)
    requires Inv(t, s) && k.Data?
    ensures Level(t, k) < t.buckets
  {
    BucketInRange(t, t.key(k.e));
  }

  /** Hand h0 of thread i waits for thread j, and for a mutex before the one that hand h awaits. */
  ghost predicate WaitsBefore(t: Table, s: State, m: nat, h0: nat, i: nat, j: nat, h: nat)
    requires h < |s.threads| && Awaits(t, s.threads[h]).Some?
  {
    && HandWaits(t, s, h0, j) && h0 / 2 == i
    && Precedes(t, s.chains, m, Awaits(t, s.threads[h0]).value, Awaits(t, s.threads[h]).value)
  }

  /** The awaited mutexes along a path of waiting threads come in order. */
  lemma {:induction false} ThreadPathRises(t: Table, s: State, m: nat, path: seq<nat>, h: nat)
    requires Inv(t, s) && HandsOk(t, s) && LongerThan(s.chains, m) && ThreadPath(t, s, path)
    requires h / 2 == path[|path| - 1] && h < |s.threads| && Awaits(t, s.threads[h]).Some?
    ensures exists h0: nat :: WaitsBefore(t, s, m, h0, path[0], path[1], h)
    decreases |path|
  {
    hide Inv, Awaits, Holds, Rank, Level, Next;
    assert ThreadWaits(t, s, path[0], path[0 + 1]);
    var h0 := if HandWaits(t, s, 2 * path[0], path[1]) then 2 * path[0] else 2 * path[0] + 1;
    var l := Awaits(t, s.threads[h0]).value;
    if |path| == 2 {
      HeldInHand(t, s, h0, path[1], h);
      ThreadOrdered(t, s, m, h, Awaits(t, s.threads[h]).value, l);
    } else {
      TailPath(t, s, path);
      ThreadPathRises(t, s, m, path[1..], h);
      var h1: nat :| WaitsBefore(t, s, m, h1, path[1..][0], path[1..][1], h);
      HeldInHand(t, s, h0, path[1], h1);
      ThreadOrdered(t, s, m, h1, Awaits(t, s.threads[h1]).value, l);
    }
    assert WaitsBefore(t, s, m, h0, path[0], path[1], h);
  }

  /** What a thread holds is in one hand or the other. */
  lemma HeldInHand(t: Table, s: State, h0: nat, j: nat, h: nat)
    requires HandWaits(t, s, h0, j) && h / 2 == j && h < |s.threads|
    ensures Other(h) < |s.threads|
    ensures var l := Awaits(t, s.threads[h0]).value;
      l in Holds(t, s.threads[h]) || l in Holds(t, s.threads[Other(h)])
  {
    hide Awaits, Holds;
  }

  lemma TailPath(t: Table, s: State, path: seq<nat>)
    requires ThreadPath(t, s, path) && |path| > 2
    ensures ThreadPath(t, s, path[1..])
  {
    hide ThreadWaits;
    assert forall k :: 0 <= k < |path[1..]| ==> path[1..][k] == path[k + 1];
    forall k | 0 <= k < |path[1..]| - 1
      ensures ThreadWaits(t, s, path[1..][k], path[1..][k + 1])
    {
      assert ThreadWaits(t, s, path[k + 1], path[k + 1 + 1]);
    }
  }

  /** If searches with an element in hand only go upward, the waits-for graph of the threads has no cycle. */
  lemma UpwardIsAcyclic(t: Table, rule: Rule, s: State)
    requires OnlyUpward(rule) && Reachable(t, rule, s)
    ensures Acyclic(t, s)
  {
    hide Inv, Awaits, Holds, Rank, Level, Next, HandsOk, LongerThan;
    var run :| IsHeldRun(t, rule, run) && run[|run| - 1] == s;
    HeldRunKeeps(t, rule, run, |run| - 1);
    var m := Longest(s.chains);
    forall path | ThreadPath(t, s, path)
      ensures path[0] != path[|path| - 1]
    {
      if path[0] == path[|path| - 1] {
        NoWaitCycle(t, s, m, path);
      }
    }
  }

  lemma NoWaitCycle(t: Table, s: State, m: nat, path: seq<nat>)
    requires Inv(t, s) && HandsOk(t, s) && LongerThan(s.chains, m) && ThreadPath(t, s, path)
    ensures path[0] != path[|path| - 1]
  {
    hide Inv, Awaits, Holds, Rank, Level, Next;
    assert ThreadWaits(t, s, path[0], path[0 + 1]);
    var h := if HandWaits(t, s, 2 * path[0], path[1]) then 2 * path[0] else 2 * path[0] + 1;
    if path[0] == path[|path| - 1] {
      ThreadPathRises(t, s, m, path, h);
      var h0: nat :| WaitsBefore(t, s, m, h0, path[0], path[1], h);
      OneHandWaits(t, s, h, h0);
    }
  }

  /** Only one hand of a thread can wait. */
  lemma OneHandWaits(t: Table, s: State, h: nat, h0: nat)
    requires HandsOk(t, s) && h < |s.threads| && h0 < |s.threads| && h / 2 == h0 / 2
    requires Awaits(t, s.threads[h]).Some? && Awaits(t, s.threads[h0]).Some?
    ensures h == h0
  {
    assert HandOk(t, s, h);
    assert h0 == h || h0 == Other(h);
  }

  // ----- no deadlock -----

  function GoOn(pc: Pc): Cmd {
    if pc.Using? then Unlock else Go
  }

  /** A hand can step under the rule without a command: go on, or give back what it holds. */
  ghost predicate CanStep(t: Table, rule: Rule, s: State, h: nat) {
    && h < |s.threads| && s.threads[h] != Idle
    && exists s', cmd :: cmd == GoOn(s.threads[h]) && HandSteps(t, rule, s, h, cmd, s')
  }

  lemma RunnableCanStep(t: Table, rule: Rule, s: State, h: nat)
    requires Inv(t, s) && HandsOk(t, s) && Runnable(t, s, h) && (Resting(s.threads[h]) ==> Other(h) < |s.threads|)
    requires Resting(s.threads[h]) ==> Resting(s.threads[Other(h)])
    ensures CanStep(t, rule, s, h)
  {
    hide Inv, Free, Holds, Private, Region;
    RunnableSteps(t, s, h);
    var cmd := GoOn(s.threads[h]);
    StepFrame(t, s, h, cmd);
    if !Resting(s.threads[h]) {
      assert HandOk(t, s, h);
    }
    assert HandSteps(t, rule, s, h, cmd, Next(t, s, h, cmd).value);
  }

  /** Following the waits of a busy hand leads to a hand that can step. */
  lemma {:induction false} FollowHands(t: Table, rule: Rule, s: State, m: nat, h: nat)
    requires Inv(t, s) && HandsOk(t, s) && LongerThan(s.chains, m) && h < |s.threads| && !Resting(s.threads[h])
    ensures exists k :: CanStep(t, rule, s, k)
    decreases if Awaits(t, s.threads[h]).Some? then t.buckets + 1 - Level(t, Awaits(t, s.threads[h]).value) else 0,
      if Awaits(t, s.threads[h]).Some? then 2 * m + 5 - Rank(t, s.chains, m, Awaits(t, s.threads[h]).value) else 0
  {
    hide Inv, Rank, Level, Region, CanStep, Next;
    if Awaits(t, s.threads[h]).None? || Free(t, s, Awaits(t, s.threads[h]).value) {
      RunnableCanStep(t, rule, s, h);
    } else {
      var l := Awaits(t, s.threads[h]).value;
      var k :| 0 <= k < |s.threads| && l in Holds(t, s.threads[k]);
      Bounds(t, s, m, h, l);
      if !Resting(s.threads[k]) {
        NextHand(t, s, m, k, l);
        FollowHands(t, rule, s, m, k);
      } else if !Resting(s.threads[Other(k)]) {
        NextHand(t, s, m, Other(k), l);
        FollowHands(t, rule, s, m, Other(k));
      } else {
        RunnableCanStep(t, rule, s, k);
      }
    }
  }

  lemma Bounds(t: Table, s: State, m: nat, h: nat, l: Lock)
    requires Inv(t, s) && LongerThan(s.chains, m) && h < |s.threads| && Awaits(t, s.threads[h]) == Some(l)
    ensures Level(t, l) <= t.buckets && Rank(t, s.chains, m, l) <= 2 * m + 4
  {
    hide Inv, Rank, Region;
    RankBound(t, s.chains, m, l);
    if l != Count {
      InRegion(t, s, h, l);
    }
  }

  /** The hand that keeps a mutex from being free waits, if it waits, for a later one. */
  lemma NextHand(t: Table, s: State, m: nat, k: nat, l: Lock)
    requires Inv(t, s) && HandsOk(t, s) && LongerThan(s.chains, m) && k < |s.threads| && Other(k) < |s.threads|
    requires l in Holds(t, s.threads[k]) || l in Holds(t, s.threads[Other(k)])
    ensures Awaits(t, s.threads[k]).Some? ==>
      && Precedes(t, s.chains, m, l, Awaits(t, s.threads[k]).value)
      && Level(t, Awaits(t, s.threads[k]).value) <= t.buckets
      && Rank(t, s.chains, m, Awaits(t, s.threads[k]).value) <= 2 * m + 4
  {
    hide Inv, Rank, Level, Holds;
    if Awaits(t, s.threads[k]).Some? {
      ThreadOrdered(t, s, m, k, Awaits(t, s.threads[k]).value, l);
      Bounds(t, s, m, k, Awaits(t, s.threads[k]).value);
    }
  }

  /** No deadlock: if searches with an element in hand only go upward, then whenever some hand is not idle some thread
      can go on or give back an element. */
  lemma UpwardNeverDeadlocks(t: Table, rule: Rule, s: State, h: nat)
    requires OnlyUpward(rule) && Reachable(t, rule, s) && h < |s.threads| && s.threads[h] != Idle
    ensures exists k :: CanStep(t, rule, s, k)
  {
    hide Inv, Awaits, Holds, Next, CanStep, LongerThan;
    var run :| IsHeldRun(t, rule, run) && run[|run| - 1] == s;
    HeldRunKeeps(t, rule, run, |run| - 1);
    var m := Longest(s.chains);
    if !Resting(s.threads[h]) {
      FollowHands(t, rule, s, m, h);
    } else if !Resting(s.threads[Other(h)]) {
      FollowHands(t, rule, s, m, Other(h));
    } else {
      UsingIsRunnable(t, s, h);
      RunnableCanStep(t, rule, s, h);
    }
  }

  lemma UsingIsRunnable(t: Table, s: State, h: nat)
    requires h < |s.threads| && s.threads[h].Using?
    ensures Runnable(t, s, h)
  {
  }

  // ----- a search that does not go upward can close a cycle -----

  lemma Extends(t: Table, rule: Rule, s: State, h: nat, cmd: Cmd, s': State)
    requires Reachable(t, rule, s) && HandSteps(t, rule, s, h, cmd, s')
    ensures Reachable(t, rule, s')
  {
    hide HandSteps;
    var run :| IsHeldRun(t, rule, run) && run[|run| - 1] == s;
    var longer := run + [s'];
    forall k | 0 <= k < |longer| - 1
      ensures ThreadSteps(t, rule, longer[k], longer[k + 1])
    {
      if k < |run| - 1 {
        assert ThreadSteps(t, rule, run[k], run[k + 1]);
      }
    }
    assert IsHeldRun(t, rule, longer);
  }

  function With(s: State, h: nat, pc: Pc): State
    requires h < |s.threads|
  {
    s.(threads := s.threads[h := pc])
  }

  /** Every hand but h is idle or rests on an element other than e, or on none. */
  ghost predicate Quiet(s: State, h: nat, e: nat) {
    forall k :: 0 <= k < |s.threads| && k != h ==> Resting(s.threads[k]) && s.threads[k] != Using(e)
  }

  /** Hand h, whose other hand is idle, moves on. */
  lemma Moves(t: Table, rule: Rule, s: State, h: nat, pc: Pc, pc': Pc, cmd: Cmd)
    requires h < |s.threads| && Other(h) < |s.threads| && s.threads[Other(h)] == Idle && |s.chains| == t.buckets
    requires Reachable(t, rule, With(s, h, pc)) && Next(t, With(s, h, pc), h, cmd) == Go1(With(s, h, pc), h, pc')
    ensures Reachable(t, rule, With(s, h, pc'))
  {
    hide Next, Reachable;
    assert With(s, h, pc).threads[h := pc'] == With(s, h, pc').threads;
    Extends(t, rule, With(s, h, pc), h, cmd, With(s, h, pc'));
  }

  lemma Available(t: Table, s: State, h: nat, e: nat, pc: Pc, l: Lock)
    requires h < |s.threads| && Quiet(s, h, e) && l !in Holds(t, pc) && (l.Data? ==> l.e == e)
    ensures Free(t, With(s, h, pc), l)
  {
  }

  /** An idle hand can add an element to an empty bucket: up to where it is to be linked in. */
  lemma AddsUpTo(t: Table, rule: Rule, s: State, h: nat, e: nat)
    requires Reachable(t, rule, s) && h < |s.threads| && Other(h) < |s.threads| && |s.chains| == t.buckets
    requires s.threads[h] == Idle && s.threads[Other(h)] == Idle && Quiet(s, h, e)
    requires BucketOf(t, e) < |s.chains| && s.chains[BucketOf(t, e)] == []
    ensures Reachable(t, rule, With(s.(count := s.count + 1), h, AddLocked(e)))
  {
    hide Reachable, Free;
    var b := BucketOf(t, e);
    assert s == With(s, h, Idle);
    Moves(t, rule, s, h, Idle, AddAwaitCount(e), Add(e));
    Available(t, s, h, e, AddAwaitCount(e), Count);
    Moves(t, rule, s, h, AddAwaitCount(e), AddCounting(e), Go);
    var s1 := s.(count := s.count + 1);
    assert With(s, h, AddCounting(e)).threads[h := AddAwaitUniq(e)] == With(s1, h, AddAwaitUniq(e)).threads;
    Extends(t, rule, With(s, h, AddCounting(e)), h, Go, With(s1, h, AddAwaitUniq(e)));
    AddsOn(t, rule, s1, h, e);
  }

  lemma AddsOn(t: Table, rule: Rule, s: State, h: nat, e: nat)
    requires h < |s.threads| && Other(h) < |s.threads| && |s.chains| == t.buckets
    requires Reachable(t, rule, With(s, h, AddAwaitUniq(e))) && s.threads[Other(h)] == Idle && Quiet(s, h, e)
    requires BucketOf(t, e) < |s.chains| && s.chains[BucketOf(t, e)] == []
    ensures Reachable(t, rule, With(s, h, AddLocked(e)))
  {
    hide Reachable, Free;
    var b := BucketOf(t, e);
    Available(t, s, h, e, AddAwaitUniq(e), Uniq(b));
    Moves(t, rule, s, h, AddAwaitUniq(e), Enter(Check(e), b), Go);
    Available(t, s, h, e, Enter(Check(e), b), Ptr(Head(b)));
    Moves(t, rule, s, h, Enter(Check(e), b), Walk(Check(e), b, Head(b)), Go);
    Moves(t, rule, s, h, Walk(Check(e), b, Head(b)), AddAwaitBucket(e), Go);
    Available(t, s, h, e, AddAwaitBucket(e), Ptr(Head(b)));
    Moves(t, rule, s, h, AddAwaitBucket(e), AddLocked(e), Go);
  }

  /** What is reached when the element is in and held. */
  function Added(t: Table, s: State, h: nat, e: nat): State
    requires h < |s.threads| && BucketOf(t, e) < |s.chains|
  {
    With(State(s.chains[BucketOf(t, e) := [e]], s.count + 1, s.threads), h, Using(e))
  }

  lemma Adds(t: Table, rule: Rule, s: State, h: nat, e: nat)
    requires Reachable(t, rule, s) && h < |s.threads| && Other(h) < |s.threads| && |s.chains| == t.buckets
    requires s.threads[h] == Idle && s.threads[Other(h)] == Idle && Quiet(s, h, e)
    requires BucketOf(t, e) < |s.chains| && s.chains[BucketOf(t, e)] == []
    ensures Reachable(t, rule, Added(t, s, h, e))
  {
    hide Reachable, Free;
    AddsUpTo(t, rule, s, h, e);
    var b := BucketOf(t, e);
    var s1 := s.(count := s.count + 1);
    var s2 := State(s.chains[b := [e]], s.count + 1, s.threads);
    assert [e] + s1.chains[b] == [e];
    assert With(s1, h, AddLocked(e)).threads[h := AddAwaitData(e)] == With(s2, h, AddAwaitData(e)).threads;
    Extends(t, rule, With(s1, h, AddLocked(e)), h, Go, With(s2, h, AddAwaitData(e)));
    Available(t, s2, h, e, AddAwaitData(e), Data(e));
    Moves(t, rule, s2, h, AddAwaitData(e), AddData(e), Go);
    Moves(t, rule, s2, h, AddData(e), AddUniqLast(e), Go);
    Moves(t, rule, s2, h, AddUniqLast(e), Using(e), Go);
  }

  /** An idle hand can look for an element that is alone in its bucket, and then awaits it. */
  lemma Looks(t: Table, rule: Rule, s: State, h: nat, n: nat)
    requires Reachable(t, rule, s) && h < |s.threads| && Other(h) < |s.threads| && |s.chains| == t.buckets
    requires s.threads[h] == Idle && Resting(s.threads[Other(h)])
    requires s.threads[Other(h)].Using? ==> rule(BucketOf(t, s.threads[Other(h)].e), BucketOf(t, n))
    requires BucketOf(t, n) < |s.chains| && s.chains[BucketOf(t, n)] == [n]
    ensures Reachable(t, rule, With(s, h, Enter(FindKey(t.key(n)), BucketOf(t, n))))
    ensures Free(t, s, Ptr(Head(BucketOf(t, n)))) ==>
      Reachable(t, rule, With(s, h, AwaitData(FindKey(t.key(n)), BucketOf(t, n), Head(BucketOf(t, n)), n)))
  {
    hide Reachable, Free;
    var b, goal := BucketOf(t, n), FindKey(t.key(n));
    var s1 := With(s, h, Enter(goal, b));
    Extends(t, rule, s, h, Find(t.key(n)), s1);
    if Free(t, s, Ptr(Head(b))) {
      StaysFree(t, s, h, Enter(goal, b), Ptr(Head(b)));
      var s2 := With(s, h, Walk(goal, b, Head(b)));
      assert s1.threads[h := Walk(goal, b, Head(b))] == s2.threads;
      Extends(t, rule, s1, h, Go, s2);
      var s3 := With(s, h, AwaitData(goal, b, Head(b), n));
      assert s2.threads[h := AwaitData(goal, b, Head(b), n)] == s3.threads;
      Extends(t, rule, s2, h, Go, s3);
    }
  }

  lemma StaysFree(t: Table, s: State, h: nat, pc: Pc, l: Lock)
    requires h < |s.threads| && Free(t, s, l) && l !in Holds(t, pc)
    ensures Free(t, With(s, h, pc), l)
  {
  }

  /** Element 0 is in bucket x, and every other in bucket y. */
  function Two(x: nat, y: nat): Table {
    Table(1 + if x < y then y else x, e => e, k => if k == 0 then x else y)
  }

  /** Two threads with idle hands. */
  function Fresh(t: Table): State {
    State(seq(t.buckets, _ => []), 0, [Idle, Idle, Idle, Idle])
  }

  lemma FreshIsReachable(t: Table, rule: Rule)
    requires Fine(t)
    ensures Reachable(t, rule, Fresh(t))
  {
    assert IsHeldRun(t, rule, [Fresh(t)]);
  }

  lemma TwoIsFine(x: nat, y: nat)
    ensures Fine(Two(x, y)) && BucketOf(Two(x, y), 0) == x && BucketOf(Two(x, y), 1) == y
  {
  }

  ghost predicate Deadlocked(t: Table, s: State) {
    ThreadWaits(t, s, 0, 1) && ThreadWaits(t, s, 1, 0)
  }

  lemma DeadlockedIsCyclic(t: Table, s: State)
    requires Deadlocked(t, s)
    ensures !Acyclic(t, s)
  {
    assert ThreadPath(t, s, [0, 1, 0]);
  }

  /** The holder of an element starts a search in the same bucket, while another thread comes to look for it. */
  lemma SameBucketDeadlocks(rule: Rule, x: nat)
    requires rule(x, x)
    ensures exists s :: Reachable(Two(x, x), rule, s) && Deadlocked(Two(x, x), s)
  {
    hide Reachable, Free;
    var t := Two(x, x);
    TwoIsFine(x, x);
    FreshIsReachable(t, rule);
    Adds(t, rule, Fresh(t), 0, 0);
    var s1 := Added(t, Fresh(t), 0, 0);
    assert s1.threads == [Using(0), Idle, Idle, Idle];
    HeadFree(t, s1, x);
    Looks(t, rule, s1, 2, 0);
    var a := AwaitData(FindKey(0), x, Head(x), 0);
    var s2 := With(s1, 2, a);
    assert s2.threads == [Using(0), Idle, a, Idle];
    Looks(t, rule, s2, 1, 0);
    var s3 := With(s2, 1, Enter(FindKey(0), x));
    assert s3.threads == [Using(0), Enter(FindKey(0), x), a, Idle];
    assert HandWaits(t, s3, 2 * 1, 0) && HandWaits(t, s3, 2 * 0 + 1, 1);
  }

  lemma HeadFree(t: Table, s: State, b: nat)
    requires forall k :: 0 <= k < |s.threads| ==> Ptr(Head(b)) !in Holds(t, s.threads[k])
    ensures Free(t, s, Ptr(Head(b)))
  {
  }

  /** The holder of an element looks for one of a lower bucket, whose holder looks for the first. */
  lemma LowerBucketDeadlocks(rule: Rule, x: nat, y: nat)
    requires y < x && rule(x, y) && rule(y, x)
    ensures exists s :: Reachable(Two(x, y), rule, s) && Deadlocked(Two(x, y), s)
  {
    hide Reachable, Free;
    var t := Two(x, y);
    TwoIsFine(x, y);
    FreshIsReachable(t, rule);
    Adds(t, rule, Fresh(t), 0, 0);
    var s1 := Added(t, Fresh(t), 0, 0);
    assert s1.threads == [Using(0), Idle, Idle, Idle];
    Adds(t, rule, s1, 2, 1);
    var s2 := Added(t, s1, 2, 1);
    assert s2.threads == [Using(0), Idle, Using(1), Idle];
    HeadFree(t, s2, y);
    Looks(t, rule, s2, 1, 1);
    var a := AwaitData(FindKey(1), y, Head(y), 1);
    var s3 := With(s2, 1, a);
    assert s3.threads == [Using(0), a, Using(1), Idle];
    HeadFree(t, s3, x);
    Looks(t, rule, s3, 3, 0);
    var c := AwaitData(FindKey(0), x, Head(x), 0);
    var s4 := With(s3, 3, c);
    assert s4.threads == [Using(0), a, Using(1), c];
    assert HandWaits(t, s4, 2 * 0 + 1, 1) && HandWaits(t, s4, 2 * 1 + 1, 0);
  }

  /** In which buckets a thread with an element may search: a rule that lets it go upward keeps the waits-for graph of
      every table, in every reachable state, without a cycle exactly if it lets it go upward only. */
  lemma HoldersMustGoUp(rule: Rule)
    requires AllUpward(rule)
    ensures (forall t, s :: Reachable(t, rule, s) ==> Acyclic(t, s)) <==> OnlyUpward(rule)
  {
    hide Reachable, Acyclic, Deadlocked;
    if OnlyUpward(rule) {
      forall t, s | Reachable(t, rule, s)
        ensures Acyclic(t, s)
      {
        UpwardIsAcyclic(t, rule, s);
      }
    } else {
      var x: nat, y: nat :| rule(x, y) && y <= x;
      if x == y {
        SameBucketDeadlocks(rule, x);
      } else {
        LowerBucketDeadlocks(rule, x, y);
      }
      var s :| Reachable(Two(x, y), rule, s) && Deadlocked(Two(x, y), s);
      DeadlockedIsCyclic(Two(x, y), s);
    }
  }
}
