/** What a search in the table finds: only what was looked for, and all that stays where it is.  Every search takes one
    mutex after the other while other threads add and delete. */
module Finding {
  import opened Prelude
  import opened Hashtbl

  // ----- only what was looked for -----

  /** Element n is what a goal asks for, in terms of keys. */
  ghost predicate Suits(t: Table, goal: Goal, n: nat) {
    && (goal.FindKey? || goal.DeleteKey? ==> t.key(n) == goal.k)
    && (goal.DeleteElt? ==> n == goal.e)
    && (goal.Check? ==> t.key(n) == t.key(goal.e))
  }

  predicate Deletes(goal: Goal) {
    goal.DeleteKey? || goal.DeleteElt?
  }

  /** The search is in the bucket of its key. */
  ghost predicate RightBucket(t: Table, goal: Goal, b: nat) {
    && (goal.FindKey? || goal.DeleteKey? ==> b == t.bucketOf(goal.k))
    && (goal.DeleteElt? ==> b == BucketOf(t, goal.e))
  }

  /** A thread takes what suits its goal, and passes what does not. */
  ghost predicate Right(t: Table, pc: Pc) {
    match pc
    case Enter(goal, b) => RightBucket(t, goal, b)
    case Walk(goal, b, _) => RightBucket(t, goal, b)
    case AwaitPtr(goal, b, _, n) => RightBucket(t, goal, b) && !Suits(t, goal, n)
    case HandOver(goal, b, _, n) => RightBucket(t, goal, b) && !Suits(t, goal, n)
    case AwaitData(goal, b, _, n) => RightBucket(t, goal, b) && Suits(t, goal, n)
    case Found(goal, b, _, n) => RightBucket(t, goal, b) && Suits(t, goal, n)
    case DelAwaitCount(goal, _, _, n) => Deletes(goal) && Suits(t, goal, n)
    case DelCounting(goal, _, _, n) => Deletes(goal) && Suits(t, goal, n)
    case DelAwaitPtr(goal, _, _, n) => Deletes(goal) && Suits(t, goal, n)
    case DelLocked(goal, _, _, n) => Deletes(goal) && Suits(t, goal, n)
    case DelUnlinked(goal, _, _, n) => Deletes(goal) && Suits(t, goal, n)
    case DelPtrFree(goal, _, _, n) => Deletes(goal) && Suits(t, goal, n)
    case DelDestroy(goal, _, _, n) => Deletes(goal) && Suits(t, goal, n)
    case DupData(e, n) => t.key(n) == t.key(e)
    case _ => true
  }

  ghost predicate AllRight(t: Table, s: State) {
    forall i :: 0 <= i < |s.threads| ==> Right(t, s.threads[i])
  }

  lemma SuitsMatches(t: Table, goal: Goal, n: nat)
    ensures Matches(t, goal, n) <==> Suits(t, goal, n)
  {
  }

  lemma StepIsRight(t: Table, s: State, i: nat, cmd: Cmd)
    requires |s.chains| == t.buckets && i < |s.threads| && Right(t, s.threads[i]) && Next(t, s, i, cmd).Some?
    ensures var s' := Next(t, s, i, cmd).value; i < |s'.threads| && Right(t, s'.threads[i])
  {
    hide Free, Holds, Private, Awaits, Matches, Suits, InChain, Pos, Unlinked;
    match s.threads[i] {
      case Walk(goal, b, at) =>
        if b < |s.chains| && InChain(s.chains[b], b, at) && Pos(s.chains[b], b, at) < |s.chains[b]| {
          SuitsMatches(t, goal, s.chains[b][Pos(s.chains[b], b, at)]);
        }
      case Found(goal, b, at, n) => SuitsKey(t, goal, n);
      case _ =>
    }
  }

  lemma SuitsKey(t: Table, goal: Goal, n: nat)
    requires Suits(t, goal, n)
    ensures goal.Check? ==> t.key(n) == t.key(goal.e)
  {
  }

  /** The state k + 1 of a run comes from state k by a step of some thread; of thread i, if that one has moved. */
  lemma WhoMoved(t: Table, run: seq<State>, k: nat, i: nat) returns (j: nat, cmd: Cmd)
    requires IsRun(t, run) && k + 1 < |run| && i < |run[k].threads|
    ensures Inv(t, run[k]) && Inv(t, run[k + 1]) && |run[k].chains| == t.buckets
    ensures |run[k + 1].threads| == |run[k].threads|
    ensures j < |run[k].threads| && Next(t, run[k], j, cmd) == Some(run[k + 1])
    ensures i != j ==> run[k + 1].threads[i] == run[k].threads[i]
  {
    hide Inv, Next;
    RunInv(t, run, k);
    RunInv(t, run, k + 1);
    InvShape(t, run[k]);
    assert Steps(t, run[k], run[k + 1]);
    j, cmd :| 0 <= j < |run[k].threads| && Next(t, run[k], j, cmd) == Some(run[k + 1]);
    StepFrame(t, run[k], j, cmd);
  }

  lemma {:induction false} RunIsRight(t: Table, run: seq<State>, k: nat)
    requires IsRun(t, run) && k < |run|
    ensures AllRight(t, run[k])
  {
    hide Inv, Next, Right;
    if k == 0 {
      assert Right(t, Idle) by { IdleIsRight(t); }
    } else {
      RunIsRight(t, run, k - 1);
      forall i | 0 <= i < |run[k].threads|
        ensures Right(t, run[k].threads[i])
      {
        RunKeepsThreads(t, run, k - 1);
        var j, cmd := WhoMoved(t, run, k - 1, i);
        StepIsRight(t, run[k - 1], j, cmd);
      }
    }
  }

  lemma IdleIsRight(t: Table)
    ensures Right(t, Idle)
  {
  }

  lemma RunKeepsThreads(t: Table, run: seq<State>, k: nat)
    requires IsRun(t, run) && k + 1 < |run|
    ensures |run[k + 1].threads| == |run[k].threads|
  {
    hide Next;
    assert Steps(t, run[k], run[k + 1]);
    var j, cmd :| 0 <= j < |run[k].threads| && Next(t, run[k], j, cmd) == Some(run[k + 1]);
    StepFrame(t, run[k], j, cmd);
  }

  /** A find by key returns an element of the table that has the key. */
  lemma FindReturnsKey(t: Table, run: seq<State>, k: nat, i: nat)
    requires IsRun(t, run) && k + 1 < |run| && i < |run[k].threads| && i < |run[k + 1].threads|
    requires run[k].threads[i].Found? && run[k].threads[i].goal.FindKey? && run[k + 1].threads[i] != run[k].threads[i]
    ensures var pc := run[k + 1].threads[i];
      pc.Using? && t.key(pc.e) == run[k].threads[i].goal.k && Linked(t, run[k + 1].chains, pc.e)
  {
    hide Free, Holds, Private;
    RunIsRight(t, run, k);
    assert Right(t, run[k].threads[i]);
    var j, cmd := WhoMoved(t, run, k, i);
    assert PcOk(t, run[k + 1].chains, run[k + 1].threads[i]);
  }

  /** A deletion unlinks an element with the key, or the element, that it was given, and nothing else. */
  lemma DeleteTakesKey(t: Table, run: seq<State>, k: nat, i: nat)
    requires IsRun(t, run) && k + 1 < |run| && i < |run[k].threads| && i < |run[k + 1].threads|
    requires run[k].threads[i].DelLocked? && run[k + 1].threads[i] != run[k].threads[i]
    ensures var pc := run[k].threads[i];
      && (pc.goal.DeleteKey? || pc.goal.DeleteElt?)
      && (pc.goal.DeleteKey? ==> t.key(pc.n) == pc.goal.k) && (pc.goal.DeleteElt? ==> pc.n == pc.goal.e)
      && Linked(t, run[k].chains, pc.n)
      && forall x: nat :: Linked(t, run[k + 1].chains, x) <==> Linked(t, run[k].chains, x) && x != pc.n
  {
    hide Free, Holds, Private, Linked, Unlinked;
    RunIsRight(t, run, k);
    assert Right(t, run[k].threads[i]);
    var j, cmd := WhoMoved(t, run, k, i);
    var pc := run[k].threads[i];
    assert PcOk(t, run[k].chains, pc);
    CutIsLinked(t, run[k].chains, pc.b, pc.at, pc.n);
    forall x: nat
      ensures Linked(t, run[k + 1].chains, x) <==> Linked(t, run[k].chains, x) && x != pc.n
    {
      UnlinkLinked(t, run[k].chains, pc.b, pc.at, pc.n, x);
    }
  }

  /** An addition links in its element, whose key the table does not have, and nothing else changes. */
  lemma AddLinks(t: Table, run: seq<State>, k: nat, i: nat)
    requires IsRun(t, run) && k + 1 < |run| && i < |run[k].threads| && i < |run[k + 1].threads|
    requires run[k].threads[i].AddLocked? && run[k + 1].threads[i] != run[k].threads[i]
    ensures var e := run[k].threads[i].e;
      && (forall x: nat :: Linked(t, run[k].chains, x) ==> t.key(x) != t.key(e))
      && (forall x: nat :: Linked(t, run[k + 1].chains, x) <==> Linked(t, run[k].chains, x) || x == e)
  {
    hide Free, Holds, Linked, Inv;
    var j, cmd := WhoMoved(t, run, k, i);
    var e := run[k].threads[i].e;
    AddedChains(t, run[k], i, cmd);
    AddedIsNew(t, run[k], i);
    forall x: nat
      ensures Linked(t, run[k + 1].chains, x) <==> Linked(t, run[k].chains, x) || x == e
    {
      LinkLinked(t, run[k].chains, e, x);
    }
  }

  lemma AddedIsNew(t: Table, s: State, i: nat)
    requires Inv(t, s) && i < |s.threads| && s.threads[i].AddLocked?
    ensures forall x: nat :: Linked(t, s.chains, x) ==> t.key(x) != t.key(s.threads[i].e)
  {
    hide Free, Holds, Exclusive, PrivateOk;
    assert PcOk(t, s.chains, s.threads[i]);
    var e := s.threads[i].e;
    forall x: nat | Linked(t, s.chains, x)
      ensures t.key(x) != t.key(e)
    {
      var c := s.chains[BucketOf(t, x)];
      assert c[IndexOf(c, x)] == x;
    }
  }

  /** At its end it has the element in hand. */
  lemma AddReturns(t: Table, run: seq<State>, k: nat, i: nat)
    requires IsRun(t, run) && k + 1 < |run| && i < |run[k].threads| && i < |run[k + 1].threads|
    requires run[k].threads[i].AddUniqLast? && run[k + 1].threads[i] != run[k].threads[i]
    ensures var e := run[k].threads[i].e; run[k + 1].threads[i] == Using(e) && Linked(t, run[k + 1].chains, e)
  {
    hide Free, Holds, Private;
    var j, cmd := WhoMoved(t, run, k, i);
    assert PcOk(t, run[k + 1].chains, run[k + 1].threads[i]);
  }

  /** An addition gives up only where the table has an element with the same key. */
  lemma DuplicateExists(t: Table, run: seq<State>, k: nat, i: nat)
    requires IsRun(t, run) && k < |run| && i < |run[k].threads| && run[k].threads[i].DupData?
    ensures var pc := run[k].threads[i]; t.key(pc.n) == t.key(pc.e) && Linked(t, run[k].chains, pc.n)
  {
    RunIsRight(t, run, k);
    assert Right(t, run[k].threads[i]);
    RunInv(t, run, k);
    assert PcOk(t, run[k].chains, run[k].threads[i]);
  }

  // ----- all that stays -----

  /** The node that a thread stands at, while it searches or has an element. */
  function Place(t: Table, pc: Pc): Option<(nat, Node)> {
    match pc
    case Enter(_, b) => Some((b, Head(b)))
    case Walk(_, b, at) => Some((b, at))
    case AwaitPtr(_, b, at, _) => Some((b, at))
    case HandOver(_, b, at, _) => Some((b, at))
    case AwaitData(_, b, at, _) => Some((b, at))
    case Found(_, b, at, _) => Some((b, at))
    case Using(e) => Some((BucketOf(t, e), Elt(e)))
    case NextAwaitPtr(e) => Some((BucketOf(t, e), Elt(e)))
    case NextBoth(e) => Some((BucketOf(t, e), Elt(e)))
    case _ => None
  }

  function GoalOf(pc: Pc): Goal {
    match pc
    case Enter(goal, _) => goal
    case Walk(goal, _, _) => goal
    case AwaitPtr(goal, _, _, _) => goal
    case HandOver(goal, _, _, _) => goal
    case AwaitData(goal, _, _, _) => goal
    case Found(goal, _, _, _) => goal
    case _ => Any
  }

  /** Element n of its chain is behind node at. */
  ghost predicate Behind(t: Table, chains: seq<seq<nat>>, at: Node, n: nat) {
    var b := BucketOf(t, n);
    b < |chains| && n in chains[b] && InChain(chains[b], b, at) && Pos(chains[b], b, at) <= IndexOf(chains[b], n)
  }

  /** A thread that stands here has not passed element n. */
  ghost predicate Before(t: Table, chains: seq<seq<nat>>, pc: Pc, n: nat) {
    && Place(t, pc).Some?
    && (Place(t, pc).value.0 < BucketOf(t, n)
        || (Place(t, pc).value.0 == BucketOf(t, n) && Behind(t, chains, Place(t, pc).value.1, n)))
  }

  lemma LinkBehind(t: Table, chains: seq<seq<nat>>, e: nat, at: Node, n: nat)
    requires BucketOf(t, e) < |chains| && !Linked(t, chains, e) && Linked(t, chains, n) && Behind(t, chains, at, n)
    ensures Behind(t, LinkIn(t, chains, e), at, n)
  {
    var b := BucketOf(t, n);
    if b == BucketOf(t, e) {
      LinkIndex(chains[b], e, n);
      if at.Elt? {
        LinkIndex(chains[b], e, at.e);
      }
    }
  }

  lemma UnlinkBehind(t: Table, chains: seq<seq<nat>>, b: nat, cut: Node, m: nat, at: Node, n: nat)
    requires Cut(t, chains, b, cut, m) && Behind(t, chains, at, n) && n != m && at != Elt(m)
    ensures m in chains[b] && Behind(t, UnlinkFrom(chains, b, m), at, n)
  {
    CutIndex(t, chains, b, cut, m);
    if b == BucketOf(t, n) {
      UnlinkIndex(chains[b], m, n);
      if at.Elt? {
        UnlinkIndex(chains[b], m, at.e);
      }
    }
  }

  /** A step of another thread leaves n before this one, unless it unlinks n. */
  lemma OtherStep(t: Table, s: State, j: nat, cmd: Cmd, i: nat, n: nat)
    requires Inv(t, s) && i < |s.threads| && j < |s.threads| && i != j && Next(t, s, j, cmd).Some?
    requires Before(t, s.chains, s.threads[i], n) && Linked(t, s.chains, n)
    requires Linked(t, Next(t, s, j, cmd).value.chains, n)
    ensures Before(t, Next(t, s, j, cmd).value.chains, s.threads[i], n)
  {
    hide Next, Inv, Holds, Private, Free, Behind, Linked, PcOk;
    InvShape(t, s);
    StepFrame(t, s, j, cmd);
    var pc := s.threads[i];
    if s.threads[j].AddLocked? {
      AddedChains(t, s, j, cmd);
      if Place(t, pc).value.0 == BucketOf(t, n) {
        LinkBehind(t, s.chains, s.threads[j].e, Place(t, pc).value.1, n);
      }
    } else if s.threads[j].DelLocked? {
      DeletedChains(t, s, j, cmd);
      PlaceStays(t, s, j, cmd, i, n);
      if Place(t, pc).value.0 == BucketOf(t, n) {
        var d := s.threads[j];
        UnlinkBehind(t, s.chains, d.b, d.at, d.n, Place(t, pc).value.1, n);
      }
    } else {
      SameChains(t, s, j, cmd);
    }
  }

  lemma AddedChains(t: Table, s: State, j: nat, cmd: Cmd)
    requires Inv(t, s) && j < |s.threads| && s.threads[j].AddLocked? && Next(t, s, j, cmd).Some?
    ensures var e := s.threads[j].e;
      && BucketOf(t, e) < |s.chains| && !Linked(t, s.chains, e)
      && Next(t, s, j, cmd).value.chains == LinkIn(t, s.chains, e)
  {
    hide Holds, Free, Exclusive;
    assert s.threads[j].e in Private(s.threads[j]);
  }

  lemma DeletedChains(t: Table, s: State, j: nat, cmd: Cmd)
    requires Inv(t, s) && j < |s.threads| && s.threads[j].DelLocked? && Next(t, s, j, cmd).Some?
    ensures var d := s.threads[j];
      && Cut(t, s.chains, d.b, d.at, d.n) && d.n in s.chains[d.b]
      && Next(t, s, j, cmd).value.chains == UnlinkFrom(s.chains, d.b, d.n)
  {
    hide Holds, Free, Exclusive, PrivateOk, Unlinked, Linked;
    assert PcOk(t, s.chains, s.threads[j]);
  }

  lemma SameChains(t: Table, s: State, j: nat, cmd: Cmd)
    requires |s.chains| == t.buckets && j < |s.threads| && Next(t, s, j, cmd).Some?
    requires !s.threads[j].AddLocked? && !s.threads[j].DelLocked?
    ensures Next(t, s, j, cmd).value.chains == s.chains
  {
    hide Holds, Free, Private, Matches;
  }

  /** The element that is unlinked is neither n nor where the other thread stands. */
  lemma PlaceStays(t: Table, s: State, j: nat, cmd: Cmd, i: nat, n: nat)
    requires Inv(t, s) && i < |s.threads| && j < |s.threads| && i != j && s.threads[j].DelLocked?
    requires Next(t, s, j, cmd).Some? && Linked(t, Next(t, s, j, cmd).value.chains, n)
    requires Before(t, s.chains, s.threads[i], n)
    ensures n != s.threads[j].n && Place(t, s.threads[i]).value.1 != Elt(s.threads[j].n)
  {
    hide Next, Private, Free, Behind, Linked, Cut;
    InvShape(t, s);
    DeletedChains(t, s, j, cmd);
    var d := s.threads[j];
    UnlinkLinked(t, s.chains, d.b, d.at, d.n, n);
    assert Holds(t, s.threads[i]) !! Holds(t, s.threads[j]);
    assert Data(d.n) in Holds(t, d) && Ptr(Elt(d.n)) in Holds(t, d);
  }

  /** What a search for a key or an element has, once it has left the search. */
  ghost predicate Got(pc: Pc, goal: Goal, n: nat) {
    if goal.FindKey? then pc == Using(n)
    else pc.DelAwaitCount? && pc.goal == goal && pc.n == n
  }

  predicate Seeks(pc: Pc, goal: Goal) {
    (pc.Enter? || Searching(pc)) && pc.goal == goal
  }

  /** The keys of a chain are different, so only one element suits. */
  lemma OnlyOne(t: Table, chains: seq<seq<nat>>, goal: Goal, m: nat, n: nat)
    requires ChainsOk(t, chains) && Linked(t, chains, m) && Linked(t, chains, n)
    requires (goal.FindKey? || Deletes(goal)) && Suits(t, goal, m) && Suits(t, goal, n)
    ensures m == n
  {
    var c := chains[BucketOf(t, n)];
    assert c[IndexOf(c, m)] == m && c[IndexOf(c, n)] == n;
  }

  /** The node after at is n, or before it. */
  lemma Follower(t: Table, chains: seq<seq<nat>>, b: nat, at: Node, m: nat, n: nat)
    requires ChainsOk(t, chains) && Follows(chains, b, at, m) && Linked(t, chains, n)
    ensures BucketOf(t, m) == b && Linked(t, chains, m)
    ensures m != n && b == BucketOf(t, n) && Behind(t, chains, at, n) ==> Behind(t, chains, Elt(m), n)
  {
    CutIndex(t, chains, b, at, m);
    CutIsLinked(t, chains, b, at, m);
  }

  /** A search for a key is in the bucket of the element that it is for. */
  lemma SameBucket(t: Table, goal: Goal, b: nat, n: nat)
    requires RightBucket(t, goal, b) && Suits(t, goal, n) && (goal.FindKey? || Deletes(goal))
    ensures b == BucketOf(t, n)
  {
  }

  /** What a step of its own may lead to, for a thread that n is before. */
  ghost predicate NoFurther(t: Table, chains: seq<seq<nat>>, pc: Pc, pc': Pc, n: nat) {
    var goal := GoalOf(pc);
    if goal.Any? then
      || pc' == Using(n) || (GoalOf(pc') == Any && Before(t, chains, pc', n)) || (pc.Using? && pc'.Idle?)
    else Got(pc', goal, n) || (Seeks(pc', goal) && Before(t, chains, pc', n))
  }

  lemma WalkStep(t: Table, s: State, i: nat, cmd: Cmd, n: nat)
    requires |s.chains| == t.buckets && i < |s.threads| && s.threads[i].Walk? && Right(t, s.threads[i])
    requires Next(t, s, i, cmd).Some? && Linked(t, s.chains, n) && Before(t, s.chains, s.threads[i], n)
    requires var goal := GoalOf(s.threads[i]); (goal.FindKey? || Deletes(goal) || goal.Any?) && Suits(t, goal, n)
    ensures var s' := Next(t, s, i, cmd).value;
      i < |s'.threads| && NoFurther(t, s.chains, s.threads[i], s'.threads[i], n)
  {
    hide Free, Holds, Private, Matches, Suits, RightBucket;
    var goal, b := s.threads[i].goal, s.threads[i].b;
    if !goal.Any? {
      SameBucket(t, goal, b, n);
    }
  }

  lemma OwnSearchStep(t: Table, s: State, i: nat, cmd: Cmd, n: nat)
    requires Inv(t, s) && i < |s.threads| && Right(t, s.threads[i]) && Next(t, s, i, cmd).Some?
    requires Linked(t, s.chains, n) && Before(t, s.chains, s.threads[i], n)
    requires var goal := GoalOf(s.threads[i]); (goal.FindKey? || Deletes(goal) || goal.Any?) && Suits(t, goal, n)
    requires Searching(s.threads[i])
    ensures var s' := Next(t, s, i, cmd).value;
      i < |s'.threads| && NoFurther(t, s.chains, s.threads[i], s'.threads[i], n)
  {
    hide Free, Holds, Private, Matches, Suits, Exclusive, PrivateOk, Behind, Follows, RightBucket, Linked, At, ChainsOk,
         InChain, Pos;
    InvShape(t, s);
    assert PcOk(t, s.chains, s.threads[i]);
    match s.threads[i] {
      case Walk(_, _, _) => WalkStep(t, s, i, cmd, n);
      case HandOver(_, b, at, m) => Follower(t, s.chains, b, at, m, n);
      case Found(goal, b, at, m) =>
        Follower(t, s.chains, b, at, m, n);
        if !goal.Any? {
          OnlyOne(t, s.chains, goal, m, n);
        }
      case _ =>
    }
  }

  lemma OwnOtherStep(t: Table, s: State, i: nat, cmd: Cmd, n: nat)
    requires Inv(t, s) && i < |s.threads| && Right(t, s.threads[i]) && Next(t, s, i, cmd).Some?
    requires Linked(t, s.chains, n) && Before(t, s.chains, s.threads[i], n)
    requires var goal := GoalOf(s.threads[i]); (goal.FindKey? || Deletes(goal) || goal.Any?) && Suits(t, goal, n)
    requires !Searching(s.threads[i])
    ensures var s' := Next(t, s, i, cmd).value;
      i < |s'.threads| && NoFurther(t, s.chains, s.threads[i], s'.threads[i], n)
  {
    hide Free, Holds, Private, Matches, Suits, Exclusive, PrivateOk, Behind, Linked, ChainsOk, AllOk, InChain, Pos;
    InvShape(t, s);
  }

  /** A step of its own brings a thread no further than n, or to n. */
  lemma OwnStep(t: Table, s: State, i: nat, cmd: Cmd, n: nat)
    requires Inv(t, s) && i < |s.threads| && Right(t, s.threads[i]) && Next(t, s, i, cmd).Some?
    requires Linked(t, s.chains, n) && Before(t, s.chains, s.threads[i], n)
    requires var goal := GoalOf(s.threads[i]); (goal.FindKey? || Deletes(goal) || goal.Any?) && Suits(t, goal, n)
    ensures var s' := Next(t, s, i, cmd).value;
      && i < |s'.threads| && s'.chains == s.chains && NoFurther(t, s.chains, s.threads[i], s'.threads[i], n)
  {
    hide Next, Suits, Inv, Before, Linked, NoFurther, Right;
    InvShape(t, s);
    StandingIsPlain(t, s, i, n);
    SameChains(t, s, i, cmd);
    if Searching(s.threads[i]) {
      OwnSearchStep(t, s, i, cmd, n);
    } else {
      OwnOtherStep(t, s, i, cmd, n);
    }
  }

  lemma StandingIsPlain(t: Table, s: State, i: nat, n: nat)
    requires i < |s.threads| && Before(t, s.chains, s.threads[i], n)
    ensures !s.threads[i].AddLocked? && !s.threads[i].DelLocked?
  {
  }

  // ----- over runs -----

  /** Element n is in the table in all states from one to another. */
  ghost predicate Stays(t: Table, run: seq<State>, start: nat, end: nat, n: nat) {
    start <= end < |run| && forall r :: start <= r <= end ==> Linked(t, run[r].chains, n)
  }

  /** One step of the run, whoever makes it. */
  lemma RunStep(t: Table, run: seq<State>, k: nat, i: nat, n: nat)
    requires IsRun(t, run) && Stays(t, run, k, k + 1, n) && i < |run[k].threads|
    requires Before(t, run[k].chains, run[k].threads[i], n)
    requires var goal := GoalOf(run[k].threads[i]); (goal.FindKey? || Deletes(goal) || goal.Any?) && Suits(t, goal, n)
    ensures i < |run[k + 1].threads|
    ensures var pc, pc' := run[k].threads[i], run[k + 1].threads[i];
      (pc' == pc && Before(t, run[k + 1].chains, pc', n)) || NoFurther(t, run[k + 1].chains, pc, pc', n)
  {
    hide Inv, Next, Linked, Before, Right, NoFurther, Suits;
    RunIsRight(t, run, k);
    assert Linked(t, run[k].chains, n) && Linked(t, run[k + 1].chains, n);
    var j, cmd := WhoMoved(t, run, k, i);
    if i == j {
      OwnStep(t, run[k], i, cmd, n);
    } else {
      OtherStep(t, run[k], j, cmd, i, n);
    }
  }

  /** Thread i searches for the goal in all states from one to another. */
  ghost predicate Searches(run: seq<State>, start: nat, end: nat, i: nat, goal: Goal) {
    start <= end <= |run| && forall r :: start <= r < end ==> i < |run[r].threads| && Seeks(run[r].threads[i], goal)
  }

  lemma {:induction false} SearchStaysBefore(t: Table, run: seq<State>, start: nat, end: nat, i: nat, goal: Goal,
                                             n: nat)
    requires start <= end && IsRun(t, run) && Searches(run, start, end + 1, i, goal) && Stays(t, run, start, end, n)
    requires (goal.FindKey? || Deletes(goal)) && Suits(t, goal, n)
    requires Before(t, run[start].chains, run[start].threads[i], n)
    ensures Before(t, run[end].chains, run[end].threads[i], n)
    decreases end
  {
    hide Before, Linked, Suits, IsRun, Matches, Place;
    if start < end {
      StaysShorter(t, run, start, end, n);
      SearchStaysBefore(t, run, start, end - 1, i, goal, n);
      assert Seeks(run[end - 1].threads[i], goal) && Seeks(run[end].threads[i], goal);
      RunStep(t, run, end - 1, i, n);
    }
  }

  lemma StaysShorter(t: Table, run: seq<State>, start: nat, end: nat, n: nat)
    requires Stays(t, run, start, end, n) && start < end
    ensures Stays(t, run, start, end - 1, n) && Stays(t, run, end - 1, end, n)
    ensures Linked(t, run[start].chains, n) && Linked(t, run[end - 1].chains, n)
  {
  }

  /** What a command looks for. */
  ghost predicate AsksFor(t: Table, cmd: Cmd, n: nat) {
    match cmd
    case Find(k) => t.key(n) == k
    case DelByKey(k) => t.key(n) == k
    case DelByPtr(e) => n == e
    case _ => false
  }

  /** A search starts before all that it could be for, and a traversal before every element. */
  lemma SearchStarts(t: Table, s: State, i: nat, cmd: Cmd, n: nat)
    requires Inv(t, s) && i < |s.threads| && s.threads[i].Idle? && Linked(t, s.chains, n)
    requires AsksFor(t, cmd, n) || cmd.First?
    ensures Next(t, s, i, cmd).Some?
    ensures var s' := Next(t, s, i, cmd).value;
      && i < |s'.threads| && s'.threads[i].Enter? && s'.chains == s.chains
      && var goal := s'.threads[i].goal;
         && Before(t, s.chains, s'.threads[i], n) && Suits(t, goal, n)
         && (if cmd.First? then goal.Any? else if cmd.Find? then goal.FindKey? else Deletes(goal))
  {
    hide Free, Holds, Private, Exclusive, PrivateOk, AllOk, ChainsOk;
  }

  /** A search for a key, or for an element, ends with the element if that stays in the table while the search lasts,
      whatever is added and deleted meanwhile. */
  lemma SearchSucceeds(t: Table, run: seq<State>, start: nat, end: nat, i: nat, cmd: Cmd, n: nat)
    requires IsRun(t, run) && start + 1 < end && Stays(t, run, start, end, n) && AsksFor(t, cmd, n)
    requires i < |run[start].threads| && run[start].threads[i].Idle? && |run[start].chains| == t.buckets
    requires Next(t, run[start], i, cmd) == Some(run[start + 1]) && i < |run[start + 1].threads|
    requires run[start + 1].threads[i].Enter? && Searches(run, start + 1, end, i, run[start + 1].threads[i].goal)
    requires i < |run[end].threads| && !Seeks(run[end].threads[i], run[start + 1].threads[i].goal)
    ensures var pc := run[end].threads[i];
      if cmd.Find? then pc == Using(n) else pc.DelAwaitCount? && pc.n == n
  {
    hide IsRun, Before, Linked, Matches, Place, Next, Inv, Suits;
    RunInv(t, run, start);
    StaysShorter(t, run, start, end, n);
    StaysLater(t, run, start, end, n);
    StaysShorter(t, run, start + 1, end, n);
    SearchStarts(t, run[start], i, cmd, n);
    var goal := run[start + 1].threads[i].goal;
    assert Seeks(run[end - 1].threads[i], goal);
    SearchStaysBefore(t, run, start + 1, end - 1, i, goal, n);
    RunStep(t, run, end - 1, i, n);
  }

  lemma StaysLater(t: Table, run: seq<State>, start: nat, end: nat, n: nat)
    requires Stays(t, run, start, end, n) && start < end
    ensures Stays(t, run, start + 1, end, n) && Linked(t, run[start].chains, n)
  {
  }

  /** Thread i goes through the table, or has an element, in all states from one to another. */
  ghost predicate Traverses(t: Table, run: seq<State>, start: nat, end: nat, i: nat) {
    && start <= end < |run|
    && forall r :: start <= r <= end ==>
         i < |run[r].threads| && GoalOf(run[r].threads[i]) == Any && Place(t, run[r].threads[i]).Some?
  }

  lemma AnySuits(t: Table, n: nat)
    ensures Suits(t, Any, n)
  {
  }

  lemma {:induction false} TraversalStaysBefore(t: Table, run: seq<State>, start: nat, end: nat, i: nat, n: nat)
    requires start <= end && IsRun(t, run) && Traverses(t, run, start, end, i) && Stays(t, run, start, end, n)
    requires forall r :: start <= r <= end ==> run[r].threads[i] != Using(n)
    requires Before(t, run[start].chains, run[start].threads[i], n)
    ensures Before(t, run[end].chains, run[end].threads[i], n)
    decreases end
  {
    hide Before, Linked, IsRun, Got, Seeks, Suits;
    if start < end {
      StaysShorter(t, run, start, end, n);
      TraversalStaysBefore(t, run, start, end - 1, i, n);
      assert GoalOf(run[end - 1].threads[i]) == Any && Place(t, run[end].threads[i]).Some?;
      AnySuits(t, n);
      RunStep(t, run, end - 1, i, n);
    }
  }

  /** A thread that takes the first element, then always the next, until there is none, has had every element that
      stayed in the table all the while. */
  lemma TraversalVisits(t: Table, run: seq<State>, start: nat, end: nat, i: nat, n: nat)
    requires IsRun(t, run) && Stays(t, run, start, end + 1, n) && Traverses(t, run, start + 1, end, i)
    requires i < |run[start].threads| && run[start].threads[i].Idle? && |run[start].chains| == t.buckets
    requires Next(t, run[start], i, First) == Some(run[start + 1])
    requires !run[end].threads[i].Using? && i < |run[end + 1].threads| && run[end + 1].threads[i] == Idle
    ensures exists r :: start < r <= end && run[r].threads[i] == Using(n)
  {
    hide IsRun, Before, Linked, Matches, Place, Next, Inv, Suits, Got, Seeks;
    if forall r :: start < r <= end ==> run[r].threads[i] != Using(n) {
      RunInv(t, run, start);
      StaysLater(t, run, start, end + 1, n);
      StaysShorter(t, run, start + 1, end + 1, n);
      SearchStarts(t, run[start], i, First, n);
      TraversalStaysBefore(t, run, start + 1, end, i, n);
      AnySuits(t, n);
      RunStep(t, run, end, i, n);
      IdleIsNowhere(t, run[end + 1].chains, n);
    }
  }

  lemma IdleIsNowhere(t: Table, chains: seq<seq<nat>>, n: nat)
    ensures !Before(t, chains, Idle, n)
  {
  }
}
