/** Concurrent pushes followed by concurrent pops: from a queue whose tail hint lies on the
    chain, nothing is lost and nothing overtakes. */
module QueuePhases {
  import opened Wrappers
  import opened QueueMachine
  import opened QueueOrder
  import opened QueueChain

  predicate Quiescent(s: State) {
    forall t :: 0 <= t < |s.threads| ==> s.threads[t].Idle?
  }

  /** n is `__head` or reachable from it. */
  predicate OnChain(nodes: seq<Node>, n: nat)
    requires Ordered(nodes)
  {
    n == 0 || n in Chain(nodes, 0)
  }

  predicate HintOnChain(s: State) {
    Ordered(s.nodes) && OnChain(s.nodes, s.tail)
  }

  /** The nodes numbered from lo up to, not including, hi, in link order. */
  function Numbers(lo: nat, hi: nat): seq<nat>
    requires lo <= hi
  {
    seq(hi - lo, k requires 0 <= k < hi - lo => lo + k)
  }

  // ---- Pushing ----

  predicate OnlyPushes(s: State) {
    forall t :: 0 <= t < |s.threads| ==>
      s.threads[t].Idle? || s.threads[t].PushLoad? || s.threads[t].PushCas?
      || s.threads[t].PushStore? || s.threads[t].PushSize?
  }

  predicate PushLocal(nodes: seq<Node>, pc: PC)
    requires Ordered(nodes)
  {
    match pc
    case PushCas(_, at) => OnChain(nodes, at)
    case PushStore(n) => OnChain(nodes, n)
    case _ => true
  }

  ghost predicate PushPhase(s: State) {
    && Inv(s) && OnlyPushes(s) && HintOnChain(s)
    && forall t :: 0 <= t < |s.threads| ==> PushLocal(s.nodes, s.threads[t])
  }

  lemma PushStepLinks(s: State, t: nat)
    requires PushPhase(s) && Enabled(s, t, Advance)
    requires s.threads[t].PushCas? && s.nodes[s.threads[t].at].next == None
    ensures var s' := Next(s, t, Advance);
            && PushPhase(s') && |s'.nodes| == |s.nodes| + 1 && s'.popped == s.popped
            && Chain(s'.nodes, 0) == Chain(s.nodes, 0) + [|s.nodes|]
  {
    var s' := Next(s, t, Advance);
    StepKeepsInv(s, t, Advance);
    assert PushLocal(s.nodes, s.threads[t]);
    PushReachesIff(s, t);
    forall u | 0 <= u < |s'.threads|
      ensures PushLocal(s'.nodes, s'.threads[u])
    {
      assert PushLocal(s.nodes, s.threads[u]);
    }
  }

  lemma NextOnChain(nodes: seq<Node>, at: nat)
    requires Ordered(nodes) && at < |nodes| && OnChain(nodes, at) && nodes[at].next.Some?
    ensures OnChain(nodes, nodes[at].next.value)
  {
    ChainClosed(nodes, 0, at);
  }

  lemma {:induction false} ChainClosed(nodes: seq<Node>, i: nat, at: nat)
    requires Ordered(nodes) && i < |nodes| && at < |nodes| && nodes[at].next.Some?
    requires at == i || at in Chain(nodes, i)
    ensures nodes[at].next.value in Chain(nodes, i)
    decreases |nodes| - i
  {
    if at != i {
      ChainClosed(nodes, nodes[i].next.value, at);
    }
  }

  lemma PushStepKeeps(s: State, t: nat, act: Action)
    requires PushPhase(s) && Enabled(s, t, act) && OnlyPushes(Next(s, t, act))
    requires !(s.threads[t].PushCas? && s.nodes[s.threads[t].at].next == None)
    ensures var s' := Next(s, t, act);
            PushPhase(s') && s'.nodes == s.nodes && s'.popped == s.popped
  {
    var s' := Next(s, t, act);
    StepKeepsInv(s, t, act);
    assert PushLocal(s.nodes, s.threads[t]) && PcOk(s.nodes, s.threads[t]);
    assert !s'.threads[t].PopLoad?;
    if s.threads[t].PushCas? {
      NextOnChain(s.nodes, s.threads[t].at);
    }
    forall u | 0 <= u < |s'.threads|
      ensures PushLocal(s'.nodes, s'.threads[u])
    {
      assert PushLocal(s.nodes, s.threads[u]);
    }
  }

  lemma NumbersMeet(c: seq<nat>, lo: nat, mid: nat, hi: nat)
    requires lo <= mid <= hi
    ensures c + Numbers(lo, mid) + Numbers(mid, hi) == c + Numbers(lo, hi)
    ensures c + Numbers(lo, lo) == c
  {
  }

  lemma PushStep(s: State, t: nat, act: Action)
    requires PushPhase(s) && Enabled(s, t, act) && OnlyPushes(Next(s, t, act))
    ensures var s' := Next(s, t, act);
            && PushPhase(s') && |s.nodes| <= |s'.nodes| && s'.popped == s.popped
            && Chain(s'.nodes, 0) == Chain(s.nodes, 0) + Numbers(|s.nodes|, |s'.nodes|)
  {
    if s.threads[t].PushCas? && s.nodes[s.threads[t].at].next == None {
      PushStepLinks(s, t);
      assert Numbers(|s.nodes|, |s.nodes| + 1) == [|s.nodes|];
    } else {
      PushStepKeeps(s, t, act);
    }
  }

  /** From a quiescent queue whose hint is on the chain, any interleaving of pushes keeps the
      hint there and appends every linked node to the chain, in link order. */
  lemma {:induction false} PushesAllReach(run: seq<State>, i: nat, j: nat)
    requires IsRun(run) && i <= j < |run|
    requires Quiescent(run[i]) && HintOnChain(run[i])
    requires forall k :: i <= k <= j ==> OnlyPushes(run[k])
    ensures PushPhase(run[j]) && |run[i].nodes| <= |run[j].nodes| && Ordered(run[i].nodes)
    ensures Chain(run[j].nodes, 0)
            == Chain(run[i].nodes, 0) + Numbers(|run[i].nodes|, |run[j].nodes|)
    ensures run[j].popped == run[i].popped
    decreases j
  {
    if i == j {
      RunKeepsInv(run, i);
      NumbersMeet(Chain(run[i].nodes, 0), |run[i].nodes|, |run[i].nodes|, |run[i].nodes|);
    } else {
      PushesAllReach(run, i, j - 1);
      PushStepAt(run, j - 1);
      NumbersMeet(Chain(run[i].nodes, 0), |run[i].nodes|, |run[j - 1].nodes|, |run[j].nodes|);
    }
  }

  lemma PushStepAt(run: seq<State>, i: nat)
    requires IsRun(run) && i + 1 < |run| && PushPhase(run[i]) && OnlyPushes(run[i + 1])
    ensures PushPhase(run[i + 1]) && |run[i].nodes| <= |run[i + 1].nodes|
    ensures run[i + 1].popped == run[i].popped
    ensures Chain(run[i + 1].nodes, 0)
            == Chain(run[i].nodes, 0) + Numbers(|run[i].nodes|, |run[i + 1].nodes|)
  {
    assert StepAt(run, i);
    var t: nat, act: Action :| Enabled(run[i], t, act) && run[i + 1] == Next(run[i], t, act);
    PushStep(run[i], t, act);
  }

  // ---- Popping ----

  predicate OnlyPops(s: State) {
    forall t :: 0 <= t < |s.threads| ==>
      s.threads[t].Idle? || s.threads[t].PopLoad? || s.threads[t].PopNext? || s.threads[t].PopCas?
      || s.threads[t].PopReset? || s.threads[t].PopSize? || s.threads[t].PopClear?
  }

  /** With no push about, a popper's reading stays true until its node is popped. */
  predicate PopLocal(s: State, pc: PC) {
    pc.PopCas? && pc.h < |s.nodes| && pc.h !in s.popped ==> s.nodes[pc.h].next == pc.after
  }

  ghost predicate PopPhase(s: State) {
    && Inv(s) && OnlyPops(s)
    && forall t :: 0 <= t < |s.threads| ==> PopLocal(s, s.threads[t])
  }

  lemma PopStepTakes(s: State, t: nat)
    requires PopPhase(s) && Enabled(s, t, Advance)
    requires s.threads[t].PopCas? && s.nodes[0].next == Some(s.threads[t].h)
    ensures var s' := Next(s, t, Advance);
            && PopPhase(s')
            && s'.popped + Chain(s'.nodes, 0) == s.popped + Chain(s.nodes, 0)
  {
    var s', h := Next(s, t, Advance), s.threads[t].h;
    assert PopLocal(s, s.threads[t]) && PcOk(s.nodes, s.threads[t]);
    assert h !in s.popped;
    PopTakesOneIff(s, t);
    assert s.popped + [h] + Chain(s.nodes, 0)[1..] == s.popped + Chain(s.nodes, 0);
    StepKeepsInv(s, t, Advance);
    forall u | 0 <= u < |s'.threads|
      ensures PopLocal(s', s'.threads[u])
    {
      assert PopLocal(s, s.threads[u]) && PcOk(s.nodes, s.threads[u]);
      assert forall n :: n in s.popped ==> n in s'.popped;
    }
  }

  lemma PopStepReads(s: State, t: nat, act: Action)
    requires PopPhase(s) && Enabled(s, t, act) && OnlyPops(Next(s, t, act))
    requires !(s.threads[t].PopCas? && s.nodes[0].next == Some(s.threads[t].h))
    ensures var s' := Next(s, t, act);
            PopPhase(s') && s'.popped == s.popped && Chain(s'.nodes, 0) == Chain(s.nodes, 0)
  {
    var s' := Next(s, t, act);
    StepKeepsInv(s, t, act);
    NodesAfter(s, t, act);
    assert PopLocal(s, s.threads[t]) && PcOk(s.nodes, s.threads[t]);
    assert !s'.threads[t].PushLoad?;
    OtherStepsKeepChain(s, t, act);
    if s.threads[t].PopClear? {
      ReturnerHolds(s, t);
    }
    forall u | 0 <= u < |s'.threads|
      ensures PopLocal(s', s'.threads[u])
    {
      assert PopLocal(s, s.threads[u]) && PcOk(s.nodes, s.threads[u]);
    }
  }

  lemma PopStepKeeps(s: State, t: nat, act: Action)
    requires PopPhase(s) && Enabled(s, t, act) && OnlyPops(Next(s, t, act))
    ensures var s' := Next(s, t, act);
            && PopPhase(s')
            && s'.popped + Chain(s'.nodes, 0) == s.popped + Chain(s.nodes, 0)
  {
    if s.threads[t].PopCas? && s.nodes[0].next == Some(s.threads[t].h) {
      PopStepTakes(s, t);
    } else {
      PopStepReads(s, t, act);
    }
  }

  /** From a quiescent queue, any interleaving of pops takes the chain off in order: what has
      been taken and what is left are together what was there. */
  lemma {:induction false} PopsTakeInOrder(run: seq<State>, i: nat, j: nat)
    requires IsRun(run) && i <= j < |run| && Quiescent(run[i])
    requires forall k :: i <= k <= j ==> OnlyPops(run[k])
    ensures PopPhase(run[j]) && Ordered(run[i].nodes)
    ensures run[j].popped + Chain(run[j].nodes, 0) == run[i].popped + Chain(run[i].nodes, 0)
    decreases j
  {
    RunKeepsInv(run, i);
    if i < j {
      PopsTakeInOrder(run, i, j - 1);
      assert StepAt(run, j - 1);
      var t: nat, act: Action :| Enabled(run[j - 1], t, act) && run[j] == Next(run[j - 1], t, act);
      assert OnlyPops(run[j]);
      PopStepKeeps(run[j - 1], t, act);
    }
  }

  /** A pop answers "empty" only when the chain is, and then puts the hint back on it. */
  lemma EmptyAnswerIsTrue(s: State, t: nat)
    requires Inv(s) && Enabled(s, t, Advance)
    requires Next(s, t, Advance).threads[t].PopReset?
    ensures Chain(s.nodes, 0) == []
  {
  }

  lemma ResetRestoresHint(s: State, t: nat)
    requires Inv(s) && Enabled(s, t, Advance) && s.threads[t].PopReset?
    ensures HintOnChain(Next(s, t, Advance))
  {
  }

  /** A phase of pushes, then a phase of pops: exactly the linked values come out, in link
      order, each once; if the chain ends up empty, all of them. */
  lemma TwoPhases(run: seq<State>, i: nat, j: nat, k: nat)
    requires IsRun(run) && i <= j <= k < |run|
    requires Quiescent(run[i]) && HintOnChain(run[i]) && Quiescent(run[j])
    requires forall m :: i <= m <= j ==> OnlyPushes(run[m])
    requires forall m :: j <= m <= k ==> OnlyPops(run[m])
    ensures Inv(run[i]) && Inv(run[k]) && |run[i].nodes| <= |run[j].nodes|
    ensures run[k].popped + Chain(run[k].nodes, 0)
            == run[i].popped + (Chain(run[i].nodes, 0) + Numbers(|run[i].nodes|, |run[j].nodes|))
    ensures Chain(run[k].nodes, 0) == [] ==>
              run[k].popped
              == run[i].popped + (Chain(run[i].nodes, 0) + Numbers(|run[i].nodes|, |run[j].nodes|))
  {
    RunKeepsInv(run, i);
    PushesAllReach(run, i, j);
    PopsTakeInOrder(run, j, k);
    assert run[k].popped + [] == run[k].popped;
  }

  lemma FreshQueueIsReady(s: State)
    requires Init(s)
    ensures Quiescent(s) && HintOnChain(s) && Chain(s.nodes, 0) == []
  {
  }

  // ---- What the code does not give ----

  ghost predicate Reachable(s: State) {
    exists run: seq<State> :: IsRun(run) && run[|run| - 1] == s
  }

  lemma ReachNext(s: State, t: nat, act: Action)
    requires Reachable(s) && Enabled(s, t, act)
    ensures Reachable(Next(s, t, act))
  {
    var run: seq<State> :| IsRun(run) && run[|run| - 1] == s;
    var longer := run + [Next(s, t, act)];
    assert Step(s, Next(s, t, act));
    forall i: nat | i + 1 < |longer|
      ensures StepAt(longer, i)
    {
      assert i + 1 < |run| ==> StepAt(run, i);
    }
    assert IsRun(longer);
  }

  lemma InitIsReachable(s: State)
    requires Init(s)
    ensures Reachable(s)
  {
    assert IsRun([s]);
  }

  lemma ReachableInv(s: State)
    requires Reachable(s)
    ensures Inv(s)
  {
    var run: seq<State> :| IsRun(run) && run[|run| - 1] == s;
    RunKeepsInv(run, |run| - 1);
  }

  /** Two threads, one value pushed by the first. */
  function OneValue(threads: seq<PC>): State {
    State([Node(0, Some(1)), Node(7, None)], 1, 1, threads, [], multiset{}, false)
  }

  function NoValue(threads: seq<PC>): State {
    State([Node(0, None)], 0, 0, threads, [], multiset{}, false)
  }

  lemma FirstPushReachable()
    ensures Reachable(NoValue([PushCas(7, 0), Idle]))
  {
    InitIsReachable(NoValue([Idle, Idle]));
    ReachNext(NoValue([Idle, Idle]), 0, BeginPush(7));
    ReachNext(NoValue([PushLoad(7), Idle]), 0, Advance);
  }

  lemma FirstLinkReachable()
    ensures Reachable(OneValue([PushStore(1), Idle]).(tail := 0, size := 0))
  {
    FirstPushReachable();
    ReachNext(NoValue([PushCas(7, 0), Idle]), 0, Advance);
    assert LinkAt([Node(0, None)], 0, 7) == [Node(0, Some(1)), Node(7, None)];
  }

  lemma OneValueReachable()
    ensures Reachable(OneValue([Idle, Idle]))
  {
    FirstLinkReachable();
    ReachNext(OneValue([PushStore(1), Idle]).(tail := 0, size := 0), 0, Advance);
    ReachNext(OneValue([PushSize, Idle]).(size := 0), 0, Advance);
  }

  lemma StaleReadingReachable()
    ensures Reachable(OneValue([Idle, PopCas(1, None)]))
  {
    OneValueReachable();
    ReachNext(OneValue([Idle, Idle]), 1, BeginPop);
    ReachNext(OneValue([Idle, PopLoad]), 1, Advance);
    ReachNext(OneValue([Idle, PopNext(1)]), 1, Advance);
  }

  function TwoLinked(): State {
    OneValue([PushStore(2), PopCas(1, None)])
      .(nodes := [Node(0, Some(1)), Node(7, Some(2)), Node(8, None)])
  }

  lemma TwoLinkedReachable()
    ensures Reachable(TwoLinked())
  {
    StaleReadingReachable();
    var s := OneValue([Idle, PopCas(1, None)]);
    ReachNext(s, 0, BeginPush(8));
    ReachNext(s.(threads := [PushLoad(8), PopCas(1, None)]), 0, Advance);
    ReachNext(s.(threads := [PushCas(8, 1), PopCas(1, None)]), 0, Advance);
  }

  /** One pop and one push on a queue of one value: the pop reads that the node has no
      successor, the push links one behind it, the pop takes the node off. The pushed value
      is linked and not popped, yet no pop can reach it. */
  lemma PushCanBeLost()
    ensures exists s: State ::
              Reachable(s) && Inv(s) && |s.nodes| == 3 && s.popped == [1] && Chain(s.nodes, 0) == []
  {
    TwoLinkedReachable();
    ReachNext(TwoLinked(), 1, Advance);
    var lost := Next(TwoLinked(), 1, Advance);
    ReachableInv(lost);
    assert |lost.nodes| == 3 && lost.popped == [1];
    assert lost.nodes[0].next == None;
    assert Chain(lost.nodes, 0) == [];
  }
}
