/** What `size()` counts under every interleaving (src/lockfree/lockfree_queue.cc:54,82,100). */
module QueueSize {
  import opened Sums
  import opened QueueMachine
  import opened QueueOrder
  import opened QueuePhases

  /** A push that has linked its node and not yet counted it. */
  function UncountedPush(pc: PC): nat {
    if pc.PushStore? || pc.PushSize? then 1 else 0
  }

  /** A pop that has taken its node off and not yet counted that. */
  function UncountedPop(pc: PC): nat {
    if pc.PopSize? then 1 else 0
  }

  function PushFn(): PC -> nat {
    pc => UncountedPush(pc)
  }

  function PopFn(): PC -> nat {
    pc => UncountedPop(pc)
  }

  /** Nodes linked and not popped, as far as they have been counted. It may be negative, for
      a pop can count before the push of its node does. */
  function Counted(s: State): int {
    |s.nodes| - 1 - |s.popped| - Sum(s.threads, PushFn()) + Sum(s.threads, PopFn())
  }

  /** `__size` is that number modulo 2^64. */
  predicate SizeOk(s: State) {
    s.size == Counted(s) % SIZES
  }

  lemma CountsMove(threads: seq<PC>, t: nat, pc: PC)
    requires t < |threads|
    ensures Sum(threads[t := pc], PushFn()) + UncountedPush(threads[t])
            == Sum(threads, PushFn()) + UncountedPush(pc)
    ensures Sum(threads[t := pc], PopFn()) + UncountedPop(threads[t])
            == Sum(threads, PopFn()) + UncountedPop(pc)
  {
    SumUpdate(threads, t, pc, PushFn());
    SumUpdate(threads, t, pc, PopFn());
  }

  lemma CountUp(n: int)
    ensures (n % SIZES + 1) % SIZES == (n + 1) % SIZES
  {
  }

  lemma CountDown(n: int)
    ensures (n % SIZES + SIZES - 1) % SIZES == (n - 1) % SIZES
  {
  }

  /** Linking and unlinking count nothing; the two fetch-and-adds do. */
  lemma StepCounts(s: State, t: nat, act: Action)
    requires Inv(s) && Enabled(s, t, act)
    ensures Counted(Next(s, t, act)) == Counted(s)
              + (if s.threads[t].PushSize? then 1 else if s.threads[t].PopSize? then -1 else 0)
  {
    assert PcOk(s.nodes, s.threads[t]);
    NodesAfter(s, t, act);
    CountsMove(s.threads, t, Next(s, t, act).threads[t]);
  }

  lemma StepKeepsSize(s: State, t: nat, act: Action)
    requires Inv(s) && SizeOk(s) && Enabled(s, t, act)
    ensures SizeOk(Next(s, t, act))
  {
    StepCounts(s, t, act);
    var n := Counted(s);
    SizeAfter(s, t, act);
    if s.threads[t].PushSize? {
      CountUp(n);
    } else if s.threads[t].PopSize? {
      CountDown(n);
    }
  }

  lemma SizeAfter(s: State, t: nat, act: Action)
    requires Inv(s) && Enabled(s, t, act)
    ensures Next(s, t, act).size ==
              if s.threads[t].PushSize? then (s.size + 1) % SIZES
              else if s.threads[t].PopSize? then (s.size + SIZES - 1) % SIZES
              else s.size
  {
  }

  lemma {:induction false} RunKeepsSize(run: seq<State>, i: nat)
    requires IsRun(run) && i < |run|
    ensures SizeOk(run[i])
  {
    if i == 0 {
      SumIsZero(run[0].threads, PushFn());
      SumIsZero(run[0].threads, PopFn());
    } else {
      RunKeepsSize(run, i - 1);
      RunKeepsInv(run, i - 1);
      assert StepAt(run, i - 1);
      var t: nat, act: Action :| Enabled(run[i - 1], t, act) && run[i] == Next(run[i - 1], t, act);
      StepKeepsSize(run[i - 1], t, act);
    }
  }

  /** With no call in progress, `size()` is the number of values linked and not popped,
      modulo 2^64: what pops can still reach, plus what was lost. */
  lemma SizeAtRest(run: seq<State>, i: nat)
    requires IsRun(run) && i < |run| && Quiescent(run[i])
    ensures |run[i].popped| < |run[i].nodes|
    ensures run[i].size == (|run[i].nodes| - 1 - |run[i].popped|) % SIZES
  {
    RunKeepsSize(run, i);
    RunKeepsInv(run, i);
    SumIsZero(run[i].threads, PushFn());
    SumIsZero(run[i].threads, PopFn());
    IncreasingFits(run[i].popped, |run[i].nodes|);
  }

  lemma {:induction false} IncreasingFits(popped: seq<nat>, n: nat)
    requires n > 0 && Increasing(popped) && forall k :: 0 <= k < |popped| ==> 0 < popped[k] < n
    ensures |popped| < n
    decreases |popped|
  {
    if |popped| > 0 {
      IncreasingFits(popped[..|popped| - 1], popped[|popped| - 1]);
    }
  }
}
