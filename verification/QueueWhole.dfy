/** Exactly which runs of `LockFreeQueue` lose nothing: those in which every step is harmless
    (src/lockfree/lockfree_queue.cc:40-56, 73-81). */
module QueueWhole {
  import opened Wrappers
  import opened QueueMachine
  import opened QueueOrder
  import opened QueueChain
  import opened QueuePhases
  import opened QueueLinear

  /** Every linked node has been popped or can be, in link order. */
  predicate Whole(s: State)
    requires Ordered(s.nodes)
  {
    s.popped + Chain(s.nodes, 0) == Numbers(1, |s.nodes|)
  }

  predicate Short(s: State)
    requires Ordered(s.nodes)
  {
    |s.popped| + |Chain(s.nodes, 0)| < |s.nodes| - 1
  }

  lemma LinkKeepsWhole(s: State, t: nat)
    requires Inv(s) && Links(s, t, Advance)
    ensures var s' := Next(s, t, Advance);
            && Ordered(s'.nodes)
            && (Whole(s) && OnChain(s.nodes, s.threads[t].at) ==> Whole(s'))
            && (Whole(s) && !OnChain(s.nodes, s.threads[t].at) ==> Short(s'))
            && (Short(s) ==> Short(s'))
  {
    PushReachesIff(s, t);
    var n := |s.nodes|;
    assert Numbers(1, n + 1) == Numbers(1, n) + [n];
    assert s.popped + (Chain(s.nodes, 0) + [n]) == s.popped + Chain(s.nodes, 0) + [n];
    if Whole(s) {
      assert |s.popped| + |Chain(s.nodes, 0)| == |Numbers(1, n)|;
    }
  }

  lemma TakeKeepsWhole(s: State, t: nat)
    requires Inv(s) && Takes(s, t, Advance)
    ensures var s' := Next(s, t, Advance);
            && Ordered(s'.nodes)
            && (Whole(s) && s.nodes[s.threads[t].h].next == s.threads[t].after ==> Whole(s'))
            && (Whole(s) && s.nodes[s.threads[t].h].next != s.threads[t].after ==> Short(s'))
            && (Short(s) ==> Short(s'))
  {
    PopTakesOneIff(s, t);
    var L, h := Chain(s.nodes, 0), s.threads[t].h;
    assert s.popped + [h] + L[1..] == s.popped + L;
    if Whole(s) {
      assert |s.popped| + |L| == |Numbers(1, |s.nodes|)|;
    }
  }

  lemma StepKeepsWholeIff(s: State, t: nat, act: Action)
    requires Inv(s) && Enabled(s, t, act)
    ensures var s' := Next(s, t, act);
            && Ordered(s'.nodes)
            && (Whole(s) && Harmless(s, t, act) ==> Whole(s'))
            && (Whole(s) && !Harmless(s, t, act) ==> Short(s'))
            && (Short(s) ==> Short(s'))
  {
    if Links(s, t, act) {
      LinkKeepsWhole(s, t);
    } else if Takes(s, t, act) {
      TakeKeepsWhole(s, t);
    } else {
      OtherStepsKeepChain(s, t, act);
      NodesAfter(s, t, act);
    }
  }

  lemma ShortIsNotWhole(s: State)
    requires Ordered(s.nodes) && Short(s)
    ensures !Whole(s)
  {
    assert |s.popped + Chain(s.nodes, 0)| != |Numbers(1, |s.nodes|)|;
  }

  lemma StepWhole(s: State, s': State)
    requires Inv(s) && Step(s, s')
    ensures Ordered(s'.nodes)
    ensures Whole(s) && HarmlessStep(s, s') ==> Whole(s')
    ensures Whole(s) && !HarmlessStep(s, s') ==> Short(s')
    ensures Short(s) ==> Short(s')
  {
    if HarmlessStep(s, s') {
      var t: nat, act: Action :| Enabled(s, t, act) && s' == Next(s, t, act) && Harmless(s, t, act);
      StepKeepsWholeIff(s, t, act);
    } else {
      var t: nat, act: Action :| Enabled(s, t, act) && s' == Next(s, t, act);
      StepKeepsWholeIff(s, t, act);
    }
  }

  lemma OneMoreHarmless(run: seq<State>, n: nat)
    ensures HarmlessUpTo(run, n + 1) <==> HarmlessUpTo(run, n) && HarmlessAt(run, n)
  {
  }

  lemma {:induction false} WholeOrShort(run: seq<State>, i: nat)
    requires IsRun(run) && i < |run|
    ensures Ordered(run[i].nodes)
    ensures HarmlessUpTo(run, i) ==> Whole(run[i])
    ensures !HarmlessUpTo(run, i) ==> Short(run[i])
  {
    if i == 0 {
      assert Numbers(1, 1) == [];
    } else {
      WholeOrShort(run, i - 1);
      RunKeepsInv(run, i - 1);
      assert StepAt(run, i - 1);
      StepWhole(run[i - 1], run[i]);
      OneMoreHarmless(run, i - 1);
    }
  }

  /** In any run, what has been popped and what pops can still reach are together all linked
      values in link order if and only if every step so far was harmless; otherwise some value
      is lost for good. */
  lemma NothingLostIff(run: seq<State>, i: nat)
    requires IsRun(run) && i < |run|
    ensures Ordered(run[i].nodes) && |run[i].nodes| > 0
    ensures run[i].popped + Chain(run[i].nodes, 0) == Numbers(1, |run[i].nodes|)
            <==> HarmlessUpTo(run, i)
  {
    WholeOrShort(run, i);
    if Short(run[i]) {
      ShortIsNotWhole(run[i]);
    }
  }
}
