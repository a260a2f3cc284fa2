/** Pops are lock-free, and a node handed out is cut loose from the nodes that were linked
    before (src/lockfree/lockfree_queue.cc:40-56). */
module QueueProgress {
  import opened Iteration
  import opened Wrappers
  import opened QueueMachine
  import opened QueueOrder

  // ---- A pop tries again only because another pop succeeded ----

  /** The node a pop is working on is still the first one, or has been popped. */
  predicate ReadingFirst(s: State, pc: PC) {
    (pc.PopNext? || pc.PopCas?) && |s.nodes| > 0 ==> s.nodes[0].next == Some(pc.h) || pc.h in s.popped
  }

  predicate AllReadFirst(s: State) {
    forall t :: 0 <= t < |s.threads| ==> ReadingFirst(s, s.threads[t])
  }

  lemma StepReadsFirst(s: State, t: nat, act: Action)
    requires Inv(s) && AllReadFirst(s) && Enabled(s, t, act)
    ensures AllReadFirst(Next(s, t, act))
  {
    var s' := Next(s, t, act);
    NodesAfter(s, t, act);
    assert PcOk(s.nodes, s.threads[t]) && ReadingFirst(s, s.threads[t]);
    forall u | 0 <= u < |s'.threads|
      ensures ReadingFirst(s', s'.threads[u])
    {
      assert ReadingFirst(s, s.threads[u]);
      assert forall n :: n in s.popped ==> n in s'.popped;
      if s'.popped != s.popped {
        assert s'.popped[|s.popped|] == s.threads[t].h;
      }
    }
  }

  lemma {:induction false} RunReadsFirst(run: seq<State>, i: nat)
    requires IsRun(run) && i < |run|
    ensures AllReadFirst(run[i])
  {
    if i > 0 {
      RunReadsFirst(run, i - 1);
      RunKeepsInv(run, i - 1);
      assert StepAt(run, i - 1);
      var t: nat, act: Action :| Enabled(run[i - 1], t, act) && run[i] == Next(run[i - 1], t, act);
      StepReadsFirst(run[i - 1], t, act);
    }
  }

  /** The compare-and-swap of a pop fails if and only if another pop has taken its node, and
      the pop then goes on with a node that no pop has taken, or finds the queue empty. So
      every failure of one pop is paid for by the success of another. */
  lemma PopFailsIffTaken(run: seq<State>, i: nat, t: nat)
    requires IsRun(run) && i < |run| && Enabled(run[i], t, Advance) && run[i].threads[t].PopCas?
    ensures var s, s' := run[i], Next(run[i], t, Advance);
            var h, pc' := s.threads[t].h, s'.threads[t];
            && |s.nodes| > 0
            && (s'.popped == s.popped <==> h in s.popped)
            && (h in s.popped ==> pc'.PopReset? || (pc'.PopNext? && pc'.h !in s.popped && h < pc'.h))
            && (h !in s.popped ==> pc' == PopSize(h) && s'.popped == s.popped + [h])
  {
    RunReadsFirst(run, i);
    RunKeepsInv(run, i);
    var s := run[i];
    assert PcOk(s.nodes, s.threads[t]) && ReadingFirst(s, s.threads[t]);
    assert s.popped != s.popped + [s.threads[t].h];
  }

  // ---- Nodes handed out ----

  /** From node n on, only nodes linked at position lo or later can be reached. */
  predicate LeadsPast(s: State, n: nat, lo: nat) {
    n < |s.nodes| && (s.nodes[n].next.Some? ==> lo <= s.nodes[n].next.value)
  }

  lemma StepLeadsPast(s: State, t: nat, act: Action, n: nat, lo: nat)
    requires Inv(s) && Enabled(s, t, act) && LeadsPast(s, n, lo) && 0 < n && lo <= |s.nodes|
    ensures LeadsPast(Next(s, t, act), n, lo) && lo <= |Next(s, t, act).nodes|
  {
    NodesAfter(s, t, act);
    assert PcOk(s.nodes, s.threads[t]);
  }

  lemma ReturnCutsLoose(s: State, t: nat)
    requires Inv(s) && Enabled(s, t, Advance) && s.threads[t].PopClear?
    ensures 0 < s.threads[t].h
    ensures LeadsPast(Next(s, t, Advance), s.threads[t].h, |s.nodes|)
    ensures |Next(s, t, Advance).nodes| == |s.nodes|
  {
    assert PcOk(s.nodes, s.threads[t]);
  }

  lemma RunStepLeadsPast(run: seq<State>, j: nat, n: nat, lo: nat)
    requires IsRun(run) && j + 1 < |run| && LeadsPast(run[j], n, lo) && 0 < n && lo <= |run[j].nodes|
    ensures LeadsPast(run[j + 1], n, lo) && lo <= |run[j + 1].nodes|
  {
    RunKeepsInv(run, j);
    assert StepAt(run, j);
    var t: nat, act: Action :| Enabled(run[j], t, act) && run[j + 1] == Next(run[j], t, act);
    StepLeadsPast(run[j], t, act, n, lo);
  }

  /** A node that a pop has returned never again leads to a node linked before its return. */
  lemma {:induction false} ReturnedIsCutLoose(run: seq<State>, i: nat, j: nat, t: nat)
    requires IsRun(run) && i < j < |run| && Enabled(run[i], t, Advance)
    requires run[i].threads[t].PopClear? && run[i + 1] == Next(run[i], t, Advance)
    ensures LeadsPast(run[j], run[i].threads[t].h, |run[i].nodes|)
    ensures |run[i].nodes| <= |run[j].nodes|
    decreases j
  {
    RunKeepsInv(run, i);
    ReturnCutsLoose(run[i], t);
    if i + 1 < j {
      ReturnedIsCutLoose(run, i, j - 1, t);
      RunStepLeadsPast(run, j - 1, run[i].threads[t].h, |run[i].nodes|);
    }
  }

  // ---- A push left alone ----

  /** One step of thread t, if it is inside a call. */
  function Alone(s: State, t: nat): State {
    if Enabled(s, t, Advance) then Next(s, t, Advance) else s
  }

  function Solo(t: nat): State -> State {
    s => Alone(s, t)
  }

  function AloneFor(s: State, t: nat, n: nat): State {
    Iterate(Solo(t), s, n)
  }

  /** A push that is left alone links its node after at most as many failed attempts as there
      are nodes behind the one it looks at. */
  lemma {:induction false} PushLinksAlone(s: State, t: nat) returns (n: nat, s': State)
    requires Inv(s) && t < |s.threads| && s.threads[t].PushCas?
    ensures PcOk(s.nodes, s.threads[t]) && 1 <= n <= WalkLeft(s, t) + 1
    ensures Path(Solo(t), s, s', n) && AloneFor(s, t, n) == s'
    ensures |s'.threads| == |s.threads| && s'.threads[t] == PushStore(|s.nodes|)
    ensures |s'.nodes| == |s.nodes| + 1 && s'.nodes[|s.nodes|] == Node(s.threads[t].v, None)
    ensures s'.size == s.size
    decreases if PcOk(s.nodes, s.threads[t]) then WalkLeft(s, t) else 0
  {
    assert PcOk(s.nodes, s.threads[t]);
    var s1 := Alone(s, t);
    StepKeepsInv(s, t, Advance);
    WalkTerminates(s, t, t, Advance);
    PathOfOne(Solo(t), s);
    if s1.threads[t].PushCas? {
      assert s1.nodes == s.nodes && s1.threads[t].v == s.threads[t].v && s1.size == s.size;
      var m;
      m, s' := PushLinksAlone(s1, t);
      PathJoin(Solo(t), s, s1, s', 1, m);
      n := 1 + m;
    } else {
      n, s' := 1, s1;
    }
    PathIterates(Solo(t), s, s', n);
  }
}
