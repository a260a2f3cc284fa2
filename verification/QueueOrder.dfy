/** Under every interleaving values leave the queue in the order in which they were linked,
    each at most once, whatever the tail hint says. */
module QueueOrder {
  import opened Wrappers
  import opened Sums
  import opened QueueMachine

  // ---- The invariant ----

  /** Links only lead forward in link order. */
  predicate Ordered(nodes: seq<Node>) {
    && |nodes| > 0
    && forall i :: 0 <= i < |nodes| ==>
         nodes[i].next.Some? ==> i < nodes[i].next.value < |nodes|
  }

  /** Every node popped so far was linked before the node now at the head. */
  predicate PoppedOk(nodes: seq<Node>, popped: seq<nat>) {
    && |nodes| > 0
    && (forall k :: 0 <= k < |popped| ==> 0 < popped[k] < |nodes|)
    && (forall j, k :: 0 <= j < k < |popped| ==> popped[j] < popped[k])
    && (nodes[0].next.Some? ==> forall k :: 0 <= k < |popped| ==> popped[k] < nodes[0].next.value)
  }

  /** A popper's reading of the successor is out of date only by a push that came after it. */
  predicate ReadingOk(s: State, pc: PC) {
    pc.PopCas? && pc.h < |s.nodes| && pc.h !in s.popped && pc.after.Some? ==>
      s.nodes[pc.h].next == pc.after
  }

  function PendingOf(pc: PC, n: nat): nat {
    if (pc.PopSize? && pc.h == n) || (pc.PopClear? && pc.h == n) then 1 else 0
  }

  function PendingFn(n: nat): PC -> nat {
    pc => PendingOf(pc, n)
  }

  /** Threads that have taken node n off and not yet returned it. */
  function Pending(s: State, n: nat): nat {
    Sum(s.threads, PendingFn(n))
  }

  ghost predicate ReturnsOk(s: State) {
    forall n: nat :: s.returned[n] + Pending(s, n) == if n in s.popped then 1 else 0
  }

  predicate PcsOk(s: State) {
    forall t :: 0 <= t < |s.threads| ==> PcOk(s.nodes, s.threads[t]) && ReadingOk(s, s.threads[t])
  }

  ghost predicate Inv(s: State) {
    && Ordered(s.nodes) && s.tail < |s.nodes| && PoppedOk(s.nodes, s.popped)
    && PcsOk(s) && ReturnsOk(s) && !s.fault
  }

  // ---- Steps ----

  lemma PendingMoves(s: State, t: nat, pc: PC, n: nat)
    requires t < |s.threads|
    ensures Sum(s.threads[t := pc], PendingFn(n)) + PendingOf(s.threads[t], n)
            == Pending(s, n) + PendingOf(pc, n)
  {
    SumUpdate(s.threads, t, pc, PendingFn(n));
  }

  /** A step that leaves the nodes and the log of pops alone. */
  lemma ReadKeeps(s: State, s': State, t: nat)
    requires Inv(s) && t < |s.threads| && |s'.threads| == |s.threads|
    requires s'.threads == s.threads[t := s'.threads[t]]
    requires s'.nodes == s.nodes && s'.popped == s.popped && s'.returned == s.returned && !s'.fault
    requires s'.tail < |s'.nodes|
    requires PcOk(s.nodes, s'.threads[t]) && ReadingOk(s, s'.threads[t])
    requires forall n :: PendingOf(s'.threads[t], n) == PendingOf(s.threads[t], n)
    ensures Inv(s')
  {
    forall n: nat
      ensures s'.returned[n] + Pending(s', n) == if n in s'.popped then 1 else 0
    {
      PendingMoves(s, t, s'.threads[t], n);
    }
  }

  lemma LinkKeeps(s: State, t: nat)
    requires Inv(s) && Enabled(s, t, Advance) && s.threads[t].PushCas?
    requires s.nodes[s.threads[t].at].next == None
    ensures Inv(Next(s, t, Advance))
  {
    var s' := Next(s, t, Advance);
    forall n: nat
      ensures s'.returned[n] + Pending(s', n) == if n in s'.popped then 1 else 0
    {
      PendingMoves(s, t, s'.threads[t], n);
    }
    forall u | 0 <= u < |s'.threads|
      ensures PcOk(s'.nodes, s'.threads[u]) && ReadingOk(s', s'.threads[u])
    {
      assert u != t ==> PcOk(s.nodes, s.threads[u]) && ReadingOk(s, s.threads[u]);
    }
  }

  lemma UnlinkKeeps(s: State, t: nat)
    requires Inv(s) && Enabled(s, t, Advance) && s.threads[t].PopCas?
    requires s.nodes[0].next == Some(s.threads[t].h)
    ensures Inv(Next(s, t, Advance))
  {
    var s' := Next(s, t, Advance);
    var h := s.threads[t].h;
    assert s'.popped[|s.popped|] == h;
    forall n: nat
      ensures s'.returned[n] + Pending(s', n) == if n in s'.popped then 1 else 0
    {
      PendingMoves(s, t, s'.threads[t], n);
    }
    forall u | 0 <= u < |s'.threads|
      ensures PcOk(s'.nodes, s'.threads[u]) && ReadingOk(s', s'.threads[u])
    {
      assert u != t ==> PcOk(s.nodes, s.threads[u]) && ReadingOk(s, s.threads[u]);
      assert forall x :: x in s.popped ==> x in s'.popped;
    }
  }

  lemma ClearKeeps(s: State, t: nat)
    requires Inv(s) && Enabled(s, t, Advance) && s.threads[t].PopClear?
    ensures Inv(Next(s, t, Advance))
  {
    var s' := Next(s, t, Advance);
    var h := s.threads[t].h;
    SumAt(s.threads, t, PendingFn(h));
    assert h in s.popped;
    forall n: nat
      ensures s'.returned[n] + Pending(s', n) == if n in s'.popped then 1 else 0
    {
      PendingMoves(s, t, s'.threads[t], n);
    }
    forall u | 0 <= u < |s'.threads|
      ensures PcOk(s'.nodes, s'.threads[u]) && ReadingOk(s', s'.threads[u])
    {
      assert u != t ==> PcOk(s.nodes, s.threads[u]) && ReadingOk(s, s.threads[u]);
    }
  }

  lemma StepKeepsInv(s: State, t: nat, act: Action)
    requires Inv(s) && Enabled(s, t, act)
    ensures Inv(Next(s, t, act))
  {
    var pc := s.threads[t];
    assert PcOk(s.nodes, pc);
    if act.Advance? && pc.PushCas? && s.nodes[pc.at].next == None {
      LinkKeeps(s, t);
    } else if act.Advance? && pc.PopCas? && s.nodes[0].next == Some(pc.h) {
      UnlinkKeeps(s, t);
    } else if act.Advance? && pc.PopClear? {
      ClearKeeps(s, t);
    } else {
      ReadKeeps(s, Next(s, t, act), t);
    }
  }

  lemma InitEstablishesInv(s: State)
    requires Init(s)
    ensures Inv(s)
  {
    forall n: nat
      ensures Pending(s, n) == 0
    {
      SumIsZero(s.threads, PendingFn(n));
    }
  }

  lemma {:induction false} RunKeepsInv(run: seq<State>, i: nat)
    requires IsRun(run) && i < |run|
    ensures Inv(run[i])
  {
    if i == 0 {
      InitEstablishesInv(run[0]);
    } else {
      RunKeepsInv(run, i - 1);
      assert StepAt(run, i - 1);
      var t: nat, act: Action :| Enabled(run[i - 1], t, act) && run[i] == Next(run[i - 1], t, act);
      StepKeepsInv(run[i - 1], t, act);
    }
  }

  // ---- Order of values ----

  predicate Increasing(idx: seq<nat>) {
    forall j, k :: 0 <= j < k < |idx| ==> idx[j] < idx[k]
  }

  predicate PickedBy<T(==)>(xs: seq<T>, ys: seq<T>, idx: seq<nat>) {
    && |idx| == |xs| && Increasing(idx)
    && forall k :: 0 <= k < |idx| ==> idx[k] < |ys| && xs[k] == ys[idx[k]]
  }

  ghost predicate Subsequence<T(!new)>(xs: seq<T>, ys: seq<T>) {
    exists idx: seq<nat> :: PickedBy(xs, ys, idx)
  }

  /** The values in the order in which push linked them. */
  function LinkedValues(s: State): seq<Value>
    requires |s.nodes| > 0
  {
    seq(|s.nodes| - 1, i requires 0 <= i < |s.nodes| - 1 => s.nodes[i + 1].value)
  }

  /** The values in the order in which pop took them off the head. */
  function PoppedValues(s: State): seq<Value>
    requires PoppedOk(s.nodes, s.popped)
  {
    seq(|s.popped|, k requires 0 <= k < |s.popped| => s.nodes[s.popped[k]].value)
  }

  /** In every run values come out as a subsequence of the order in which they were linked. */
  lemma ValuesLeaveInLinkOrder(run: seq<State>, i: nat)
    requires IsRun(run) && i < |run|
    ensures Inv(run[i])
    ensures Subsequence(PoppedValues(run[i]), LinkedValues(run[i]))
  {
    RunKeepsInv(run, i);
    var s := run[i];
    var idx := seq(|s.popped|, k requires 0 <= k < |s.popped| => (s.popped[k] - 1) as nat);
    assert PickedBy(PoppedValues(s), LinkedValues(s), idx);
  }

  /** Each node taken off is returned by one pop or still held by one; none is returned twice. */
  lemma ReturnedOnce(run: seq<State>, i: nat, n: nat)
    requires IsRun(run) && i < |run|
    ensures run[i].returned[n] <= 1
    ensures run[i].returned[n] + Pending(run[i], n) == if n in run[i].popped then 1 else 0
  {
    RunKeepsInv(run, i);
  }

  // ---- What a run never takes back ----

  predicate Grows(s: State, s': State) {
    && |s.nodes| <= |s'.nodes|
    && (forall n :: 0 <= n < |s.nodes| ==> s'.nodes[n].value == s.nodes[n].value)
    && s.popped <= s'.popped
    && |s'.threads| == |s.threads|
  }

  lemma NodesAfter(s: State, t: nat, act: Action)
    requires Inv(s) && Enabled(s, t, act)
    ensures var s', pc := Next(s, t, act), s.threads[t];
            && s'.nodes ==
                 (if pc.PushCas? && s.nodes[pc.at].next == None then LinkAt(s.nodes, pc.at, pc.v)
                  else if pc.PopCas? && s.nodes[0].next == Some(pc.h) then SetNext(s.nodes, 0, pc.after)
                  else if pc.PopClear? then SetNext(s.nodes, pc.h, None)
                  else s.nodes)
            && s'.popped ==
                 (if pc.PopCas? && s.nodes[0].next == Some(pc.h) then s.popped + [pc.h] else s.popped)
            && |s'.threads| == |s.threads|
  {
  }

  lemma StepGrows(s: State, t: nat, act: Action)
    requires Inv(s) && Enabled(s, t, act)
    ensures Grows(s, Next(s, t, act))
  {
    NodesAfter(s, t, act);
  }

  lemma {:induction false} RunGrows(run: seq<State>, i: nat, j: nat)
    requires IsRun(run) && i <= j < |run|
    ensures Grows(run[i], run[j])
    decreases j
  {
    if i < j {
      RunGrows(run, i, j - 1);
      RunKeepsInv(run, j - 1);
      assert StepAt(run, j - 1);
      var t: nat, act: Action :| Enabled(run[j - 1], t, act) && run[j] == Next(run[j - 1], t, act);
      StepGrows(run[j - 1], t, act);
    }
  }

  /** Link order is append-only, and a popped node never comes back to the head. */
  lemma PoppedNeverReturnsToHead(run: seq<State>, i: nat, j: nat, h: nat)
    requires IsRun(run) && i <= j < |run| && h in run[i].popped
    ensures Inv(run[i]) && Inv(run[j]) && LinkedValues(run[i]) <= LinkedValues(run[j])
    ensures run[j].nodes[0].next != Some(h)
  {
    RunKeepsInv(run, i);
    RunKeepsInv(run, j);
    RunGrows(run, i, j);
    assert h in run[j].popped;
  }

  // ---- The walk of a push ----

  /** How many nodes a push can still step over before it must find the end. */
  function WalkLeft(s: State, t: nat): nat
    requires t < |s.threads| && PcOk(s.nodes, s.threads[t]) && s.threads[t].PushCas?
  {
    |s.nodes| - 1 - s.threads[t].at
  }

  /** Each failed compare-and-swap of a push moves it to a later node, so it can fail only as
      often as there are later nodes; only another thread's link gives it one more to step
      over, and no other step of any thread changes the distance. */
  lemma WalkTerminates(s: State, t: nat, u: nat, act: Action)
    requires Inv(s) && t < |s.threads| && s.threads[t].PushCas? && Enabled(s, u, act)
    ensures var s' := Next(s, u, act);
            && (u == t && s'.threads[t].PushCas? ==>
                  PcOk(s'.nodes, s'.threads[t]) && WalkLeft(s', t) < WalkLeft(s, t))
            && (u == t && !s'.threads[t].PushCas? ==>
                  |s'.nodes| == |s.nodes| + 1 && s'.threads[t] == PushStore(|s.nodes|))
            && (u != t ==>
                  && s'.threads[t] == s.threads[t] && PcOk(s'.nodes, s'.threads[t])
                  && WalkLeft(s', t) == WalkLeft(s, t) + |s'.nodes| - |s.nodes|)
  {
  }
}
