/** Calls of `LockFreeQueue` as they were made (src/lockfree/lockfree_queue.cc:35-91): what a
    call left alone comes to, and that the values in the queue are those that were pushed. */
module QueueCalls {
  import opened Iteration
  import opened Sums
  import opened Wrappers
  import opened QueueMachine
  import opened QueueOrder
  import opened QueueChain
  import opened QueueProgress

  // ---- A call left alone, from its beginning ----

  lemma PushLoadsAlone(s: State, t: nat, v: Value)
    requires Inv(s) && Enabled(s, t, BeginPush(v))
    ensures var s1 := Go(s, t, PushCas(v, s.tail));
            Inv(s1) && Alone(Next(s, t, BeginPush(v)), t) == s1
  {
    var s0 := Next(s, t, BeginPush(v));
    StepKeepsInv(s, t, BeginPush(v));
    StepKeepsInv(s0, t, Advance);
    assert Alone(s0, t).threads == s.threads[t := PushCas(v, s.tail)];
  }

  lemma PushCountsAlone(s: State, t: nat, n: nat)
    requires t < |s.threads| && s.threads[t] == PushStore(n) && 0 < n < |s.nodes|
    ensures var s' := s.(threads := s.threads[t := Idle], tail := n, size := (s.size + 1) % SIZES);
            Path(Solo(t), s, s', 2)
  {
    var s1 := Go(s, t, PushSize).(tail := n);
    var s2 := s.(threads := s.threads[t := Idle], tail := n, size := (s.size + 1) % SIZES);
    assert Alone(s, t) == s1;
    assert Alone(s1, t).threads == s2.threads;
    PathOfOne(Solo(t), s);
    PathOfOne(Solo(t), s1);
    PathJoin(Solo(t), s, s1, s2, 1, 1);
  }

  /** `push(v)` is done within as many steps as there are nodes plus three: a node with the
      value v is linked, the hint is on it, and the size is one more. */
  lemma PushFinishesAlone(s: State, t: nat, v: Value) returns (n: nat)
    requires Inv(s) && Enabled(s, t, BeginPush(v))
    ensures n <= |s.nodes| + 3
    ensures var s' := AloneFor(Next(s, t, BeginPush(v)), t, n);
            && |s'.threads| == |s.threads| && s'.threads[t] == Idle
            && |s'.nodes| == |s.nodes| + 1 && s'.nodes[|s.nodes|] == Node(v, None)
            && s'.tail == |s.nodes| && s'.size == (s.size + 1) % SIZES
  {
    PushLoadsAlone(s, t, v);
    n := PushFromHint(Next(s, t, BeginPush(v)), Go(s, t, PushCas(v, s.tail)), t);
  }

  lemma PushFromHint(s0: State, s: State, t: nat) returns (n: nat)
    requires Inv(s) && t < |s.threads| && s.threads[t].PushCas? && Alone(s0, t) == s
    ensures n <= |s.nodes| + 3
    ensures var s' := AloneFor(s0, t, n);
            && |s'.threads| == |s.threads| && s'.threads[t] == Idle
            && |s'.nodes| == |s.nodes| + 1 && s'.nodes[|s.nodes|] == Node(s.threads[t].v, None)
            && s'.tail == |s.nodes| && s'.size == (s.size + 1) % SIZES
  {
    var m, linked := PushLinksAlone(s, t);
    PushCountsAlone(linked, t, |s.nodes|);
    var s' := linked.(threads := linked.threads[t := Idle], tail := |s.nodes|, size := (s.size + 1) % SIZES);
    PathOfOne(Solo(t), s0);
    PathJoin(Solo(t), s0, s, linked, 1, m);
    PathJoin(Solo(t), s0, linked, s', 1 + m, 2);
    PathIterates(Solo(t), s0, s', 1 + m + 2);
    n := 1 + m + 2;
  }

  /** `pop()` on an empty queue answers so after two steps and puts the hint on `__head`. */
  lemma EmptyPopFinishesAlone(s: State, t: nat)
    requires Inv(s) && Enabled(s, t, BeginPop) && s.nodes[0].next == None
    ensures var s' := AloneFor(Next(s, t, BeginPop), t, 2);
            s' == s.(tail := 0)
  {
    var s0 := Next(s, t, BeginPop);
    TwoSteps(Solo(t), s0, 0);
    assert Alone(Alone(s0, t), t).threads == s.threads;
  }

  lemma PopReadsAlone(s: State, t: nat)
    requires Inv(s) && Enabled(s, t, BeginPop) && s.nodes[0].next.Some?
    ensures var h := s.nodes[0].next.value;
            && 0 < h < |s.nodes|
            && Path(Solo(t), Next(s, t, BeginPop), Go(s, t, PopCas(h, s.nodes[h].next)), 2)
  {
    var h := s.nodes[0].next.value;
    var s1, s2 := Go(s, t, PopNext(h)), Go(s, t, PopCas(h, s.nodes[h].next));
    assert Alone(Go(s, t, PopLoad), t).threads == s1.threads;
    assert Alone(s1, t).threads == s2.threads;
    PathOfOne(Solo(t), Go(s, t, PopLoad));
    PathOfOne(Solo(t), s1);
    PathJoin(Solo(t), Go(s, t, PopLoad), s1, s2, 1, 1);
  }

  /** What a pop that takes node h off and is not disturbed leaves. */
  function PoppedFirst(s: State, h: nat): State
    requires 0 < h < |s.nodes|
  {
    s.(nodes := SetNext(SetNext(s.nodes, 0, s.nodes[h].next), h, None),
       size := (s.size + SIZES - 1) % SIZES,
       popped := s.popped + [h],
       returned := s.returned + multiset{h})
  }

  lemma PopTakesAlone(s: State, t: nat, h: nat)
    requires Inv(s) && t < |s.threads| && s.threads[t].Idle? && s.nodes[0].next == Some(h) && 0 < h < |s.nodes|
    ensures Path(Solo(t), Go(s, t, PopCas(h, s.nodes[h].next)), PoppedFirst(s, h), 3)
  {
    var after := s.nodes[h].next;
    var s2 := Go(s, t, PopCas(h, after));
    var s3 := Go(s, t, PopSize(h)).(nodes := SetNext(s.nodes, 0, after), popped := s.popped + [h]);
    var s4 := Go(s3, t, PopClear(h)).(size := (s.size + SIZES - 1) % SIZES);
    assert Alone(s2, t).threads == s3.threads;
    assert Alone(s4, t).threads == s.threads;
    PathOfOne(Solo(t), s2);
    PathOfOne(Solo(t), s3);
    PathOfOne(Solo(t), s4);
    PathJoin(Solo(t), s2, s3, s4, 1, 1);
    PathJoin(Solo(t), s2, s4, PoppedFirst(s, h), 2, 1);
  }

  /** `pop()` on any other queue is done after five steps: it has taken off and returned the
      first node, which no longer leads anywhere. */
  lemma PopFinishesAlone(s: State, t: nat)
    requires Inv(s) && Enabled(s, t, BeginPop) && s.nodes[0].next.Some?
    ensures 0 < s.nodes[0].next.value < |s.nodes|
    ensures AloneFor(Next(s, t, BeginPop), t, 5) == PoppedFirst(s, s.nodes[0].next.value)
  {
    var h := s.nodes[0].next.value;
    PopReadsAlone(s, t);
    PopTakesAlone(s, t, h);
    PathJoin(Solo(t), Next(s, t, BeginPop), Go(s, t, PopCas(h, s.nodes[h].next)), PoppedFirst(s, h), 2, 3);
    PathIterates(Solo(t), Next(s, t, BeginPop), PoppedFirst(s, h), 5);
  }

  // ---- Values ----

  /** A run with the thread and the action of each step. */
  datatype Move = Move(t: nat, act: Action)

  predicate MoveAt(run: seq<State>, moves: seq<Move>, i: nat) {
    && i < |moves| && i + 1 < |run|
    && Enabled(run[i], moves[i].t, moves[i].act)
    && run[i + 1] == Next(run[i], moves[i].t, moves[i].act)
  }

  predicate IsTrace(run: seq<State>, moves: seq<Move>) {
    && |run| == |moves| + 1 && Init(run[0])
    && forall i: nat :: i < |moves| ==> MoveAt(run, moves, i)
  }

  lemma TraceIsRun(run: seq<State>, moves: seq<Move>)
    requires IsTrace(run, moves)
    ensures IsRun(run)
  {
    forall i: nat | i + 1 < |run|
      ensures StepAt(run, i)
    {
      assert MoveAt(run, moves, i);
    }
  }

  /** How often a push of v has begun. */
  function Begun(moves: seq<Move>, v: Value): nat {
    if moves == [] then 0
    else Begun(moves[..|moves| - 1], v) + (if moves[|moves| - 1].act == BeginPush(v) then 1 else 0)
  }

  function CarriedBy(pc: PC, v: Value): nat {
    if (pc.PushLoad? || pc.PushCas?) && pc.v == v then 1 else 0
  }

  function ValueIs(node: Node, v: Value): nat {
    if node.value == v then 1 else 0
  }

  function CarriedFn(v: Value): PC -> nat {
    pc => CarriedBy(pc, v)
  }

  function ValueFn(v: Value): Node -> nat {
    node => ValueIs(node, v)
  }

  /** How many nodes have been linked with the value v. */
  function Linked(s: State, v: Value): nat
    requires |s.nodes| > 0
  {
    Sum(s.nodes[1..], ValueFn(v))
  }

  /** How many pushes of v have begun and not yet linked it. */
  function Carried(s: State, v: Value): nat {
    Sum(s.threads, CarriedFn(v))
  }

  lemma {:induction false} SameValuesSameSum(nodes: seq<Node>, nodes': seq<Node>, v: Value)
    requires |nodes'| == |nodes| && forall n :: 0 <= n < |nodes| ==> nodes'[n].value == nodes[n].value
    ensures Sum(nodes', ValueFn(v)) == Sum(nodes, ValueFn(v))
  {
    if |nodes| > 0 {
      SameValuesSameSum(nodes[..|nodes| - 1], nodes'[..|nodes| - 1], v);
    }
  }

  lemma LinkingCounts(nodes: seq<Node>, at: nat, x: Value, v: Value)
    requires at < |nodes|
    ensures Sum(LinkAt(nodes, at, x)[1..], ValueFn(v))
            == Sum(nodes[1..], ValueFn(v)) + ValueIs(Node(x, None), v)
  {
    var kept := SetNext(nodes, at, Some(|nodes|));
    SameValuesSameSum(nodes[1..], kept[1..], v);
    assert LinkAt(nodes, at, x)[1..] == kept[1..] + [Node(x, None)];
    SumAppend(kept[1..], Node(x, None), ValueFn(v));
  }

  lemma NodesOtherwise(s: State, t: nat, act: Action)
    requires Inv(s) && Enabled(s, t, act) && !Links(s, t, act)
    ensures var nodes' := Next(s, t, act).nodes;
            && |nodes'| == |s.nodes|
            && forall n :: 0 <= n < |s.nodes| ==> nodes'[n].value == s.nodes[n].value
  {
    assert PcOk(s.nodes, s.threads[t]);
    NodesAfter(s, t, act);
  }

  lemma LinkedAfter(s: State, t: nat, act: Action, v: Value)
    requires Inv(s) && Enabled(s, t, act)
    ensures |Next(s, t, act).nodes| > 0
    ensures Linked(Next(s, t, act), v)
            == Linked(s, v) + (if Links(s, t, act) then CarriedBy(s.threads[t], v) else 0)
  {
    if Links(s, t, act) {
      LinkingCounts(s.nodes, s.threads[t].at, s.threads[t].v, v);
    } else {
      NodesOtherwise(s, t, act);
      SameValuesSameSum(s.nodes[1..], Next(s, t, act).nodes[1..], v);
    }
  }

  lemma CarriedAfter(s: State, t: nat, act: Action, v: Value)
    requires Inv(s) && Enabled(s, t, act)
    ensures var s', pc := Next(s, t, act), s.threads[t];
            Carried(s', v)
              + (if Links(s, t, act) then CarriedBy(pc, v) else 0)
            == Carried(s, v) + (if act == BeginPush(v) then 1 else 0)
  {
    var s', pc := Next(s, t, act), s.threads[t];
    assert PcOk(s.nodes, pc);
    SumUpdate(s.threads, t, s'.threads[t], CarriedFn(v));
  }

  /** In every run, counted with multiplicity, the values linked and those of pushes in progress
      are the values with which pushes were begun. */
  lemma {:induction false} ValuesAreThoseBegun(run: seq<State>, moves: seq<Move>, i: nat, v: Value)
    requires IsTrace(run, moves) && i < |run|
    ensures |run[i].nodes| > 0
    ensures Linked(run[i], v) + Carried(run[i], v) == Begun(moves[..i], v)
  {
    if i == 0 {
      SumIsZero(run[0].threads, CarriedFn(v));
    } else {
      ValuesAreThoseBegun(run, moves, i - 1, v);
      TraceIsRun(run, moves);
      RunKeepsInv(run, i - 1);
      assert MoveAt(run, moves, i - 1);
      LinkedAfter(run[i - 1], moves[i - 1].t, moves[i - 1].act, v);
      CarriedAfter(run[i - 1], moves[i - 1].t, moves[i - 1].act, v);
      assert moves[..i][..i - 1] == moves[..i - 1];
    }
  }
}
