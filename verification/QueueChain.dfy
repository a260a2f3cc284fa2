/** The chain of nodes a pop can reach from `__head`, and exactly when a push adds to it and
    when a pop takes just one node off it. */
module QueueChain {
  import opened Wrappers
  import Sums
  import opened QueueMachine
  import opened QueueOrder

  /** The nodes that follow node i. */
  function Chain(nodes: seq<Node>, i: nat): seq<nat>
    requires Ordered(nodes) && i < |nodes|
    decreases |nodes| - i
  {
    match nodes[i].next
    case None => []
    case Some(j) => [j] + Chain(nodes, j)
  }

  lemma {:induction false} ChainAhead(nodes: seq<Node>, i: nat)
    requires Ordered(nodes) && i < |nodes|
    ensures forall n :: n in Chain(nodes, i) ==> i < n < |nodes|
    decreases |nodes| - i
  {
    if nodes[i].next.Some? {
      ChainAhead(nodes, nodes[i].next.value);
    }
  }

  /** Links of nodes that are not on the chain do not matter to it. */
  lemma {:induction false} ChainFrame(nodes: seq<Node>, nodes': seq<Node>, i: nat)
    requires Ordered(nodes) && Ordered(nodes') && i < |nodes| <= |nodes'|
    requires nodes'[i].next == nodes[i].next
    requires forall n :: n in Chain(nodes, i) ==> n < |nodes| && nodes'[n].next == nodes[n].next
    ensures Chain(nodes', i) == Chain(nodes, i)
    decreases |nodes| - i
  {
    ChainAhead(nodes, i);
    if nodes[i].next.Some? {
      var j := nodes[i].next.value;
      var rest := Chain(nodes, j);
      assert Chain(nodes, i) == [j] + rest;
      assert j in [j] + rest && forall n :: n in rest ==> n in [j] + rest;
      ChainFrame(nodes, nodes', j);
    }
  }

  /** A node linked behind the end of the chain extends it. */
  lemma {:induction false} LinkExtends(nodes: seq<Node>, at: nat, v: Value, i: nat)
    requires Ordered(nodes) && i < |nodes| && at < |nodes| && nodes[at].next == None
    requires at == i || at in Chain(nodes, i)
    ensures Ordered(LinkAt(nodes, at, v))
    ensures Chain(LinkAt(nodes, at, v), i) == Chain(nodes, i) + [|nodes|]
    decreases |nodes| - i
  {
    var nodes' := LinkAt(nodes, at, v);
    if at == i {
      assert Chain(nodes', |nodes|) == [];
    } else {
      ChainAhead(nodes, i);
      LinkExtends(nodes, at, v, nodes[i].next.value);
    }
  }

  lemma LinkElsewhere(nodes: seq<Node>, at: nat, v: Value)
    requires Ordered(nodes) && at < |nodes| && nodes[at].next == None
    requires at != 0 && at !in Chain(nodes, 0)
    ensures Ordered(LinkAt(nodes, at, v))
    ensures Chain(LinkAt(nodes, at, v), 0) == Chain(nodes, 0)
  {
    ChainAhead(nodes, 0);
    var nodes' := LinkAt(nodes, at, v);
    assert forall n :: 0 <= n < |nodes| && n != at ==> nodes'[n] == nodes[n];
    ChainFrame(nodes, nodes', 0);
  }

  /** The step links the node of thread t. */
  predicate Links(s: State, t: nat, act: Action) {
    && Enabled(s, t, act) && act.Advance? && s.threads[t].PushCas?
    && s.threads[t].at < |s.nodes| && s.nodes[s.threads[t].at].next == None
  }

  /** The step takes the first node off. */
  predicate Takes(s: State, t: nat, act: Action) {
    && Enabled(s, t, act) && act.Advance? && s.threads[t].PopCas?
    && s.threads[t].h < |s.nodes| && s.nodes[0].next == Some(s.threads[t].h)
  }

  /** A push that finds the end of some chain: its value becomes reachable for pops if and
      only if the node it found is reachable from the head; otherwise the value is lost and
      the queue stays as it was. */
  lemma PushReachesIff(s: State, t: nat)
    requires Inv(s) && Enabled(s, t, Advance) && s.threads[t].PushCas?
    requires s.nodes[s.threads[t].at].next == None
    ensures var s', at := Next(s, t, Advance), s.threads[t].at;
            && Ordered(s'.nodes)
            && (at == 0 || at in Chain(s.nodes, 0) <==>
                  Chain(s'.nodes, 0) == Chain(s.nodes, 0) + [|s.nodes|])
            && (at != 0 && at !in Chain(s.nodes, 0) ==> Chain(s'.nodes, 0) == Chain(s.nodes, 0))
  {
    assert PcOk(s.nodes, s.threads[t]);
    var at, v := s.threads[t].at, s.threads[t].v;
    if at == 0 || at in Chain(s.nodes, 0) {
      LinkExtends(s.nodes, at, v, 0);
    } else {
      LinkElsewhere(s.nodes, at, v);
      assert |Chain(s.nodes, 0)| != |Chain(s.nodes, 0) + [|s.nodes|]|;
    }
  }

  lemma UnlinkChain(nodes: seq<Node>, after: Link)
    requires Ordered(nodes) && (after.Some? ==> 0 < after.value < |nodes|)
    ensures Ordered(SetNext(nodes, 0, after))
    ensures Chain(SetNext(nodes, 0, after), 0)
            == match after case None => [] case Some(j) => [j] + Chain(nodes, j)
  {
    if after.Some? {
      ChainAhead(nodes, after.value);
      ChainFrame(nodes, SetNext(nodes, 0, after), after.value);
    }
  }

  /** A pop whose compare-and-swap succeeds takes exactly the first node off if and only if
      the successor it read is still the successor; otherwise a push has linked something
      behind that node in the meantime, and the whole rest of the chain is lost with it. */
  lemma PopTakesOneIff(s: State, t: nat)
    requires Inv(s) && Enabled(s, t, Advance) && s.threads[t].PopCas?
    requires s.nodes[0].next == Some(s.threads[t].h)
    ensures var s', pc, L := Next(s, t, Advance), s.threads[t], Chain(s.nodes, 0);
            && Ordered(s'.nodes) && |L| > 0 && L[0] == pc.h && s'.popped == s.popped + [pc.h]
            && (Chain(s'.nodes, 0) == L[1..] <==> s.nodes[pc.h].next == pc.after)
            && (s.nodes[pc.h].next != pc.after ==>
                  Chain(s'.nodes, 0) == [] && pc.after == None && |L| > 1)
  {
    UnlinkKeeps(s, t);
    var h, after := s.threads[t].h, s.threads[t].after;
    assert PcOk(s.nodes, s.threads[t]) && ReadingOk(s, s.threads[t]);
    assert h !in s.popped;
    UnlinkChain(s.nodes, after);
    assert Chain(s.nodes, 0)[1..] == Chain(s.nodes, h);
  }

  /** No other step of any thread changes what pops can reach. */
  lemma OtherStepsKeepChain(s: State, t: nat, act: Action)
    requires Inv(s) && Enabled(s, t, act)
    requires !(s.threads[t].PushCas? && s.nodes[s.threads[t].at].next == None)
    requires !(s.threads[t].PopCas? && s.nodes[0].next == Some(s.threads[t].h))
    ensures Ordered(Next(s, t, act).nodes)
    ensures Chain(Next(s, t, act).nodes, 0) == Chain(s.nodes, 0)
  {
    StepKeepsInv(s, t, act);
    NodesAfter(s, t, act);
    if s.threads[t].PopClear? {
      var h := s.threads[t].h;
      ReturnerHolds(s, t);
      ChainSkipsPopped(s, h);
      ChainAhead(s.nodes, 0);
      ClearOffChain(s.nodes, h);
    }
  }

  lemma ClearOffChain(nodes: seq<Node>, h: nat)
    requires Ordered(nodes) && 0 < h < |nodes| && h !in Chain(nodes, 0)
    ensures Ordered(SetNext(nodes, h, None))
    ensures Chain(SetNext(nodes, h, None), 0) == Chain(nodes, 0)
  {
    var nodes' := SetNext(nodes, h, None);
    ChainAhead(nodes, 0);
    assert forall n :: 0 <= n < |nodes| && n != h ==> nodes'[n] == nodes[n];
    ChainFrame(nodes, nodes', 0);
  }

  lemma ReturnerHolds(s: State, t: nat)
    requires Inv(s) && t < |s.threads| && s.threads[t].PopClear?
    ensures s.threads[t].h in s.popped
  {
    Sums.SumAt(s.threads, t, PendingFn(s.threads[t].h));
    assert s.returned[s.threads[t].h] + Pending(s, s.threads[t].h) > 0;
  }

  /** A popped node is not on the chain. */
  lemma ChainSkipsPopped(s: State, h: nat)
    requires Inv(s) && h in s.popped
    ensures h != 0 && h < |s.nodes| && h !in Chain(s.nodes, 0)
  {
    if s.nodes[0].next.Some? {
      var j := s.nodes[0].next.value;
      ChainAhead(s.nodes, j);
      assert Chain(s.nodes, 0) == [j] + Chain(s.nodes, j);
    }
  }
}
