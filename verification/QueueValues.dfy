/** The values that pops can reach, and what linking a node does to them. */
module QueueValues {
  import opened Wrappers
  import opened QueueMachine
  import opened QueueOrder
  import opened QueueChain
  import opened QueuePhases

  function ValuesAt(nodes: seq<Node>, at: seq<nat>): (vs: seq<Value>)
    requires forall k :: 0 <= k < |at| ==> at[k] < |nodes|
    ensures |vs| == |at|
  {
    seq(|at|, k requires 0 <= k < |at| => nodes[at[k]].value)
  }

  /** The values on the chain, first to be popped first. */
  function ValuesOf(nodes: seq<Node>): (vs: seq<Value>)
    requires Ordered(nodes)
    ensures |vs| == |Chain(nodes, 0)|
  {
    ChainInRange(nodes);
    ValuesAt(nodes, Chain(nodes, 0))
  }

  lemma ChainInRange(nodes: seq<Node>)
    requires Ordered(nodes)
    ensures forall k :: 0 <= k < |Chain(nodes, 0)| ==> Chain(nodes, 0)[k] < |nodes|
  {
    ChainAhead(nodes, 0);
    forall k | 0 <= k < |Chain(nodes, 0)|
      ensures Chain(nodes, 0)[k] < |nodes|
    {
      assert Chain(nodes, 0)[k] in Chain(nodes, 0);
    }
  }

  /** Values never change once they are in a node. */
  lemma SameValues(nodes: seq<Node>, nodes': seq<Node>, at: seq<nat>)
    requires |nodes| <= |nodes'| && forall n :: 0 <= n < |nodes| ==> nodes'[n].value == nodes[n].value
    requires forall k :: 0 <= k < |at| ==> at[k] < |nodes|
    ensures ValuesAt(nodes', at) == ValuesAt(nodes, at)
  {
  }

  lemma OneMoreValue(nodes: seq<Node>, at: seq<nat>, n: nat)
    requires n < |nodes| && forall k :: 0 <= k < |at| ==> at[k] < |nodes|
    ensures ValuesAt(nodes, at + [n]) == ValuesAt(nodes, at) + [nodes[n].value]
  {
  }

  lemma LinkAdds(nodes: seq<Node>, at: nat, v: Value)
    requires Ordered(nodes) && at < |nodes| && nodes[at].next == None && OnChain(nodes, at)
    ensures Ordered(LinkAt(nodes, at, v))
    ensures ValuesOf(LinkAt(nodes, at, v)) == ValuesOf(nodes) + [v]
    ensures Chain(LinkAt(nodes, at, v), 0) == Chain(nodes, 0) + [|nodes|]
  {
    var nodes', L := LinkAt(nodes, at, v), Chain(nodes, 0);
    LinkExtends(nodes, at, v, 0);
    ChainInRange(nodes);
    SameValues(nodes, nodes', L);
    OneMoreValue(nodes', L, |nodes|);
  }

  lemma LinkLoses(nodes: seq<Node>, at: nat, v: Value)
    requires Ordered(nodes) && at < |nodes| && nodes[at].next == None && !OnChain(nodes, at)
    ensures Ordered(LinkAt(nodes, at, v))
    ensures ValuesOf(LinkAt(nodes, at, v)) == ValuesOf(nodes)
    ensures Chain(LinkAt(nodes, at, v), 0) == Chain(nodes, 0)
  {
    LinkElsewhere(nodes, at, v);
    ChainInRange(nodes);
    SameValues(nodes, LinkAt(nodes, at, v), Chain(nodes, 0));
  }
}
