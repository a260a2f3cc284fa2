/** `LockFreeQueue` used by one thread at a time (src/lockfree/lockfree_queue.cc:28-107),
    with the same nodes and chain as the concurrent machine. */
module LockFreeQueueClass {
  import opened Wrappers
  import opened QueueMachine
  import opened QueueOrder
  import opened QueueChain
  import opened QueuePhases
  import QueueSize
  import opened QueueValues

  /** The node at the end of the chain, `__head` itself when the queue is empty. */
  function LastOf(nodes: seq<Node>): (n: nat)
    requires Ordered(nodes)
    ensures n == 0 || n in Chain(nodes, 0)
  {
    var L := Chain(nodes, 0);
    if L == [] then 0 else L[|L| - 1]
  }

  lemma {:induction false} ChainEnds(nodes: seq<Node>, i: nat)
    requires Ordered(nodes) && i < |nodes|
    ensures var L := Chain(nodes, i);
            var n := if L == [] then i else L[|L| - 1];
            n < |nodes| && nodes[n].next == None
    decreases |nodes| - i
  {
    if nodes[i].next.Some? {
      ChainEnds(nodes, nodes[i].next.value);
    }
  }

  /** The nodes once a pop has swung the head over the first of them and cleared its link. */
  function WithoutFirst(nodes: seq<Node>): seq<Node>
    requires Ordered(nodes) && nodes[0].next.Some?
  {
    var h := nodes[0].next.value;
    SetNext(SetNext(nodes, 0, nodes[h].next), h, None)
  }

  lemma TakeFirstChain(nodes: seq<Node>)
    requires Ordered(nodes) && nodes[0].next.Some?
    ensures Ordered(WithoutFirst(nodes)) && |WithoutFirst(nodes)| == |nodes|
    ensures |Chain(nodes, 0)| > 0 && Chain(nodes, 0)[0] == nodes[0].next.value
    ensures Chain(WithoutFirst(nodes), 0) == Chain(nodes, 0)[1..]
    ensures nodes[nodes[0].next.value].next == None <==> Chain(nodes, 0)[1..] == []
  {
    var h := nodes[0].next.value;
    var after := nodes[h].next;
    assert Chain(nodes, 0) == [h] + Chain(nodes, h);
    UnlinkChain(nodes, after);
    ChainAhead(nodes, h);
    ClearOffChain(SetNext(nodes, 0, after), h);
  }

  lemma TakeFirst(nodes: seq<Node>)
    requires Ordered(nodes) && nodes[0].next.Some?
    ensures Ordered(WithoutFirst(nodes))
    ensures |ValuesOf(nodes)| > 0
    ensures nodes[nodes[0].next.value].value == ValuesOf(nodes)[0]
    ensures ValuesOf(WithoutFirst(nodes)) == ValuesOf(nodes)[1..]
  {
    TakeFirstChain(nodes);
    ChainInRange(nodes);
    ChainInRange(WithoutFirst(nodes));
    assert forall n :: 0 <= n < |nodes| ==> WithoutFirst(nodes)[n].value == nodes[n].value;
  }

  class LockFreeQueue {
    var nodes: seq<Node>
    var tail: nat
    var size: nat

    /** The last pop that returned a value left the queue empty, and no pop has found it
        empty since. */
    ghost var drained: bool

    /** Values pushed to a node that pops cannot reach. */
    ghost var lost: nat

    ghost predicate Valid()
      reads this
    {
      && Ordered(nodes)
      && 0 < |nodes| && tail < |nodes|
      && size == (|Chain(nodes, 0)| + lost) % SIZES
      && (if drained then Chain(nodes, 0) == [] && tail != 0 else tail == LastOf(nodes))
    }

    ghost function Contents(): seq<Value>
      reads this
      requires Valid()
    {
      ValuesOf(nodes)
    }

    constructor ()
      ensures Valid() && Contents() == [] && !drained && lost == 0
    {
      nodes := [Node(0, None)];
      tail := 0;
      size := 0;
      drained := false;
      lost := 0;
    }

    /** A push adds its value at the end unless the queue has just been drained; then, and
        only then, the value is lost. */
    method Push(v: Value)
      requires Valid()
      modifies this
      ensures Valid() && drained == old(drained)
      ensures !old(drained) ==> Contents() == old(Contents()) + [v] && lost == old(lost)
      ensures old(drained) ==> Contents() == old(Contents()) == [] && lost == old(lost) + 1
    {
      var at: nat := tail;
      while nodes[at].next.Some?
        invariant at < |nodes|
        invariant unchanged(this)
        invariant if drained then at != 0 else OnChain(nodes, at)
        decreases |nodes| - at
      {
        if !drained {
          NextOnChain(nodes, at);
        }
        at := nodes[at].next.value;
      }
      var n := |nodes|;
      QueueSize.CountUp(|Chain(nodes, 0)| + lost);
      if drained {
        LinkLoses(nodes, at, v);
        lost := lost + 1;
      } else {
        LinkAdds(nodes, at, v);
      }
      nodes := LinkAt(nodes, at, v);
      tail := n;
      size := (size + 1) % SIZES;
    }

    /** A pop returns the first value, or finds the queue empty and mends the tail hint. The
        node it takes off no longer refers to another. */
    method Pop() returns (r: Option<Value>)
      requires Valid()
      modifies this
      ensures Valid() && lost == old(lost)
      ensures old(Contents()) == [] ==> r == None && Contents() == [] && !drained
      ensures old(Contents()) != [] ==>
                && r == Some(old(Contents())[0])
                && Contents() == old(Contents())[1..]
                && (drained <==> Contents() == [])
                && |nodes| == old(|nodes|) && nodes[old(nodes[0].next.value)].next == None
    {
      var first := nodes[0].next;
      if first == None {
        ResetTail();
        return None;
      }
      var h := first.value;
      var after := nodes[h].next;
      TakeFirst(nodes);
      TakeFirstChain(nodes);
      QueueSize.CountDown(|Chain(nodes, 0)| + lost);
      nodes := SetNext(nodes, 0, after);
      size := (size + SIZES - 1) % SIZES;
      nodes := SetNext(nodes, h, None);
      drained := after == None;
      return Some(nodes[h].value);
    }

    method ResetTail()
      requires Valid() && nodes[0].next == None
      modifies this
      ensures Valid() && nodes == old(nodes) && size == old(size) && lost == old(lost)
      ensures tail == 0 && !drained
    {
      tail := 0;
      drained := false;
    }

    method Clear()
      requires Valid()
      modifies this
      ensures Valid() && Contents() == [] && !drained && lost == old(lost)
    {
      var node := Pop();
      while node.Some?
        invariant Valid() && lost == old(lost)
        invariant node == None ==> Contents() == [] && !drained
        decreases node.Some?, |Contents()|
      {
        node := Pop();
      }
    }

    /** `size()` counts the values held and those lost, modulo 2^64. */
    method Size() returns (n: nat)
      requires Valid()
      ensures n == (|Contents()| + lost) % SIZES
    {
      n := size;
    }
  }
}
