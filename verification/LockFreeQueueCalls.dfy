/** Whole sequences of calls on one `LockFreeQueue`, against an unbounded FIFO
    (src/lockfree/lockfree_queue.cc:28-107). */
module LockFreeQueueCalls {
  import opened Wrappers
  import opened QueueMachine
  import opened LockFreeQueueClass

  datatype Call = DoPush(v: Value) | DoPop

  /** An unbounded FIFO after some calls: what it holds, and what its pops answered. */
  datatype Fifo = Fifo(held: seq<Value>, answers: seq<Option<Value>>)

  function FifoCall(q: Fifo, c: Call): Fifo {
    match c
    case DoPush(v) => q.(held := q.held + [v])
    case DoPop =>
      if q.held == [] then q.(answers := q.answers + [None])
      else Fifo(q.held[1..], q.answers + [Some(q.held[0])])
  }

  function FifoAfter(script: seq<Call>): Fifo {
    if script == [] then Fifo([], [])
    else FifoCall(FifoAfter(script[..|script| - 1]), script[|script| - 1])
  }

  /** The last of these calls is a pop that took the last value. */
  predicate JustDrained(script: seq<Call>) {
    && script != [] && script[|script| - 1].DoPop?
    && |FifoAfter(script[..|script| - 1]).held| == 1
  }

  /** No push directly follows the pop that drained the queue. */
  predicate Careful(script: seq<Call>) {
    forall i :: 0 <= i < |script| && script[i].DoPush? ==> !JustDrained(script[..i])
  }

  function Pushes(script: seq<Call>): nat {
    if script == [] then 0
    else Pushes(script[..|script| - 1]) + (if script[|script| - 1].DoPush? then 1 else 0)
  }

  function Delivered(answers: seq<Option<Value>>): nat {
    if answers == [] then 0
    else Delivered(answers[..|answers| - 1]) + (if answers[|answers| - 1].Some? then 1 else 0)
  }

  lemma DeliveredOneMore(answers: seq<Option<Value>>, a: Option<Value>)
    ensures Delivered(answers + [a]) == Delivered(answers) + (if a.Some? then 1 else 0)
  {
  }

  /** A FIFO delivers or holds every value pushed. */
  lemma {:induction false} FifoConserves(script: seq<Call>)
    ensures var q := FifoAfter(script); Delivered(q.answers) + |q.held| == Pushes(script)
  {
    if script != [] {
      var before := script[..|script| - 1];
      FifoConserves(before);
      var q := FifoAfter(before);
      if script[|script| - 1].DoPop? {
        DeliveredOneMore(q.answers, if q.held == [] then None else Some(q.held[0]));
      }
    }
  }

  lemma CarefulOneMore(script: seq<Call>, i: nat)
    requires i < |script|
    ensures Careful(script[..i + 1]) <==>
            Careful(script[..i]) && (script[i].DoPush? ==> !JustDrained(script[..i]))
  {
    var after := script[..i + 1];
    assert after[..i] == script[..i];
    forall j | 0 <= j < i
      ensures after[j] == script[..i][j] && after[..j] == script[..i][..j]
    {
    }
    if Careful(after) {
      forall j | 0 <= j < i && script[..i][j].DoPush?
        ensures !JustDrained(script[..i][..j])
      {
        assert !JustDrained(after[..j]);
      }
      assert script[i].DoPush? ==> after[i].DoPush?;
    }
  }

  /** What a queue holds and has answered after these calls, beside the FIFO. */
  ghost predicate Stands(script: seq<Call>, q: Fifo, drained: bool, lost: nat) {
    && Delivered(q.answers) + |q.held| + lost == Pushes(script)
    && if Careful(script) then q == FifoAfter(script) && drained == JustDrained(script) && lost == 0
       else lost > 0
  }

  lemma StandsAfterPush(script: seq<Call>, q: Fifo, drained: bool, lost: nat, v: Value)
    requires Stands(script, q, drained, lost)
    ensures !drained ==> Stands(script + [DoPush(v)], q.(held := q.held + [v]), false, lost)
    ensures drained ==> Stands(script + [DoPush(v)], q, true, lost + 1)
  {
    var after := script + [DoPush(v)];
    assert after[..|script|] == script && after[..|after|] == after;
    CarefulOneMore(after, |script|);
  }

  lemma StandsAfterPop(script: seq<Call>, q: Fifo, drained: bool, lost: nat)
    requires Stands(script, q, drained, lost)
    ensures var q' := FifoCall(q, DoPop);
            Stands(script + [DoPop], q', q.held != [] && q'.held == [], lost)
  {
    var after := script + [DoPop];
    assert after[..|script|] == script && after[..|after|] == after;
    CarefulOneMore(after, |script|);
    DeliveredOneMore(q.answers, if q.held == [] then None else Some(q.held[0]));
    assert FifoAfter(after) == FifoCall(FifoAfter(script), DoPop);
    assert JustDrained(after) <==> |FifoAfter(script).held| == 1;
    assert Pushes(after) == Pushes(script);
  }

  ghost predicate Follows(q: LockFreeQueue, answers: seq<Option<Value>>, script: seq<Call>)
    reads q
  {
    q.Valid() && Stands(script, Fifo(q.Contents(), answers), q.drained, q.lost)
  }

  method Step(q: LockFreeQueue, c: Call, answers: seq<Option<Value>>, ghost before: seq<Call>)
    returns (answers': seq<Option<Value>>)
    requires Follows(q, answers, before)
    modifies q
    ensures Follows(q, answers', before + [c])
  {
    ghost var was, drained, lost := Fifo(q.Contents(), answers), q.drained, q.lost;
    match c {
      case DoPush(v) =>
        StandsAfterPush(before, was, drained, lost, v);
        q.Push(v);
        answers' := answers;
      case DoPop =>
        StandsAfterPop(before, was, drained, lost);
        var a := q.Pop();
        answers' := answers + [a];
        assert Fifo(q.Contents(), answers') == FifoCall(was, DoPop);
    }
  }

  /** What it means for the caller where the queue stands. */
  lemma StandsDecides(script: seq<Call>, q: Fifo, drained: bool, lost: nat)
    requires Stands(script, q, drained, lost)
    ensures Careful(script) <==> q == FifoAfter(script)
    ensures Careful(script) ==> lost == 0
    ensures Delivered(q.answers) + |q.held| <= Pushes(script)
    ensures Delivered(q.answers) + |q.held| == Pushes(script) <==> Careful(script)
  {
    FifoConserves(script);
  }

  /** Popping has yielded `taken`, the last answer is a, and `rest` is left of `all`. */
  predicate Taking(all: seq<Value>, taken: seq<Value>, a: Option<Value>, rest: seq<Value>) {
    match a
    case None => taken == all && rest == []
    case Some(v) => taken + [v] + rest == all
  }

  lemma TakingOn(all: seq<Value>, taken: seq<Value>, v: Value, rest: seq<Value>)
    requires Taking(all, taken, Some(v), rest)
    ensures rest == [] ==> Taking(all, taken + [v], None, [])
    ensures rest != [] ==> Taking(all, taken + [v], Some(rest[0]), rest[1..])
  {
    assert rest != [] ==> taken + [v] + rest == taken + [v] + [rest[0]] + rest[1..];
  }

  /** Pops until the queue answers that it is empty. */
  method TakeRest(q: LockFreeQueue) returns (taken: seq<Value>)
    requires q.Valid()
    modifies q
    ensures q.Valid() && q.Contents() == [] && !q.drained && q.lost == old(q.lost)
    ensures taken == old(q.Contents())
  {
    ghost var all := q.Contents();
    taken := [];
    var a := q.Pop();
    assert Taking(all, taken, a, q.Contents());
    while a.Some?
      invariant q.Valid() && q.lost == old(q.lost)
      invariant Taking(all, taken, a, q.Contents())
      invariant a == None ==> !q.drained
      decreases a.Some?, |q.Contents()|
    {
      TakingOn(all, taken, a.value, q.Contents());
      taken := taken + [a.value];
      a := q.Pop();
    }
  }

  method RunScript(q: LockFreeQueue, script: seq<Call>) returns (answers: seq<Option<Value>>)
    requires Follows(q, [], [])
    modifies q
    ensures Follows(q, answers, script)
  {
    answers := [];
    for i := 0 to |script|
      invariant Follows(q, answers, script[..i])
    {
      assert script[..i] + [script[i]] == script[..i + 1];
      answers := Step(q, script[i], answers, script[..i]);
    }
    assert script[..|script|] == script;
  }

  /** Runs the calls on a new queue and then pops what is left. The queue behaves as an
      unbounded FIFO exactly when no push directly follows the pop that drained it; then
      `size()` is what the FIFO holds. */
  method Replay(script: seq<Call>)
    returns (answers: seq<Option<Value>>, size: nat, left: seq<Value>)
    ensures Careful(script) <==> Fifo(left, answers) == FifoAfter(script)
    ensures Careful(script) ==> size == |FifoAfter(script).held| % SIZES
    ensures Delivered(answers) + |left| <= Pushes(script)
    ensures Delivered(answers) + |left| == Pushes(script) <==> Careful(script)
  {
    var q := new LockFreeQueue();
    answers := RunScript(q, script);
    StandsDecides(script, Fifo(q.Contents(), answers), q.drained, q.lost);
    size := q.Size();
    left := TakeRest(q);
  }

  lemma FifoKeepsThird(v: Value, w: Value)
    ensures var script := [DoPush(v), DoPop, DoPush(w)];
            !Careful(script) && FifoAfter(script) == Fifo([w], [Some(v)])
  {
    var one, two, script := [DoPush(v)], [DoPush(v), DoPop], [DoPush(v), DoPop, DoPush(w)];
    assert one[..0] == [] && two[..1] == one && script[..2] == two;
    assert FifoAfter(one) == Fifo([v], []);
    assert FifoAfter(two) == Fifo([], [Some(v)]);
    assert JustDrained(script[..2]) && script[2].DoPush?;
  }

  /** The shortest failing input: a push directly after the pop that drained the queue. Its
      value never comes out, where a FIFO would still hold it. */
  method PushAfterDrainIsLost(v: Value, w: Value)
    returns (answers: seq<Option<Value>>, size: nat, left: seq<Value>)
    ensures var script := [DoPush(v), DoPop, DoPush(w)];
            !Careful(script) && FifoAfter(script) == Fifo([w], [Some(v)])
    ensures answers == [Some(v)] && left == [] && size == 1
  {
    FifoKeepsThird(v, w);
    var q := new LockFreeQueue();
    q.Push(v);
    var a := q.Pop();
    q.Push(w);
    size := q.Size();
    left := TakeRest(q);
    answers := [a];
  }
}
