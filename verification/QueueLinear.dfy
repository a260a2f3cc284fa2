/** Exactly which runs of `LockFreeQueue` are runs of an atomic unbounded first-in-first-out
    queue: those in which every push links behind a reachable node and every pop still knows the
    right successor (src/lockfree/lockfree_queue.cc:40-56, 73-81). */
module QueueLinear {
  import opened Wrappers
  import opened QueueMachine
  import opened QueueOrder
  import opened QueueChain
  import opened QueuePhases
  import opened QueueValues

  // ---- The specification: a queue whose operations happen at once ----

  datatype Call =
    | NoCall
    | WantPush(v: Value)
    | DidPush
    | WantPop
    | DidPop(r: Option<Value>)

  datatype Spec = Spec(queue: seq<Value>, calls: seq<Call>)

  function SetCall(S: Spec, t: nat, call: Call): Spec
    requires t < |S.calls|
  {
    S.(calls := S.calls[t := call])
  }

  /** The one moment of the call in progress, or its return. */
  predicate SpecStep(S: Spec, S': Spec, t: nat)
    requires t < |S.calls|
  {
    match S.calls[t]
    case NoCall => false
    case WantPush(v) => S' == SetCall(S, t, DidPush).(queue := S.queue + [v])
    case WantPop =>
      if S.queue == [] then S' == SetCall(S, t, DidPop(None))
      else S' == SetCall(S, t, DidPop(Some(S.queue[0]))).(queue := S.queue[1..])
    case DidPush => S' == SetCall(S, t, NoCall)
    case DidPop(_) => S' == SetCall(S, t, NoCall)
  }

  /** What the action of thread t may do: a call begins as it was made; inside it, nothing
      visible, its one moment, or its return. */
  predicate SpecNext(S: Spec, S': Spec, t: nat, act: Action)
    requires t < |S.calls|
  {
    match act
    case BeginPush(v) => S.calls[t] == NoCall && S' == SetCall(S, t, WantPush(v))
    case BeginPop => S.calls[t] == NoCall && S' == SetCall(S, t, WantPop)
    case Advance => S' == S || SpecStep(S, S', t)
  }

  // ---- The abstraction ----

  function CallOf(nodes: seq<Node>, pc: PC): Call {
    match pc
    case Idle => NoCall
    case PushLoad(v) => WantPush(v)
    case PushCas(v, _) => WantPush(v)
    case PushStore(_) => DidPush
    case PushSize => DidPush
    case PopLoad => WantPop
    case PopNext(_) => WantPop
    case PopCas(_, _) => WantPop
    case PopReset => DidPop(None)
    case PopSize(h) => Popped(nodes, h)
    case PopClear(h) => Popped(nodes, h)
  }

  function Popped(nodes: seq<Node>, h: nat): Call {
    if h < |nodes| then DidPop(Some(nodes[h].value)) else NoCall
  }

  function Calls(nodes: seq<Node>, threads: seq<PC>): seq<Call> {
    seq(|threads|, t requires 0 <= t < |threads| => CallOf(nodes, threads[t]))
  }

  function Abs(s: State): Spec
    requires Ordered(s.nodes)
  {
    Spec(ValuesOf(s.nodes), Calls(s.nodes, s.threads))
  }

  // ---- Harmless steps ----

  /** A push links behind a reachable node; a pop has read the successor its node still has. */
  predicate Harmless(s: State, t: nat, act: Action)
    requires Ordered(s.nodes)
  {
    && (Links(s, t, act) ==> OnChain(s.nodes, s.threads[t].at))
    && (Takes(s, t, act) ==> s.nodes[s.threads[t].h].next == s.threads[t].after)
  }

  ghost predicate HarmlessStep(s: State, s': State)
    requires Ordered(s.nodes)
  {
    exists t: nat, act: Action :: Enabled(s, t, act) && s' == Next(s, t, act) && Harmless(s, t, act)
  }

  ghost predicate HarmlessAt(run: seq<State>, i: nat) {
    i + 1 < |run| && Ordered(run[i].nodes) && HarmlessStep(run[i], run[i + 1])
  }

  /** The first n steps of the run are harmless. */
  ghost predicate HarmlessUpTo(run: seq<State>, n: nat) {
    forall i: nat :: i < n ==> HarmlessAt(run, i)
  }

  // ---- A step is one of the atomic queue if and only if it is harmless ----

  lemma ThreadsAfter(s: State, t: nat, act: Action)
    requires Inv(s) && Enabled(s, t, act)
    ensures |Next(s, t, act).threads| == |s.threads|
    ensures Next(s, t, act).threads == s.threads[t := Next(s, t, act).threads[t]]
  {
    assert PcOk(s.nodes, s.threads[t]);
  }

  lemma CallStays(nodes: seq<Node>, nodes': seq<Node>, pc: PC)
    requires PcOk(nodes, pc) && |nodes| <= |nodes'|
    requires forall n :: 0 <= n < |nodes| ==> nodes'[n].value == nodes[n].value
    ensures CallOf(nodes', pc) == CallOf(nodes, pc)
  {
  }

  lemma CallsAfter(s: State, t: nat, act: Action)
    requires Inv(s) && Enabled(s, t, act)
    ensures var s' := Next(s, t, act);
            && |s'.threads| == |s.threads|
            && Calls(s'.nodes, s'.threads)
               == Calls(s.nodes, s.threads)[t := CallOf(s'.nodes, s'.threads[t])]
  {
    var s' := Next(s, t, act);
    StepGrows(s, t, act);
    ThreadsAfter(s, t, act);
    forall u | 0 <= u < |s.threads| && u != t
      ensures CallOf(s'.nodes, s'.threads[u]) == CallOf(s.nodes, s.threads[u])
    {
      CallStays(s.nodes, s'.nodes, s.threads[u]);
    }
  }

  lemma LinkIsSpecStepIff(s: State, t: nat)
    requires Inv(s) && Links(s, t, Advance)
    ensures Ordered(Next(s, t, Advance).nodes)
    ensures SpecNext(Abs(s), Abs(Next(s, t, Advance)), t, Advance) <==> OnChain(s.nodes, s.threads[t].at)
  {
    var s', pc := Next(s, t, Advance), s.threads[t];
    assert PcOk(s.nodes, pc);
    CallsAfter(s, t, Advance);
    assert Abs(s).calls[t] == WantPush(pc.v) && Abs(s').calls[t] == DidPush;
    if OnChain(s.nodes, pc.at) {
      LinkAdds(s.nodes, pc.at, pc.v);
      assert SpecStep(Abs(s), Abs(s'), t);
    } else {
      LinkLoses(s.nodes, pc.at, pc.v);
      assert |Abs(s').queue| != |Abs(s).queue + [pc.v]|;
    }
  }

  lemma TakeIsSpecStepIff(s: State, t: nat)
    requires Inv(s) && Takes(s, t, Advance)
    ensures Ordered(Next(s, t, Advance).nodes)
    ensures SpecNext(Abs(s), Abs(Next(s, t, Advance)), t, Advance)
            <==> s.nodes[s.threads[t].h].next == s.threads[t].after
  {
    var s', pc, L := Next(s, t, Advance), s.threads[t], Chain(s.nodes, 0);
    assert PcOk(s.nodes, pc);
    PopTakesOneIff(s, t);
    CallsAfter(s, t, Advance);
    ChainInRange(s.nodes);
    ChainInRange(s'.nodes);
    assert Abs(s).calls[t] == WantPop && Abs(s').calls[t] == DidPop(Some(s.nodes[pc.h].value));
    assert Abs(s).queue[0] == s.nodes[pc.h].value;
    if s.nodes[pc.h].next == pc.after {
      SameValues(s.nodes, s'.nodes, L[1..]);
      assert ValuesAt(s.nodes, L)[1..] == ValuesAt(s.nodes, L[1..]);
      assert SpecStep(Abs(s), Abs(s'), t);
    } else {
      assert |Abs(s').queue| == 0 < |Abs(s).queue[1..]|;
    }
  }

  lemma OtherIsSpecStep(s: State, t: nat, act: Action)
    requires Inv(s) && Enabled(s, t, act) && !Links(s, t, act) && !Takes(s, t, act)
    ensures Ordered(Next(s, t, act).nodes)
    ensures SpecNext(Abs(s), Abs(Next(s, t, act)), t, act)
  {
    var s', pc := Next(s, t, act), s.threads[t];
    assert PcOk(s.nodes, pc);
    OtherStepsKeepChain(s, t, act);
    StepGrows(s, t, act);
    CallsAfter(s, t, act);
    ChainInRange(s.nodes);
    SameValues(s.nodes, s'.nodes, Chain(s.nodes, 0));
    OtherCall(s, t, act);
    var S, S' := Abs(s), Abs(s');
    assert S' == SetCall(S, t, S'.calls[t]);
    if act.Advance? && S'.calls[t] == S.calls[t] {
      assert S' == S;
    } else if act.Advance? {
      assert SpecStep(S, S', t);
    }
  }

  /** What such a step shows its caller: the beginning of the call that was made, nothing, its
      return, or the answer "empty" of a pop that found the chain empty. */
  lemma OtherCall(s: State, t: nat, act: Action)
    requires Inv(s) && Enabled(s, t, act) && !Links(s, t, act) && !Takes(s, t, act)
    ensures var s' := Next(s, t, act);
            var call, call' := CallOf(s.nodes, s.threads[t]), CallOf(s'.nodes, s'.threads[t]);
            && (act.BeginPush? ==> call == NoCall && call' == WantPush(act.v))
            && (act.BeginPop? ==> call == NoCall && call' == WantPop)
            && (act.Advance? ==>
                  || call' == call
                  || ((call.DidPush? || call.DidPop?) && call'.NoCall?)
                  || (call.WantPop? && call' == DidPop(None) && Chain(s.nodes, 0) == []))
  {
    assert PcOk(s.nodes, s.threads[t]);
  }

  /** A step of the machine is a step of the atomic queue, or invisible to it, if and only if
      it is harmless. */
  lemma StepRefinesIff(s: State, t: nat, act: Action)
    requires Inv(s) && Enabled(s, t, act)
    ensures Ordered(Next(s, t, act).nodes)
    ensures SpecNext(Abs(s), Abs(Next(s, t, act)), t, act) <==> Harmless(s, t, act)
  {
    if Links(s, t, act) {
      LinkIsSpecStepIff(s, t);
    } else if Takes(s, t, act) {
      TakeIsSpecStepIff(s, t);
    } else {
      OtherIsSpecStep(s, t, act);
    }
  }

  /** The step is one of the atomic queue, by the thread and the action that made it. */
  ghost predicate RefinesAt(run: seq<State>, i: nat) {
    && i + 1 < |run| && Ordered(run[i].nodes) && Ordered(run[i + 1].nodes)
    && exists t: nat, act: Action ::
         && Enabled(run[i], t, act) && run[i + 1] == Next(run[i], t, act)
         && SpecNext(Abs(run[i]), Abs(run[i + 1]), t, act)
  }

  lemma RefinesAtIff(run: seq<State>, i: nat)
    requires IsRun(run) && i + 1 < |run|
    ensures RefinesAt(run, i) <==> HarmlessAt(run, i)
  {
    RunKeepsInv(run, i);
    RunKeepsInv(run, i + 1);
    if RefinesAt(run, i) {
      var t: nat, act: Action :|
        && Enabled(run[i], t, act) && run[i + 1] == Next(run[i], t, act)
        && SpecNext(Abs(run[i]), Abs(run[i + 1]), t, act);
      StepRefinesIff(run[i], t, act);
    }
    if HarmlessAt(run, i) {
      var t: nat, act: Action :|
        Enabled(run[i], t, act) && run[i + 1] == Next(run[i], t, act) && Harmless(run[i], t, act);
      StepRefinesIff(run[i], t, act);
    }
  }

  /** A run, with the answers its pops give, is a run of the atomic queue if and only if every
      step of it is harmless. */
  lemma RunRefinesIff(run: seq<State>)
    requires IsRun(run)
    ensures Ordered(run[0].nodes) && Abs(run[0]).queue == []
    ensures forall t :: 0 <= t < |Abs(run[0]).calls| ==> Abs(run[0]).calls[t] == NoCall
    ensures (forall i: nat :: i + 1 < |run| ==> RefinesAt(run, i)) <==> HarmlessUpTo(run, |run| - 1)
  {
    forall i: nat | i + 1 < |run|
      ensures RefinesAt(run, i) <==> HarmlessAt(run, i)
    {
      RefinesAtIff(run, i);
    }
  }
}
