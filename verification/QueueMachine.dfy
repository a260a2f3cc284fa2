/** `LockFreeQueue` as a machine of any number of pushing and popping threads
    (src/lockfree/lockfree_queue.cc). Every operation on a `std::atomic<SharedPtr>` is one
    step, which is what SharedPtrLinear proves of it. Node 0 is `__head`; every other node
    is named by the position at which it was linked, so the private node of a push gets
    its name when the push's compare-and-swap links it. */
module QueueMachine {
  import opened Wrappers

  type Value = int

  type Link = Option<nat>

  datatype Node = Node(value: Value, next: Link)

  const SIZES: nat := 0x1_0000_0000_0000_0000

  datatype PC =
    | Idle
    | PushLoad(v: Value)                   // line 73
    | PushCas(v: Value, at: nat)           // line 77, looking for a node without successor
    | PushStore(n: nat)                    // line 81
    | PushSize                             // line 82
    | PopLoad                              // line 40
    | PopNext(h: nat)                      // lines 45 and 51
    | PopCas(h: nat, after: Link)          // line 46
    | PopReset                             // reset_tail() on an empty queue
    | PopSize(h: nat)                      // line 54
    | PopClear(h: nat)                     // line 55

  datatype State = State(
    nodes: seq<Node>,
    tail: nat,
    size: nat,
    threads: seq<PC>,
    popped: seq<nat>,            // nodes taken off the head, in that order
    returned: multiset<nat>,     // nodes handed to callers of __pop
    fault: bool)                 // a pointer to no node has been followed

  datatype Action = BeginPush(v: Value) | BeginPop | Advance

  predicate Enabled(s: State, t: nat, act: Action) {
    && t < |s.threads|
    && (act.Advance? <==> !s.threads[t].Idle?)
  }

  function Go(s: State, t: nat, pc: PC): State
    requires t < |s.threads|
  {
    s.(threads := s.threads[t := pc])
  }

  function SetNext(nodes: seq<Node>, i: nat, next: Link): seq<Node>
    requires i < |nodes|
  {
    nodes[i := nodes[i].(next := next)]
  }

  function LinkAt(nodes: seq<Node>, at: nat, v: Value): seq<Node>
    requires at < |nodes|
  {
    SetNext(nodes, at, Some(|nodes|)) + [Node(v, None)]
  }

  /** Where a pop goes on with what it has seen in `__head.next`. */
  function Seen(head: Link): PC {
    match head
    case None => PopReset
    case Some(h) => PopNext(h)
  }

  /** What the thread is about to follow refers to linked nodes. */
  predicate PcOk(nodes: seq<Node>, pc: PC) {
    && |nodes| > 0
    && match pc
       case PushCas(_, at) => at < |nodes|
       case PushStore(n) => 0 < n < |nodes|
       case PopNext(h) => 0 < h < |nodes|
       case PopCas(h, after) => 0 < h < |nodes| && (after.Some? ==> h < after.value < |nodes|)
       case PopSize(h) => 0 < h < |nodes|
       case PopClear(h) => 0 < h < |nodes|
       case _ => true
  }

  function Next(s: State, t: nat, act: Action): State
    requires Enabled(s, t, act)
  {
    if !PcOk(s.nodes, s.threads[t]) then s.(fault := true) else
    match act
    case BeginPush(v) => Go(s, t, PushLoad(v))
    case BeginPop => Go(s, t, PopLoad)
    case Advance =>
      match s.threads[t]
      case PushLoad(v) => Go(s, t, PushCas(v, s.tail))
      case PushCas(v, at) =>
        (match s.nodes[at].next
         case None => Go(s, t, PushStore(|s.nodes|)).(nodes := LinkAt(s.nodes, at, v))
         case Some(n) => Go(s, t, PushCas(v, n)))
      case PushStore(n) => Go(s, t, PushSize).(tail := n)
      case PushSize => Go(s, t, Idle).(size := (s.size + 1) % SIZES)
      case PopLoad => Go(s, t, Seen(s.nodes[0].next))
      case PopNext(h) => Go(s, t, PopCas(h, s.nodes[h].next))
      case PopCas(h, after) =>
        if s.nodes[0].next == Some(h) then
          Go(s, t, PopSize(h)).(nodes := SetNext(s.nodes, 0, after), popped := s.popped + [h])
        else Go(s, t, Seen(s.nodes[0].next))
      case PopReset => Go(s, t, Idle).(tail := 0)
      case PopSize(h) => Go(s, t, PopClear(h)).(size := (s.size + SIZES - 1) % SIZES)
      case PopClear(h) =>
        Go(s, t, Idle).(nodes := SetNext(s.nodes, h, None), returned := s.returned + multiset{h})
  }

  predicate Init(s: State) {
    && s.nodes == [Node(0, None)] && s.tail == 0 && s.size == 0
    && s.popped == [] && s.returned == multiset{} && !s.fault
    && forall t :: 0 <= t < |s.threads| ==> s.threads[t].Idle?
  }

  ghost predicate Step(s: State, s': State) {
    exists t: nat, act: Action :: Enabled(s, t, act) && s' == Next(s, t, act)
  }

  ghost predicate StepAt(run: seq<State>, i: nat) {
    i + 1 < |run| && Step(run[i], run[i + 1])
  }

  ghost predicate IsRun(run: seq<State>) {
    |run| > 0 && Init(run[0]) && forall i: nat :: i + 1 < |run| ==> StepAt(run, i)
  }
}
