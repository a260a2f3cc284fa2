/** `RingbufQueue` as a machine of any number of pushing and popping threads
    (src/lockfree/ringbuf_queue.cc). The packed counter is one atomic pair; every
    compare-and-swap on it or on a slot is one step and may fail spuriously. */
module RingMachine {
  import opened Wrappers

  /** What a slot holds: a non-null pointer and the deleter in its tag. */
  datatype Item = Item(ptr: nat, deleter: nat)

  datatype Counter = Counter(push: nat, pop: nat)

  datatype PC =
    | Idle
    | Push(x: Item, e: Counter, d: Counter, try: bool)   // lines 109-118, or 137-145 for try_push
    | Store(x: Item, slot: nat)                          // lines 122, 146
    | Pop(e: Counter, d: Counter)                        // lines 159-166
    | Load(slot: nat)                                    // line 167

  /** What a finished call told its caller. */
  datatype Answer =
    | Pushed(t: nat)
    | Refused(t: nat, x: Item)
    | Popped(t: nat, r: Option<Item>)

  datatype State = State(
    counter: Counter,
    slots: seq<Option<Item>>,
    threads: seq<PC>,
    answers: seq<Answer>,
    given: multiset<Item>,        // handed to push or try_push so far
    misses: seq<nat>,             // per slot, pops that claimed it and found nothing
    fault: bool)                  // a slot out of range, or a remainder by zero

  datatype Action = BeginPush(x: Item, try: bool) | BeginPop | Advance(spurious: bool)

  const PUSH_GUESS: (Counter, Counter) := (Counter(0, 0), Counter(1, 0))
  const POP_GUESS: (Counter, Counter) := (Counter(1, 0), Counter(1, 1))

  predicate Enabled(s: State, t: nat, act: Action) {
    && t < |s.threads|
    && match act
       case BeginPush(x, _) => s.threads[t].Idle? && x.ptr != 0
       case BeginPop => s.threads[t].Idle?
       case Advance(_) => !s.threads[t].Idle?
  }

  function Go(s: State, t: nat, pc: PC): State
    requires t < |s.threads|
  {
    s.(threads := s.threads[t := pc])
  }

  function Finish(s: State, t: nat, a: Answer): State
    requires t < |s.threads|
  {
    Go(s, t, Idle).(answers := s.answers + [a])
  }

  function Next(s: State, t: nat, act: Action): State
    requires Enabled(s, t, act)
  {
    match act
    case BeginPush(x, try) =>
      Go(s, t, Push(x, PUSH_GUESS.0, PUSH_GUESS.1, try)).(given := s.given + multiset{x})
    case BeginPop => Go(s, t, Pop(POP_GUESS.0, POP_GUESS.1))
    case Advance(spurious) =>
      match s.threads[t]
      case Push(x, e, d, try) => NextPush(s, t, x, e, d, try, spurious)
      case Store(x, slot) => NextStore(s, t, x, slot, spurious)
      case Pop(e, d) => NextPop(s, t, e, d, spurious)
      case Load(slot) => NextLoad(s, t, slot)
  }

  /** Claims the slot at the push point, unless that would meet the pop point: then push goes
      back to its first guess and try_push gives the pointer back. */
  function NextPush(s: State, t: nat, x: Item, e: Counter, d: Counter, try: bool, spurious: bool): State
    requires t < |s.threads|
  {
    if s.counter == e && !spurious then Go(s, t, Store(x, e.push)).(counter := d)
    else if |s.slots| == 0 then s.(fault := true)
    else
      var seen := s.counter;
      var push' := (seen.push + 1) % |s.slots|;
      if push' != seen.pop then Go(s, t, Push(x, seen, Counter(push', seen.pop), try))
      else if try then Finish(s, t, Refused(t, x))
      else Go(s, t, Push(x, PUSH_GUESS.0, PUSH_GUESS.1, try))
  }

  /** `blocking_store`: fills the claimed slot once it is empty. */
  function NextStore(s: State, t: nat, x: Item, slot: nat, spurious: bool): State
    requires t < |s.threads|
  {
    if slot >= |s.slots| then s.(fault := true)
    else if s.slots[slot] == None && !spurious then
      Finish(s, t, Pushed(t)).(slots := s.slots[slot := Some(x)])
    else s
  }

  /** Claims the slot at the pop point, unless the counters say the ring is empty. */
  function NextPop(s: State, t: nat, e: Counter, d: Counter, spurious: bool): State
    requires t < |s.threads|
  {
    if s.counter == e && !spurious then Go(s, t, Load(e.pop)).(counter := d)
    else if |s.slots| == 0 then s.(fault := true)
    else
      var seen := s.counter;
      if seen.push == seen.pop then Finish(s, t, Popped(t, None))
      else Go(s, t, Pop(seen, Counter(seen.push, (seen.pop + 1) % |s.slots|)))
  }

  /** `load`: exchanges the claimed slot for null, whatever it holds. */
  function NextLoad(s: State, t: nat, slot: nat): State
    requires t < |s.threads|
  {
    if slot >= |s.slots| || slot >= |s.misses| then s.(fault := true)
    else
      var missed := if s.slots[slot] == None then 1 else 0;
      Finish(s, t, Popped(t, s.slots[slot]))
        .(slots := s.slots[slot := None], misses := s.misses[slot := s.misses[slot] + missed])
  }

  predicate Init(s: State, capacity: nat) {
    && s.counter == Counter(0, 0)
    && |s.slots| == capacity && (forall i :: 0 <= i < capacity ==> s.slots[i] == None)
    && |s.misses| == capacity && (forall i :: 0 <= i < capacity ==> s.misses[i] == 0)
    && (forall t :: 0 <= t < |s.threads| ==> s.threads[t] == Idle)
    && s.answers == [] && s.given == multiset{} && !s.fault
  }

  ghost predicate Step(s: State, s': State) {
    exists t: nat, act: Action :: Enabled(s, t, act) && s' == Next(s, t, act)
  }

  ghost predicate StepAt(run: seq<State>, i: nat) {
    i + 1 < |run| && Step(run[i], run[i + 1])
  }

  ghost predicate IsRun(run: seq<State>, capacity: nat) {
    |run| > 0 && Init(run[0], capacity) && forall i: nat :: i + 1 < |run| ==> StepAt(run, i)
  }
}
