/** A step that claims no slot with a store or a load still pending is a step of a bounded
    first-in-first-out queue: each push and pop takes effect at its counter compare-and-swap
    (src/lockfree/ringbuf_queue.cc:100-168). */
module RingLinear {
  import opened Wrappers
  import opened Sums
  import opened RingMachine
  import opened RingLedger

  // ---- The specification: a bounded queue whose operations happen at once ----

  datatype Call =
    | NoCall
    | WantPush(x: Item, try: bool)
    | DidPush
    | WantPop
    | DidPop(r: Item)

  datatype Spec = Spec(queue: seq<Item>, calls: seq<Call>, answers: seq<Answer>)

  function SetCall(S: Spec, t: nat, call: Call): Spec
    requires t < |S.calls|
  {
    S.(calls := S.calls[t := call])
  }

  function Reply(S: Spec, t: nat, a: Answer): Spec
    requires t < |S.calls|
  {
    SetCall(S, t, NoCall).(answers := S.answers + [a])
  }

  /** The moment an operation happens: at most capacity - 1 elements, oldest out first. */
  predicate Happens(S: Spec, S': Spec, t: nat, capacity: nat)
    requires t < |S.calls|
  {
    match S.calls[t]
    case WantPush(x, try) =>
      if |S.queue| + 1 < capacity then S' == SetCall(S, t, DidPush).(queue := S.queue + [x])
      else try && S' == Reply(S, t, Refused(t, x))
    case WantPop =>
      if S.queue == [] then S' == Reply(S, t, Popped(t, None))
      else S' == SetCall(S, t, DidPop(S.queue[0])).(queue := S.queue[1..])
    case _ => false
  }

  predicate Returns(S: Spec, S': Spec, t: nat)
    requires t < |S.calls|
  {
    match S.calls[t]
    case DidPush => S' == Reply(S, t, Pushed(t))
    case DidPop(r) => S' == Reply(S, t, Popped(t, Some(r)))
    case _ => false
  }

  /** What the action of thread t may do: a call begins as it was made; inside it, nothing
      visible, its one moment, or its return. */
  predicate SpecNext(S: Spec, S': Spec, t: nat, act: Action, capacity: nat)
    requires t < |S.calls|
  {
    match act
    case BeginPush(x, try) => S.calls[t] == NoCall && S' == SetCall(S, t, WantPush(x, try))
    case BeginPop => S.calls[t] == NoCall && S' == SetCall(S, t, WantPop)
    case Advance(_) => S' == S || Happens(S, S', t, capacity) || Returns(S, S', t)
  }

  predicate SpecInit(S: Spec) {
    S.queue == [] && S.answers == [] && forall t :: 0 <= t < |S.calls| ==> S.calls[t].NoCall?
  }

  // ---- Clean runs ----

  /** The slot that the step would claim, if it claims one. */
  predicate Claims(s: State, t: nat, act: Action, slot: nat) {
    && Enabled(s, t, act) && act == Advance(false)
    && match s.threads[t]
       case Push(_, e, _, _) => s.counter == e && slot == e.push
       case Pop(e, _) => s.counter == e && slot == e.pop
       case _ => false
  }

  predicate Clear(s: State, slot: nat) {
    Stores(s, slot) == 0 && Loads(s, slot) == 0
  }

  ghost predicate CleanMove(s: State, t: nat, act: Action) {
    && Enabled(s, t, act)
    && forall slot :: Claims(s, t, act, slot) ==> Clear(s, slot)
  }

  ghost predicate CleanStep(s: State, s': State) {
    exists t: nat, act: Action :: CleanMove(s, t, act) && s' == Next(s, t, act)
  }

  ghost predicate CleanAt(run: seq<State>, i: nat) {
    i + 1 < |run| && CleanStep(run[i], run[i + 1])
  }

  /** A run in which no claim lands on a slot with a store or a load pending. */
  ghost predicate IsCleanRun(run: seq<State>, capacity: nat) {
    && |run| > 0 && Init(run[0], capacity)
    && forall i: nat :: i + 1 < |run| ==> CleanAt(run, i)
  }

  /** Nothing was missed, and at most one thread is busy with a slot. */
  ghost predicate Clean(s: State) {
    forall slot :: 0 <= slot < |s.slots| ==>
      slot < |s.misses| && s.misses[slot] == 0 && Stores(s, slot) + Loads(s, slot) <= 1
  }

  // ---- The abstraction ----

  function Length(c: Counter, capacity: nat): int {
    if c.pop <= c.push then c.push - c.pop else c.push + capacity - c.pop
  }

  /** The slot of the k-th element. */
  function Place(c: Counter, capacity: nat, k: nat): nat {
    if c.pop + k < capacity then c.pop + k else (c.pop + k - capacity) as nat
  }

  /** The slot holds x, or the push that has claimed it is about to put x there. */
  predicate Destined(s: State, slot: nat, x: Item) {
    && slot < |s.slots|
    && (s.slots[slot].Some? ==> s.slots[slot] == Some(x))
    && (s.slots[slot] == None ==>
          forall t :: 0 <= t < |s.threads| ==>
            s.threads[t].Store? && s.threads[t].slot == slot ==> s.threads[t].x == x)
  }

  predicate CallMatches(s: State, pc: PC, call: Call) {
    match pc
    case Idle => call == NoCall
    case Push(x, _, _, try) => call == WantPush(x, try)
    case Store(_, _) => call == DidPush
    case Pop(_, _) => call == WantPop
    case Load(slot) => call.DidPop? && slot < |s.slots| && s.slots[slot] == Some(call.r)
  }

  ghost predicate Represents(s: State, S: Spec) {
    var capacity := |s.slots|;
    && |S.calls| == |s.threads|
    && S.answers == s.answers
    && |S.queue| == Length(s.counter, capacity)
    && (forall k :: 0 <= k < |S.queue| ==> Destined(s, Place(s.counter, capacity, k), S.queue[k]))
    && (forall t :: 0 <= t < |s.threads| ==> CallMatches(s, s.threads[t], S.calls[t]))
  }

  // ---- What cleanness gives ----

  /** A store finds its slot empty, and so never blocks. */
  lemma StoreFindsRoom(s: State, t: nat)
    requires Inv(s) && Clean(s) && t < |s.threads| && s.threads[t].Store?
    ensures var slot := s.threads[t].slot;
            slot < |s.slots| && s.slots[slot] == None && InWindow(s.counter, slot) && Loads(s, slot) == 0
  {
    var slot := s.threads[t].slot;
    assert PcOk(s.threads[t], |s.slots|);
    assert SlotLedger(s, slot);
    SumAt(s.threads, t, StoresFn(slot));
  }

  /** A load finds its slot full. */
  lemma LoadFindsItem(s: State, t: nat)
    requires Inv(s) && Clean(s) && t < |s.threads| && s.threads[t].Load?
    ensures var slot := s.threads[t].slot;
            && slot < |s.slots| && s.slots[slot].Some? && !InWindow(s.counter, slot)
            && Stores(s, slot) == 0
  {
    var slot := s.threads[t].slot;
    assert PcOk(s.threads[t], |s.slots|);
    assert SlotLedger(s, slot);
    SumAt(s.threads, t, LoadsFn(slot));
  }

  lemma NoOtherLoads(s: State, t: nat, u: nat, slot: nat)
    requires slot < |s.slots| && Clean(s) && t < |s.threads| && u < |s.threads| && t != u
    requires LoadsOf(s.threads[t], slot) == 1
    ensures LoadsOf(s.threads[u], slot) == 0
  {
    assert Stores(s, slot) + Loads(s, slot) <= 1;
    if t < u {
      SumAtTwo(s.threads, t, u, LoadsFn(slot));
    } else {
      SumAtTwo(s.threads, u, t, LoadsFn(slot));
    }
  }

  lemma NoneIfZero(s: State, slot: nat, u: nat)
    requires u < |s.threads|
    ensures Stores(s, slot) == 0 ==> StoresOf(s.threads[u], slot) == 0
    ensures Loads(s, slot) == 0 ==> LoadsOf(s.threads[u], slot) == 0
  {
    SumAt(s.threads, u, StoresFn(slot));
    SumAt(s.threads, u, LoadsFn(slot));
  }

  /** A step adds a claim on a slot only by a claiming compare-and-swap. */
  lemma OnlyClaimsAdd(s: State, t: nat, act: Action, slot: nat)
    requires Inv(s) && Enabled(s, t, act)
    ensures var pc, pc' := s.threads[t], Next(s, t, act).threads[t];
            StoresOf(pc', slot) + LoadsOf(pc', slot) <= StoresOf(pc, slot) + LoadsOf(pc, slot)
            || (Claims(s, t, act, slot) && StoresOf(pc', slot) + LoadsOf(pc', slot) == 1)
  {
  }

  lemma StepKeepsClean(s: State, t: nat, act: Action)
    requires Inv(s) && Clean(s) && CleanMove(s, t, act)
    ensures Clean(Next(s, t, act))
  {
    var s', pc := Next(s, t, act), s.threads[t];
    StepKeepsInv(s, t, act);
    if pc.Load? {
      LoadFindsItem(s, t);
    }
    forall slot | 0 <= slot < |s'.slots|
      ensures slot < |s'.misses| && s'.misses[slot] == 0 && Stores(s', slot) + Loads(s', slot) <= 1
    {
      OnlyClaimsAdd(s, t, act, slot);
      ClaimsMove(s, t, s'.threads[t], slot);
      assert Stores(s, slot) + Loads(s, slot) <= 1;
    }
  }

  lemma Places(c: Counter, capacity: nat, k: nat)
    requires CounterOk(c, capacity) && k <= Length(c, capacity)
    ensures 0 <= Length(c, capacity) < capacity
    ensures Place(c, capacity, k) < capacity
    ensures k < Length(c, capacity) ==> InWindow(c, Place(c, capacity, k))
    ensures k == Length(c, capacity) ==> Place(c, capacity, k) == c.push
  {
  }

  // ---- Simulation ----

  /** What the specification does while the machine makes a step. */
  function Follow(s: State, S: Spec, t: nat, act: Action): Spec
    requires Enabled(s, t, act) && t < |S.calls|
  {
    match act
    case BeginPush(x, try) => SetCall(S, t, WantPush(x, try))
    case BeginPop => SetCall(S, t, WantPop)
    case Advance(spurious) =>
      match s.threads[t]
      case Push(x, e, _, try) =>
        if s.counter == e && !spurious then SetCall(S, t, DidPush).(queue := S.queue + [x])
        else if try && After(s.counter.push, |s.slots|) == s.counter.pop then Reply(S, t, Refused(t, x))
        else S
      case Store(_, slot) => if spurious then S else Reply(S, t, Pushed(t))
      case Pop(e, _) =>
        if s.counter == e && !spurious && S.queue != [] then
          SetCall(S, t, DidPop(S.queue[0])).(queue := S.queue[1..])
        else if s.counter.push == s.counter.pop then Reply(S, t, Popped(t, None))
        else S
      case Load(slot) => if slot < |s.slots| then Reply(S, t, Popped(t, s.slots[slot])) else S
  }

  ghost predicate Simulates(s: State, S: Spec, t: nat, act: Action)
    requires Enabled(s, t, act) && t < |S.calls|
  {
    && Represents(Next(s, t, act), Follow(s, S, t, act))
    && SpecNext(S, Follow(s, S, t, act), t, act, |s.slots|)
  }

  /** Steps that move neither the counter nor a slot. */
  lemma QuietKeepsDestined(s: State, s': State, t: nat, slot: nat, x: Item)
    requires Destined(s, slot, x) && s'.slots == s.slots && t < |s.threads| == |s'.threads|
    requires s'.threads == s.threads[t := s'.threads[t]]
    requires s'.threads[t].Store? ==> s'.threads[t].slot != slot || s'.threads[t].x == x
    ensures Destined(s', slot, x)
  {
  }

  lemma PushClaimSimulates(s: State, S: Spec, t: nat)
    requires Inv(s) && Clean(s) && Represents(s, S) && Enabled(s, t, Advance(false))
    requires s.threads[t].Push? && s.counter == s.threads[t].e && Clear(s, s.threads[t].e.push)
    ensures Simulates(s, S, t, Advance(false))
  {
    var pc, s' := s.threads[t], Next(s, t, Advance(false));
    var capacity := |s.slots|;
    assert PcOk(pc, capacity) && SlotLedger(s, pc.e.push);
    var S' := Follow(s, S, t, Advance(false));
    WindowAfterPush(pc.e, pc.d, capacity, pc.e.push);
    Places(s.counter, capacity, |S.queue|);
    forall k | 0 <= k < |S'.queue|
      ensures Destined(s', Place(s'.counter, capacity, k), S'.queue[k])
    {
      Places(s.counter, capacity, k);
      if k < |S.queue| {
        QuietKeepsDestined(s, s', t, Place(s.counter, capacity, k), S.queue[k]);
      } else {
        forall u | 0 <= u < |s'.threads| && u != t
          ensures StoresOf(s.threads[u], pc.e.push) == 0
        {
          NoneIfZero(s, pc.e.push, u);
        }
      }
    }
    assert Happens(S, S', t, capacity);
  }

  lemma PopClaimSimulates(s: State, S: Spec, t: nat)
    requires Inv(s) && Clean(s) && Represents(s, S) && Enabled(s, t, Advance(false))
    requires s.threads[t].Pop? && s.counter == s.threads[t].e && Clear(s, s.threads[t].e.pop)
    ensures Simulates(s, S, t, Advance(false))
  {
    var pc, s' := s.threads[t], Next(s, t, Advance(false));
    var capacity := |s.slots|;
    assert PcOk(pc, capacity) && SlotLedger(s, pc.e.pop);
    var S' := Follow(s, S, t, Advance(false));
    WindowAfterPop(pc.e, pc.d, capacity, pc.e.pop);
    Places(s.counter, capacity, 0);
    assert Destined(s, Place(s.counter, capacity, 0), S.queue[0]);
    forall k | 0 <= k < |S'.queue|
      ensures Destined(s', Place(s'.counter, capacity, k), S'.queue[k])
    {
      Places(s.counter, capacity, k + 1);
      assert Destined(s, Place(s.counter, capacity, k + 1), S.queue[k + 1]);
      QuietKeepsDestined(s, s', t, Place(s.counter, capacity, k + 1), S.queue[k + 1]);
    }
    assert Happens(S, S', t, capacity);
  }

  lemma StoreSimulates(s: State, S: Spec, t: nat)
    requires Inv(s) && Clean(s) && Represents(s, S) && Enabled(s, t, Advance(false))
    requires s.threads[t].Store?
    ensures Simulates(s, S, t, Advance(false))
  {
    var pc, s' := s.threads[t], Next(s, t, Advance(false));
    var capacity := |s.slots|;
    StoreFindsRoom(s, t);
    var S' := Follow(s, S, t, Advance(false));
    forall k | 0 <= k < |S'.queue|
      ensures Destined(s', Place(s'.counter, capacity, k), S'.queue[k])
    {
      assert Destined(s, Place(s.counter, capacity, k), S.queue[k]);
    }
    forall u | 0 <= u < |s'.threads|
      ensures CallMatches(s', s'.threads[u], S'.calls[u])
    {
      assert CallMatches(s, s.threads[u], S.calls[u]);
      NoneIfZero(s, pc.slot, u);
    }
    assert CallMatches(s, pc, S.calls[t]);
    assert Returns(S, S', t);
  }

  lemma LoadSimulates(s: State, S: Spec, t: nat, spurious: bool)
    requires Inv(s) && Clean(s) && Represents(s, S) && Enabled(s, t, Advance(spurious))
    requires s.threads[t].Load?
    ensures Simulates(s, S, t, Advance(spurious))
  {
    var pc, s' := s.threads[t], Next(s, t, Advance(spurious));
    var capacity := |s.slots|;
    LoadFindsItem(s, t);
    var S' := Follow(s, S, t, Advance(spurious));
    forall k | 0 <= k < |S'.queue|
      ensures Destined(s', Place(s'.counter, capacity, k), S'.queue[k])
    {
      Places(s.counter, capacity, k);
      assert Destined(s, Place(s.counter, capacity, k), S.queue[k]);
    }
    forall u | 0 <= u < |s'.threads|
      ensures CallMatches(s', s'.threads[u], S'.calls[u])
    {
      assert CallMatches(s, s.threads[u], S.calls[u]);
      if u != t {
        NoOtherLoads(s, t, u, pc.slot);
      }
    }
    assert CallMatches(s, pc, S.calls[t]);
    assert Returns(S, S', t);
  }

  lemma BeginSimulates(s: State, S: Spec, t: nat, act: Action)
    requires Inv(s) && Represents(s, S) && Enabled(s, t, act) && !act.Advance?
    ensures Simulates(s, S, t, act)
  {
    var s', S' := Next(s, t, act), Follow(s, S, t, act);
    SameElements(s, S, s', t);
    assert CallMatches(s, s.threads[t], S.calls[t]);
  }

  /** A step that moves neither the counter nor a slot, and does not start to fill one. */
  lemma SameElements(s: State, S: Spec, s': State, t: nat)
    requires Inv(s) && Represents(s, S) && t < |s.threads| == |s'.threads|
    requires s'.counter == s.counter && s'.slots == s.slots
    requires s'.threads == s.threads[t := s'.threads[t]] && !s'.threads[t].Store?
    ensures forall k :: 0 <= k < |S.queue| ==>
              Destined(s', Place(s'.counter, |s.slots|, k), S.queue[k])
  {
    forall k | 0 <= k < |S.queue|
      ensures Destined(s', Place(s'.counter, |s.slots|, k), S.queue[k])
    {
      assert Destined(s, Place(s.counter, |s.slots|, k), S.queue[k]);
      QuietKeepsDestined(s, s', t, Place(s.counter, |s.slots|, k), S.queue[k]);
    }
  }

  /** A failed attempt, an answer "full" or "empty". */
  lemma AttemptSimulates(s: State, S: Spec, t: nat, spurious: bool)
    requires Inv(s) && Represents(s, S) && Enabled(s, t, Advance(spurious))
    requires s.threads[t].Push? || s.threads[t].Pop?
    requires spurious || s.counter != s.threads[t].e
    ensures Simulates(s, S, t, Advance(spurious))
  {
    var s', S' := Next(s, t, Advance(spurious)), Follow(s, S, t, Advance(spurious));
    assert PcOk(s.threads[t], |s.slots|) && CallMatches(s, s.threads[t], S.calls[t]);
    RemainderIsAfter(s.counter, |s.slots|);
    SameElements(s, S, s', t);
    Places(s.counter, |s.slots|, 0);
    assert S' == S || Happens(S, S', t, |s.slots|);
  }

  lemma StepSimulates(s: State, S: Spec, t: nat, act: Action)
    requires Inv(s) && Clean(s) && Represents(s, S) && CleanMove(s, t, act)
    ensures Simulates(s, S, t, act)
  {
    var pc := s.threads[t];
    if act.Advance? && pc.Store? {
      if act.spurious {
        assert Follow(s, S, t, act) == S;
      } else {
        StoreSimulates(s, S, t);
      }
    } else if act.Advance? && pc.Load? {
      LoadSimulates(s, S, t, act.spurious);
    } else if act == Advance(false) && pc.Push? && s.counter == pc.e {
      assert Claims(s, t, act, pc.e.push);
      PushClaimSimulates(s, S, t);
    } else if act == Advance(false) && pc.Pop? && s.counter == pc.e {
      assert Claims(s, t, act, pc.e.pop);
      PopClaimSimulates(s, S, t);
    } else if act.Advance? {
      AttemptSimulates(s, S, t, act.spurious);
    } else {
      BeginSimulates(s, S, t, act);
    }
  }
}
