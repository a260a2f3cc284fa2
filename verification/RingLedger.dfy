/** What every interleaving of pushes and pops keeps: a ledger for every slot, and every
    pointer in exactly one place. */
module RingLedger {
  import opened Wrappers
  import opened Sums
  import opened RingMachine

  // ---- Positions on the ring ----

  /** One step along a ring of the given capacity. */
  function After(i: nat, capacity: nat): nat {
    if i + 1 == capacity then 0 else i + 1
  }

  predicate InWindow(counter: Counter, slot: nat) {
    if counter.pop <= counter.push then counter.pop <= slot < counter.push
    else counter.pop <= slot || slot < counter.push
  }

  // ---- What each thread is doing to each slot ----

  function StoresOf(pc: PC, slot: nat): nat {
    if pc.Store? && pc.slot == slot then 1 else 0
  }

  function LoadsOf(pc: PC, slot: nat): nat {
    if pc.Load? && pc.slot == slot then 1 else 0
  }

  function StoresFn(slot: nat): PC -> nat {
    pc => StoresOf(pc, slot)
  }

  function LoadsFn(slot: nat): PC -> nat {
    pc => LoadsOf(pc, slot)
  }

  /** Pushes that have claimed the slot and not yet filled it. */
  function Stores(s: State, slot: nat): nat {
    Sum(s.threads, StoresFn(slot))
  }

  /** Pops that have claimed the slot and not yet emptied it. */
  function Loads(s: State, slot: nat): nat {
    Sum(s.threads, LoadsFn(slot))
  }

  function Occupied(s: State, slot: nat): nat
    requires slot < |s.slots|
  {
    if s.slots[slot].Some? then 1 else 0
  }

  function Claimed(s: State, slot: nat): nat {
    if InWindow(s.counter, slot) then 1 else 0
  }

  // ---- The invariant ----

  predicate CounterOk(c: Counter, capacity: nat) {
    c.push < capacity && c.pop < capacity
  }

  /** The counter a push wants: one slot further, never onto the pop point. */
  predicate PushWant(e: Counter, d: Counter, capacity: nat) {
    CounterOk(e, capacity) && d == Counter(After(e.push, capacity), e.pop) && d.push != e.pop
  }

  predicate PopWant(e: Counter, d: Counter, capacity: nat) {
    CounterOk(e, capacity) && d == Counter(e.push, After(e.pop, capacity)) && e.push != e.pop
  }

  predicate PcOk(pc: PC, capacity: nat) {
    match pc
    case Idle => true
    case Push(_, e, d, _) => PushWant(e, d, capacity)
    case Store(_, slot) => slot < capacity
    case Pop(e, d) => PopWant(e, d, capacity)
    case Load(slot) => slot < capacity
  }

  predicate SlotLedger(s: State, slot: nat)
    requires slot < |s.slots| == |s.misses|
  {
    Occupied(s, slot) + Stores(s, slot) == Claimed(s, slot) + Loads(s, slot) + s.misses[slot]
  }

  ghost predicate Inv(s: State) {
    var capacity := |s.slots|;
    && 2 <= capacity == |s.misses| && CounterOk(s.counter, capacity) && !s.fault
    && (forall t :: 0 <= t < |s.threads| ==> PcOk(s.threads[t], capacity))
    && (forall slot :: 0 <= slot < capacity ==> SlotLedger(s, slot))
  }

  // ---- Steps ----

  lemma ClaimsMove(s: State, t: nat, pc: PC, slot: nat)
    requires t < |s.threads|
    ensures Sum(s.threads[t := pc], StoresFn(slot)) + StoresOf(s.threads[t], slot)
            == Stores(s, slot) + StoresOf(pc, slot)
    ensures Sum(s.threads[t := pc], LoadsFn(slot)) + LoadsOf(s.threads[t], slot)
            == Loads(s, slot) + LoadsOf(pc, slot)
  {
    SumUpdate(s.threads, t, pc, StoresFn(slot));
    SumUpdate(s.threads, t, pc, LoadsFn(slot));
  }

  lemma WindowAfterPush(e: Counter, d: Counter, capacity: nat, slot: nat)
    requires PushWant(e, d, capacity) && slot < capacity
    ensures !InWindow(e, e.push)
    ensures InWindow(d, slot) <==> InWindow(e, slot) || slot == e.push
  {
  }

  lemma WindowAfterPop(e: Counter, d: Counter, capacity: nat, slot: nat)
    requires PopWant(e, d, capacity) && slot < capacity
    ensures InWindow(e, e.pop)
    ensures InWindow(d, slot) <==> InWindow(e, slot) && slot != e.pop
  {
  }

  lemma PushKeepsLedger(s: State, t: nat, act: Action, slot: nat)
    requires Inv(s) && Enabled(s, t, act) && slot < |s.slots| && s.threads[t].Push?
    ensures var s' := Next(s, t, act);
            slot < |s'.slots| == |s'.misses| && SlotLedger(s', slot)
  {
    var pc := s.threads[t];
    assert PcOk(pc, |s.slots|) && SlotLedger(s, slot);
    ClaimsMove(s, t, Next(s, t, act).threads[t], slot);
    WindowAfterPush(pc.e, pc.d, |s.slots|, slot);
  }

  lemma PopKeepsLedger(s: State, t: nat, act: Action, slot: nat)
    requires Inv(s) && Enabled(s, t, act) && slot < |s.slots| && s.threads[t].Pop?
    ensures var s' := Next(s, t, act);
            slot < |s'.slots| == |s'.misses| && SlotLedger(s', slot)
  {
    var pc := s.threads[t];
    assert PcOk(pc, |s.slots|) && SlotLedger(s, slot);
    ClaimsMove(s, t, Next(s, t, act).threads[t], slot);
    WindowAfterPop(pc.e, pc.d, |s.slots|, slot);
  }

  lemma StepKeepsLedger(s: State, t: nat, act: Action, slot: nat)
    requires Inv(s) && Enabled(s, t, act) && slot < |s.slots|
    ensures var s' := Next(s, t, act);
            slot < |s'.slots| == |s'.misses| && SlotLedger(s', slot)
  {
    var pc := s.threads[t];
    if pc.Push? {
      PushKeepsLedger(s, t, act, slot);
    } else if pc.Pop? {
      PopKeepsLedger(s, t, act, slot);
    } else {
      assert PcOk(pc, |s.slots|) && SlotLedger(s, slot);
      ClaimsMove(s, t, Next(s, t, act).threads[t], slot);
    }
  }

  lemma StepKeepsInv(s: State, t: nat, act: Action)
    requires Inv(s) && Enabled(s, t, act)
    ensures Inv(Next(s, t, act))
    ensures |Next(s, t, act).slots| == |s.slots|
  {
    var s' := Next(s, t, act);
    assert PcOk(s.threads[t], |s.slots|);
    forall slot | 0 <= slot < |s.slots|
      ensures slot < |s'.slots| == |s'.misses| && SlotLedger(s', slot)
    {
      StepKeepsLedger(s, t, act, slot);
    }
    StepKeepsPcs(s, t, act);
  }

  lemma StepKeepsPcs(s: State, t: nat, act: Action)
    requires Inv(s) && Enabled(s, t, act)
    ensures var s' := Next(s, t, act);
            && !s'.fault && |s'.slots| == |s.slots| == |s'.misses|
            && CounterOk(s'.counter, |s.slots|)
            && forall u :: 0 <= u < |s'.threads| ==> PcOk(s'.threads[u], |s.slots|)
  {
    assert PcOk(s.threads[t], |s.slots|);
    RemainderIsAfter(s.counter, |s.slots|);
  }

  lemma RemainderIsAfter(c: Counter, capacity: nat)
    requires 2 <= capacity && CounterOk(c, capacity)
    ensures (c.push + 1) % capacity == After(c.push, capacity) < capacity
    ensures (c.pop + 1) % capacity == After(c.pop, capacity) < capacity
  {
  }

  lemma {:induction false} RunKeepsInv(run: seq<State>, capacity: nat, i: nat)
    requires 2 <= capacity && IsRun(run, capacity) && i < |run|
    ensures Inv(run[i]) && |run[i].slots| == capacity
  {
    if i == 0 {
      forall slot | 0 <= slot < capacity
        ensures SlotLedger(run[0], slot)
      {
        SumIsZero(run[0].threads, StoresFn(slot));
        SumIsZero(run[0].threads, LoadsFn(slot));
      }
    } else {
      RunKeepsInv(run, capacity, i - 1);
      assert StepAt(run, i - 1);
      var t: nat, act: Action :| Enabled(run[i - 1], t, act) && run[i] == Next(run[i - 1], t, act);
      StepKeepsInv(run[i - 1], t, act);
    }
  }
}
