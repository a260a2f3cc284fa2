/** What the ring promises in every run: the slot ledger, conservation of pointers, and that
    it is safe exactly for capacities of two and more. */
module RingTheorems {
  import opened Wrappers
  import opened Sums
  import opened RingMachine
  import opened RingLedger

  // ---- The ledger ----

  /** In every reachable state, for every slot: occupied + pending stores equals in the window
      + pending loads + past loads that found nothing. */
  lemma EverySlotBalances(run: seq<State>, capacity: nat, i: nat, slot: nat)
    requires 2 <= capacity && IsRun(run, capacity) && i < |run| && slot < capacity
    ensures |run[i].slots| == |run[i].misses| == capacity
    ensures SlotLedger(run[i], slot)
  {
    RunKeepsInv(run, capacity, i);
  }

  /** With no misses and nothing pending, the occupied slots are exactly the window. */
  lemma OccupiedIsWindowAtRest(run: seq<State>, capacity: nat, i: nat, slot: nat)
    requires 2 <= capacity && IsRun(run, capacity) && i < |run| && slot < capacity
    requires forall t :: 0 <= t < |run[i].threads| ==> run[i].threads[t].Idle?
    requires |run[i].misses| == capacity && run[i].misses[slot] == 0
    ensures |run[i].slots| == capacity
    ensures run[i].slots[slot].Some? <==> InWindow(run[i].counter, slot)
  {
    RunKeepsInv(run, capacity, i);
    SumIsZero(run[i].threads, StoresFn(slot));
    SumIsZero(run[i].threads, LoadsFn(slot));
    assert SlotLedger(run[i], slot);
  }

  // ---- Conservation ----

  function InSlot(slot: Option<Item>, x: Item): nat {
    if slot == Some(x) then 1 else 0
  }

  function HeldBy(pc: PC, x: Item): nat {
    if (pc.Push? || pc.Store?) && pc.x == x then 1 else 0
  }

  /** A pointer handed to a caller, by a pop or by a try_push that found no room. */
  function HandedBy(a: Answer, x: Item): nat {
    match a
    case Pushed(_) => 0
    case Refused(_, y) => if y == x then 1 else 0
    case Popped(_, r) => InSlot(r, x)
  }

  function InSlotFn(x: Item): Option<Item> -> nat {
    slot => InSlot(slot, x)
  }

  function HeldFn(x: Item): PC -> nat {
    pc => HeldBy(pc, x)
  }

  function HandedFn(x: Item): Answer -> nat {
    a => HandedBy(a, x)
  }

  /** Everything given to pushes is in a slot, in the hands of a push, or handed out. */
  predicate Conserved(s: State, x: Item) {
    s.given[x] == Sum(s.slots, InSlotFn(x)) + Sum(s.threads, HeldFn(x)) + Sum(s.answers, HandedFn(x))
  }

  lemma ConservedByMoves(s: State, s': State, t: nat, x: Item)
    requires Conserved(s, x) && t < |s.threads| == |s'.threads|
    requires s'.threads == s.threads[t := s'.threads[t]]
    requires |s'.slots| == |s.slots|
    requires s'.slots == s.slots && (s'.answers == s.answers || |s'.answers| == |s.answers| + 1)
    requires s'.answers == s.answers || s'.answers == s.answers + [s'.answers[|s.answers|]]
    requires s'.given[x] + HeldBy(s.threads[t], x)
             == s.given[x] + HeldBy(s'.threads[t], x)
                + if s'.answers == s.answers then 0 else HandedBy(s'.answers[|s.answers|], x)
    ensures Conserved(s', x)
  {
    SumUpdate(s.threads, t, s'.threads[t], HeldFn(x));
    if s'.answers != s.answers {
      SumAppend(s.answers, s'.answers[|s.answers|], HandedFn(x));
    }
  }

  lemma SlotStepConserves(s: State, t: nat, slot: nat, r: Option<Item>, a: Answer, x: Item)
    requires Conserved(s, x) && t < |s.threads| && slot < |s.slots|
    requires InSlot(s.slots[slot], x) + HeldBy(s.threads[t], x) == InSlot(r, x) + HandedBy(a, x)
    ensures Conserved(Finish(s, t, a).(slots := s.slots[slot := r]), x)
  {
    SumUpdate(s.threads, t, Idle, HeldFn(x));
    SumUpdate(s.slots, slot, r, InSlotFn(x));
    SumAppend(s.answers, a, HandedFn(x));
  }

  lemma StepConserves(s: State, t: nat, act: Action, x: Item)
    requires Inv(s) && Conserved(s, x) && Enabled(s, t, act)
    ensures Conserved(Next(s, t, act), x)
  {
    var pc := s.threads[t];
    assert PcOk(pc, |s.slots|);
    if act.Advance? && pc.Store? {
      if s.slots[pc.slot] == None {
        SlotStepConserves(s, t, pc.slot, Some(pc.x), Pushed(t), x);
      }
    } else if act.Advance? && pc.Load? {
      SlotStepConserves(s, t, pc.slot, None, Popped(t, s.slots[pc.slot]), x);
    } else {
      ConservedByMoves(s, Next(s, t, act), t, x);
    }
  }

  /** Nothing is lost, duplicated or overwritten, in any interleaving. */
  lemma {:induction false} EveryPointerIsSomewhere(run: seq<State>, capacity: nat, i: nat, x: Item)
    requires 2 <= capacity && IsRun(run, capacity) && i < |run|
    ensures Conserved(run[i], x)
  {
    if i == 0 {
      SumIsZero(run[0].slots, InSlotFn(x));
      SumIsZero(run[0].threads, HeldFn(x));
    } else {
      EveryPointerIsSomewhere(run, capacity, i - 1, x);
      RunKeepsInv(run, capacity, i - 1);
      assert StepAt(run, i - 1);
      var t: nat, act: Action :| Enabled(run[i - 1], t, act) && run[i] == Next(run[i - 1], t, act);
      StepConserves(run[i - 1], t, act, x);
    }
  }

  /** A claimed slot that is full is never written: a store fills only an empty one. */
  lemma StoreNeverOverwrites(s: State, t: nat, act: Action, slot: nat)
    requires Inv(s) && Enabled(s, t, act) && slot < |s.slots| && s.slots[slot].Some?
    ensures slot < |Next(s, t, act).slots|
    ensures Next(s, t, act).slots[slot] == s.slots[slot]
            || (s.threads[t] == Load(slot) && Next(s, t, act).slots[slot] == None
                && Next(s, t, act).answers == s.answers + [Popped(t, s.slots[slot])])
  {
  }

  // ---- Which capacities are safe ----

  ghost predicate Reachable(s: State, capacity: nat) {
    exists run: seq<State> :: IsRun(run, capacity) && run[|run| - 1] == s
  }

  lemma ReachInit(s: State, capacity: nat)
    requires Init(s, capacity)
    ensures Reachable(s, capacity)
  {
    assert IsRun([s], capacity);
  }

  lemma ReachNext(s: State, capacity: nat, t: nat, act: Action)
    requires Reachable(s, capacity) && Enabled(s, t, act)
    ensures Reachable(Next(s, t, act), capacity)
  {
    var run: seq<State> :| IsRun(run, capacity) && run[|run| - 1] == s;
    var longer := run + [Next(s, t, act)];
    assert Step(s, Next(s, t, act));
    forall i: nat | i + 1 < |longer|
      ensures StepAt(longer, i)
    {
      assert i + 1 < |run| ==> StepAt(run, i);
    }
    assert IsRun(longer, capacity);
  }

  lemma ReachableInv(s: State, capacity: nat)
    requires Reachable(s, capacity) && 2 <= capacity
    ensures Inv(s)
  {
    var run: seq<State> :| IsRun(run, capacity) && run[|run| - 1] == s;
    RunKeepsInv(run, capacity, |run| - 1);
  }

  /** Empty slots, nothing answered yet. */
  function Empty(capacity: nat, counter: Counter, threads: seq<PC>, given: multiset<Item>): State {
    State(counter, seq(capacity, _ => None), threads, [], given, seq(capacity, _ => 0), false)
  }

  const ITEM := Item(1, 0)

  lemma CapacityZeroFails()
    ensures exists s: State :: Reachable(s, 0) && s.fault
  {
    var start := Empty(0, Counter(0, 0), [Idle], multiset{});
    ReachInit(start, 0);
    ReachNext(start, 0, 0, BeginPop);
    var asked := start.(threads := [Pop(Counter(1, 0), Counter(1, 1))]);
    ReachNext(asked, 0, 0, Advance(false));
  }

  lemma FirstGuessLands(capacity: nat)
    requires capacity > 0
    ensures Reachable(
              Empty(capacity, Counter(1, 0), [Store(ITEM, 0), Idle, Idle], multiset{ITEM}), capacity)
  {
    var start := Empty(capacity, Counter(0, 0), [Idle, Idle, Idle], multiset{});
    ReachInit(start, capacity);
    ReachNext(start, capacity, 0, BeginPush(ITEM, false));
    var first := Empty(capacity, Counter(0, 0),
                       [Push(ITEM, Counter(0, 0), Counter(1, 0), false), Idle, Idle], multiset{ITEM});
    ReachNext(first, capacity, 0, Advance(false));
  }

  /** A push and a pop claim slot 0 by their first guesses, which bypass the modulus. */
  lemma BothGuessesLand(capacity: nat)
    requires capacity > 0
    ensures Reachable(
              Empty(capacity, Counter(1, 1), [Store(ITEM, 0), Load(0), Idle], multiset{ITEM}), capacity)
  {
    FirstGuessLands(capacity);
    var pushed := Empty(capacity, Counter(1, 0), [Store(ITEM, 0), Idle, Idle], multiset{ITEM});
    ReachNext(pushed, capacity, 1, BeginPop);
    var asked := pushed.(threads := [Store(ITEM, 0), Pop(Counter(1, 0), Counter(1, 1)), Idle]);
    ReachNext(asked, capacity, 1, Advance(false));
  }

  lemma CapacityOneFails()
    ensures exists s: State :: Reachable(s, 1) && s.fault
  {
    BothGuessesLand(1);
    var s := Empty(1, Counter(1, 1), [Store(ITEM, 0), Load(0), Idle], multiset{ITEM});
    ReachNext(s, 1, 2, BeginPush(ITEM, true));
    var again := s.(given := multiset{ITEM, ITEM});
    var guess := again.(threads := [Store(ITEM, 0), Load(0), Push(ITEM, Counter(0, 0), Counter(1, 0), true)]);
    ReachNext(guess, 1, 2, Advance(false));
    var retry := again.(threads := [Store(ITEM, 0), Load(0), Push(ITEM, Counter(1, 1), Counter(0, 1), true)]);
    ReachNext(retry, 1, 2, Advance(false));
    var outside := again.(threads := [Store(ITEM, 0), Load(0), Store(ITEM, 1)], counter := Counter(0, 1));
    ReachNext(outside, 1, 2, Advance(false));
  }

  /** No run leaves the slots or divides by zero if and only if the capacity is two or more. */
  lemma SafeIffCapacityTwo(capacity: nat)
    ensures capacity >= 2 <==> forall s: State :: Reachable(s, capacity) ==> !s.fault
  {
    if capacity >= 2 {
      forall s: State | Reachable(s, capacity)
        ensures !s.fault
      {
        ReachableInv(s, capacity);
      }
    } else if capacity == 1 {
      CapacityOneFails();
    } else {
      CapacityZeroFails();
    }
  }

  /** A pop that overtakes a pending store answers "nothing" although a push came first, and
      leaves the pushed pointer behind the pop point. */
  lemma PopCanOvertakeStore(capacity: nat)
    requires capacity >= 2
    ensures exists s: State ::
              && Reachable(s, capacity) && |s.threads| == 3 && s.threads[0] == Store(ITEM, 0)
              && s.answers == [Popped(1, None)] && |s.misses| == capacity && s.misses[0] == 1
  {
    BothGuessesLand(capacity);
    ReachNext(Empty(capacity, Counter(1, 1), [Store(ITEM, 0), Load(0), Idle], multiset{ITEM}),
              capacity, 1, Advance(false));
  }
}
