/** Runs in which no claim lands on a slot with a store or a load still pending: the ring is a
    bounded first-in-first-out queue, and they are exactly the runs in which no store blocks and
    no claimed load comes back empty (src/lockfree/ringbuf_queue.cc:31-71, 100-168). */
module RingClean {
  import opened Wrappers
  import opened Sums
  import opened RingMachine
  import opened RingLedger
  import opened RingLinear

  // ---- Clean runs refine the bounded queue ----

  ghost predicate Refines(run: seq<State>, specs: seq<Spec>, capacity: nat) {
    && |specs| == |run| > 0 && SpecInit(specs[0])
    && (forall i :: 0 <= i < |run| ==> Represents(run[i], specs[i]))
    && (forall i: nat :: i + 1 < |run| ==> SpecStepAt(run, specs, i, capacity))
  }

  /** The step is one of the bounded queue, by the thread and the action that made it. */
  ghost predicate SpecStep(s: State, s': State, S: Spec, S': Spec, capacity: nat) {
    exists t: nat, act: Action ::
      && Enabled(s, t, act) && s' == Next(s, t, act) && t < |S.calls|
      && SpecNext(S, S', t, act, capacity)
  }

  ghost predicate SpecStepAt(run: seq<State>, specs: seq<Spec>, i: nat, capacity: nat) {
    i + 1 < |run| && i + 1 < |specs| && SpecStep(run[i], run[i + 1], specs[i], specs[i + 1], capacity)
  }

  lemma CleanRunIsRun(run: seq<State>, capacity: nat)
    requires IsCleanRun(run, capacity)
    ensures IsRun(run, capacity)
  {
    forall i: nat | i + 1 < |run|
      ensures StepAt(run, i)
    {
      assert CleanAt(run, i);
    }
  }

  lemma {:induction false} CleanRunStaysClean(run: seq<State>, capacity: nat, i: nat)
    requires 2 <= capacity && IsCleanRun(run, capacity) && i < |run|
    ensures Inv(run[i]) && Clean(run[i]) && |run[i].slots| == capacity
  {
    CleanRunIsRun(run, capacity);
    RunKeepsInv(run, capacity, i);
    if i == 0 {
      forall slot | 0 <= slot < capacity
        ensures Stores(run[0], slot) + Loads(run[0], slot) == 0
      {
        SumIsZero(run[0].threads, StoresFn(slot));
        SumIsZero(run[0].threads, LoadsFn(slot));
      }
    } else {
      CleanRunStaysClean(run, capacity, i - 1);
      assert CleanAt(run, i - 1);
      var t: nat, act: Action :| CleanMove(run[i - 1], t, act) && run[i] == Next(run[i - 1], t, act);
      StepKeepsClean(run[i - 1], t, act);
    }
  }

  lemma CleanStepRefines(s: State, s': State, S: Spec)
    requires Inv(s) && Clean(s) && Represents(s, S) && CleanStep(s, s')
    ensures exists S': Spec :: Represents(s', S') && SpecStep(s, s', S, S', |s.slots|)
  {
    var t: nat, act: Action :| CleanMove(s, t, act) && s' == Next(s, t, act);
    StepSimulates(s, S, t, act);
    assert Represents(s', Follow(s, S, t, act)) && SpecStep(s, s', S, Follow(s, S, t, act), |s.slots|);
  }

  lemma FirstRefines(run: seq<State>, capacity: nat)
    requires |run| == 1 && 2 <= capacity && Init(run[0], capacity)
    ensures exists specs: seq<Spec> :: Refines(run, specs, capacity)
  {
    var S := Spec([], seq(|run[0].threads|, _ => NoCall), []);
    assert Represents(run[0], S);
    assert Refines(run, [S], capacity);
  }

  lemma CleanFront(run: seq<State>, capacity: nat)
    requires IsCleanRun(run, capacity) && |run| > 1
    ensures IsCleanRun(run[..|run| - 1], capacity) && CleanStep(run[|run| - 2], run[|run| - 1])
  {
    var front := run[..|run| - 1];
    assert CleanAt(run, |run| - 2);
    forall i: nat | i + 1 < |front|
      ensures CleanAt(front, i)
    {
      assert CleanAt(run, i);
    }
  }

  /** Every clean run, with the answers it gives, is a run of the bounded queue. */
  lemma {:induction false} CleanRunRefines(run: seq<State>, capacity: nat)
    requires 2 <= capacity && IsCleanRun(run, capacity)
    ensures exists specs: seq<Spec> :: Refines(run, specs, capacity)
    decreases |run|
  {
    var n := |run| - 1;
    if n == 0 {
      FirstRefines(run, capacity);
    } else {
      CleanFront(run, capacity);
      CleanRunRefines(run[..n], capacity);
      var specs: seq<Spec> :| Refines(run[..n], specs, capacity);
      LongerRefines(run, specs, capacity);
    }
  }

  lemma LongerRefines(run: seq<State>, specs: seq<Spec>, capacity: nat)
    requires 2 <= capacity && IsCleanRun(run, capacity) && |run| == |specs| + 1
    requires |specs| > 0 && Refines(run[..|specs|], specs, capacity)
    ensures exists longer: seq<Spec> :: Refines(run, longer, capacity)
  {
    var n := |specs|;
    CleanFront(run, capacity);
    CleanRunStaysClean(run, capacity, n - 1);
    assert Represents(run[..n][n - 1], specs[n - 1]);
    CleanStepRefines(run[n - 1], run[n], specs[n - 1]);
    var S': Spec :| Represents(run[n], S') && SpecStep(run[n - 1], run[n], specs[n - 1], S', capacity);
    ExtendRefines(run, specs, S', capacity);
  }

  lemma ExtendRefines(run: seq<State>, specs: seq<Spec>, S': Spec, capacity: nat)
    requires |run| == |specs| + 1 && Refines(run[..|specs|], specs, capacity)
    requires |specs| > 0 && Represents(run[|specs|], S')
    requires SpecStep(run[|specs| - 1], run[|specs|], specs[|specs| - 1], S', capacity)
    ensures Refines(run, specs + [S'], capacity)
  {
    var n, longer := |specs|, specs + [S'];
    forall i | 0 <= i < |run|
      ensures Represents(run[i], longer[i])
    {
      assert i < n ==> run[i] == run[..n][i];
    }
    forall i: nat | i + 1 < |run|
      ensures SpecStepAt(run, longer, i, capacity)
    {
      assert i + 1 < n ==> SpecStepAt(run[..n], specs, i, capacity);
    }
  }

  /** Every store in progress has an empty slot to fill, every load a full one to empty. */
  predicate SlotsReady(s: State) {
    forall t :: 0 <= t < |s.threads| ==> SlotReady(s, s.threads[t])
  }

  predicate SlotReady(s: State, pc: PC) {
    && (pc.Store? ==> pc.slot < |s.slots| && s.slots[pc.slot] == None)
    && (pc.Load? ==> pc.slot < |s.slots| && s.slots[pc.slot].Some?)
  }

  /** In a clean run no store ever blocks and no claimed load finds an empty slot. */
  lemma CleanRunNeverWaits(run: seq<State>, capacity: nat, i: nat, t: nat)
    requires 2 <= capacity && IsCleanRun(run, capacity) && i < |run| && t < |run[i].threads|
    ensures SlotReady(run[i], run[i].threads[t])
  {
    CleanRunStaysClean(run, capacity, i);
    if run[i].threads[t].Store? {
      StoreFindsRoom(run[i], t);
    } else if run[i].threads[t].Load? {
      LoadFindsItem(run[i], t);
    }
  }

  // ---- Clean runs are exactly those in which nobody meets the wrong slot ----

  /** A claim on a slot that is not clear leaves its thread at a slot in the wrong state. */
  lemma UncleanClaimMeetsWrongSlot(s: State, t: nat, act: Action, slot: nat)
    requires Inv(s) && Clean(s) && Claims(s, t, act, slot) && !Clear(s, slot)
    ensures !SlotsReady(Next(s, t, act))
  {
    var pc, s' := s.threads[t], Next(s, t, act);
    assert PcOk(pc, |s.slots|) && SlotLedger(s, slot);
    if pc.Push? {
      WindowAfterPush(pc.e, pc.d, |s.slots|, slot);
    } else {
      WindowAfterPop(pc.e, pc.d, |s.slots|, slot);
    }
    assert !SlotReady(s', s'.threads[t]);
  }

  lemma ReadyMoveIsClean(s: State, t: nat, act: Action)
    requires Inv(s) && Clean(s) && Enabled(s, t, act) && SlotsReady(Next(s, t, act))
    ensures CleanMove(s, t, act)
  {
    forall slot | Claims(s, t, act, slot)
      ensures Clear(s, slot)
    {
      if !Clear(s, slot) {
        UncleanClaimMeetsWrongSlot(s, t, act, slot);
      }
    }
  }

  lemma CleanRunExtends(run: seq<State>, capacity: nat)
    requires 2 <= capacity && IsRun(run, capacity) && |run| > 1
    requires IsCleanRun(run[..|run| - 1], capacity) && SlotsReady(run[|run| - 1])
    ensures IsCleanRun(run, capacity)
  {
    var n := |run| - 2;
    var front := run[..n + 1];
    CleanRunStaysClean(front, capacity, n);
    assert StepAt(run, n);
    var t: nat, act: Action :| Enabled(run[n], t, act) && run[n + 1] == Next(run[n], t, act);
    ReadyMoveIsClean(run[n], t, act);
    forall i: nat | i + 1 < |run|
      ensures CleanAt(run, i)
    {
      assert i < n ==> CleanAt(front, i);
    }
  }

  lemma {:induction false} ReadyRunIsClean(run: seq<State>, capacity: nat)
    requires 2 <= capacity && IsRun(run, capacity)
    requires forall i :: 0 <= i < |run| ==> SlotsReady(run[i])
    ensures IsCleanRun(run, capacity)
    decreases |run|
  {
    if |run| > 1 {
      var front := run[..|run| - 1];
      forall i: nat | i + 1 < |front|
        ensures StepAt(front, i)
      {
        assert StepAt(run, i);
      }
      ReadyRunIsClean(front, capacity);
      CleanRunExtends(run, capacity);
    }
  }

  /** A run is clean if and only if in none of its states a claimed store finds its slot full
      or a claimed load finds its slot empty. */
  lemma CleanIffSlotsReady(run: seq<State>, capacity: nat)
    requires 2 <= capacity && IsRun(run, capacity)
    ensures IsCleanRun(run, capacity) <==> forall i :: 0 <= i < |run| ==> SlotsReady(run[i])
  {
    if IsCleanRun(run, capacity) {
      forall i | 0 <= i < |run|
        ensures SlotsReady(run[i])
      {
        forall t | 0 <= t < |run[i].threads|
          ensures SlotReady(run[i], run[i].threads[t])
        {
          CleanRunNeverWaits(run, capacity, i, t);
        }
      }
    } else if forall i :: 0 <= i < |run| ==> SlotsReady(run[i]) {
      ReadyRunIsClean(run, capacity);
    }
  }
}
