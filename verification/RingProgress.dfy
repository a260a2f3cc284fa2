/** What a thread achieves on the ring when the others pause: it waits only for room
    (src/lockfree/ringbuf_queue.cc:63-71, 100-168). */
module RingProgress {
  import opened Iteration
  import opened Wrappers
  import opened RingMachine
  import opened RingLedger

  /** One step of thread t that does not fail spuriously, if it is inside a call. */
  function Alone(s: State, t: nat): State {
    if Enabled(s, t, Advance(false)) then Next(s, t, Advance(false)) else s
  }

  function Solo(t: nat): State -> State {
    s => Alone(s, t)
  }

  function AloneFor(s: State, t: nat, n: nat): State {
    Iterate(Solo(t), s, n)
  }

  predicate Full(s: State) {
    After(s.counter.push, |s.slots|) == s.counter.pop
  }

  predicate Empty(s: State) {
    s.counter.push == s.counter.pop
  }

  // ---- push and try_push ----

  lemma AttemptPush(s: State, t: nat)
    requires Inv(s) && t < |s.threads| && s.threads[t].Push?
    ensures var s1, pc := Alone(s, t), s.threads[t];
            && Inv(s1) && |s1.threads| == |s.threads| && |s1.slots| == |s.slots|
            && (Full(s) ==>
                  && s1.counter == s.counter && s1.slots == s.slots
                  && (pc.try ==> s1 == Finish(s, t, Refused(t, pc.x)))
                  && (!pc.try ==> s1.threads[t] == Push(pc.x, PUSH_GUESS.0, PUSH_GUESS.1, false)))
            && (!Full(s) ==>
                  || s1.threads[t] == Store(pc.x, s.counter.push)
                  || (s1.counter == s.counter && s1.threads[t].Push? && s1.threads[t].x == pc.x
                      && s1.threads[t].e == s.counter))
  {
    StepKeepsInv(s, t, Advance(false));
    assert PcOk(s.threads[t], |s.slots|);
    RemainderIsAfter(s.counter, |s.slots|);
  }

  lemma {:induction false} PushWaits(s: State, t: nat, n: nat)
    requires Inv(s) && t < |s.threads| && s.threads[t].Push? && !s.threads[t].try && Full(s)
    ensures t < |AloneFor(s, t, n).threads| && AloneFor(s, t, n).threads[t].Push?
    decreases n
  {
    if n > 0 {
      AttemptPush(s, t);
      PushWaits(Alone(s, t), t, n - 1);
    }
  }

  /** Given room, a push that is left alone claims the slot at the push point within two
      attempts. On a full ring try_push hands its pointer back at once, and push waits for as
      long as nobody pops. */
  lemma PushClaimsAloneIff(s: State, t: nat)
    requires Inv(s) && t < |s.threads| && s.threads[t].Push?
    ensures var x, s1 := s.threads[t].x, Alone(s, t);
            && |s1.threads| == |s.threads|
            && (!Full(s) ==>
                  s1.threads[t] == Store(x, s.counter.push)
                  || (t < |Alone(s1, t).threads| && Alone(s1, t).threads[t] == Store(x, s.counter.push)))
            && (Full(s) && s.threads[t].try ==> s1 == Finish(s, t, Refused(t, x)))
            && (Full(s) && !s.threads[t].try ==>
                  forall n: nat :: t < |AloneFor(s, t, n).threads| && AloneFor(s, t, n).threads[t].Push?)
  {
    AttemptPush(s, t);
    if Full(s) && !s.threads[t].try {
      forall n: nat
        ensures t < |AloneFor(s, t, n).threads| && AloneFor(s, t, n).threads[t].Push?
      {
        PushWaits(s, t, n);
      }
    } else if !Full(s) && Alone(s, t).threads[t].Push? {
      AttemptPush(Alone(s, t), t);
    }
  }

  // ---- pop ----

  /** A pop that is left alone answers "empty" at once if and only if the counters are equal,
      and otherwise claims the slot at the pop point within two attempts. */
  lemma PopClaimsAloneIff(s: State, t: nat)
    requires Inv(s) && t < |s.threads| && s.threads[t].Pop?
    ensures var s1 := Alone(s, t);
            && |s1.threads| == |s.threads|
            && (s1 == Finish(s, t, Popped(t, None)) <==> Empty(s))
            && (!Empty(s) ==>
                  s1.threads[t] == Load(s.counter.pop)
                  || (t < |Alone(s1, t).threads| && Alone(s1, t).threads[t] == Load(s.counter.pop)))
  {
    assert PcOk(s.threads[t], |s.slots|);
    RemainderIsAfter(s.counter, |s.slots|);
  }

  // ---- blocking_store ----

  lemma {:induction false} StoreWaits(s: State, t: nat, n: nat)
    requires Inv(s) && t < |s.threads| && s.threads[t].Store?
    requires s.threads[t].slot < |s.slots| && s.slots[s.threads[t].slot].Some?
    ensures AloneFor(s, t, n) == s
    decreases n
  {
    if n > 0 {
      StoreWaits(s, t, n - 1);
    }
  }

  /** A store that is left alone fills its slot at once if the slot is empty, and otherwise
      waits for as long as no pop empties it. */
  lemma StoreFillsAloneIff(s: State, t: nat, n: nat)
    requires Inv(s) && t < |s.threads| && s.threads[t].Store? && n > 0
    ensures var slot := s.threads[t].slot;
            && slot < |s.slots|
            && (s.slots[slot] == None <==> AloneFor(s, t, n) != s)
            && (s.slots[slot] == None ==> Alone(s, t).slots == s.slots[slot := Some(s.threads[t].x)])
  {
    assert PcOk(s.threads[t], |s.slots|);
    if s.slots[s.threads[t].slot].Some? {
      StoreWaits(s, t, n);
    } else {
      FixedStays(Solo(t), Alone(s, t), n - 1);
    }
  }
}
