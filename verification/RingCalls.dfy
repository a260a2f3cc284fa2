/** Whole calls of `RingbufQueue`, from the call to its answer, while the other threads pause
    (src/lockfree/ringbuf_queue.cc:31-71, 100-168). */
module RingCalls {
  import opened Iteration
  import opened Wrappers
  import opened RingMachine
  import opened RingLedger
  import opened RingProgress

  lemma ReturnsBy(s: State, t: nat, s': State, n: nat, bound: nat)
    requires Path(Solo(t), s, s', n) && n <= bound && t < |s'.threads| && s'.threads[t].Idle?
    ensures AloneFor(s, t, bound) == s'
  {
    PathSettles(Solo(t), s, s', n, bound);
  }

  // ---- push and try_push ----

  /** The slot at the push point is claimed for x. */
  function Claimed(s: State, t: nat, x: Item): State
    requires t < |s.threads|
  {
    Go(s, t, Store(x, s.counter.push))
      .(counter := Counter(After(s.counter.push, |s.slots|), s.counter.pop))
  }

  lemma PushRetries(s: State, t: nat, x: Item, try: bool)
    requires Inv(s) && t < |s.threads| && !Full(s)
    ensures var c := s.counter;
            var again := Go(s, t, Push(x, c, Counter(After(c.push, |s.slots|), c.pop), try));
            Alone(again, t) == Claimed(s, t, x)
  {
    var c := s.counter;
    var again := Go(s, t, Push(x, c, Counter(After(c.push, |s.slots|), c.pop), try));
    assert Alone(again, t).threads == Claimed(s, t, x).threads;
  }

  lemma PushClaims(s: State, t: nat, x: Item, e: Counter, d: Counter, try: bool) returns (n: nat)
    requires Inv(s) && t < |s.threads| && !Full(s) && PushWant(e, d, |s.slots|)
    ensures n <= 2
    ensures Path(Solo(t), Go(s, t, Push(x, e, d, try)), Claimed(s, t, x), n)
  {
    var s0 := Go(s, t, Push(x, e, d, try));
    PathOfOne(Solo(t), s0);
    RemainderIsAfter(s.counter, |s.slots|);
    if s.counter == e {
      n := 1;
      assert Alone(s0, t).threads == Claimed(s, t, x).threads;
    } else {
      n := 2;
      var c := s.counter;
      var again := Go(s, t, Push(x, c, Counter(After(c.push, |s.slots|), c.pop), try));
      assert Alone(s0, t).threads == again.threads;
      PushRetries(s, t, x, try);
      PathOfOne(Solo(t), again);
      PathJoin(Solo(t), s0, again, Claimed(s, t, x), 1, 1);
    }
  }

  /** The pointer is in the slot at the push point. */
  function Stored(s: State, t: nat, x: Item): State
    requires s.counter.push < |s.slots|
  {
    s.(counter := Counter(After(s.counter.push, |s.slots|), s.counter.pop),
       slots := s.slots[s.counter.push := Some(x)],
       answers := s.answers + [Pushed(t)])
  }

  lemma StoreFills(s: State, t: nat, x: Item)
    requires Inv(s) && t < |s.threads| && s.threads[t].Idle? && s.slots[s.counter.push] == None
    ensures Path(Solo(t), Claimed(s, t, x), Stored(s, t, x), 1)
  {
    assert Alone(Claimed(s, t, x), t).threads == s.threads;
    PathOfOne(Solo(t), Claimed(s, t, x));
  }

  /** The state once the call has begun. */
  function Given(s: State, x: Item): State {
    s.(given := s.given + multiset{x})
  }

  lemma GivenKeepsInv(s: State, x: Item)
    requires Inv(s)
    ensures Inv(Given(s, x))
  {
    forall slot | 0 <= slot < |s.slots|
      ensures SlotLedger(Given(s, x), slot)
    {
      assert SlotLedger(s, slot);
    }
  }

  /** Given room and an empty slot, push and try_push both store x at the push point and answer
      within three steps. */
  lemma PushReturnsAlone(s: State, t: nat, x: Item, try: bool)
    requires Inv(s) && Enabled(s, t, BeginPush(x, try)) && !Full(s) && s.slots[s.counter.push] == None
    ensures AloneFor(Next(s, t, BeginPush(x, try)), t, 3) == Stored(Given(s, x), t, x)
  {
    var s1 := Given(s, x);
    GivenKeepsInv(s, x);
    var n := PushClaims(s1, t, x, PUSH_GUESS.0, PUSH_GUESS.1, try);
    StoreFills(s1, t, x);
    PathJoin(Solo(t), Next(s, t, BeginPush(x, try)), Claimed(s1, t, x), Stored(s1, t, x), n, 1);
    ReturnsBy(Next(s, t, BeginPush(x, try)), t, Stored(s1, t, x), n + 1, 3);
  }

  /** Given room and a slot that still waits for a pop, they wait for that pop, with x claimed
      for the slot at the push point. */
  lemma PushWaitsForSlot(s: State, t: nat, x: Item, try: bool, n: nat)
    requires Inv(s) && Enabled(s, t, BeginPush(x, try)) && !Full(s) && n >= 2
    requires s.slots[s.counter.push].Some?
    ensures AloneFor(Next(s, t, BeginPush(x, try)), t, n) == Claimed(Given(s, x), t, x)
  {
    var s1 := Given(s, x);
    GivenKeepsInv(s, x);
    var m := PushClaims(s1, t, x, PUSH_GUESS.0, PUSH_GUESS.1, try);
    assert Alone(Claimed(s1, t, x), t) == Claimed(s1, t, x);
    PathSettles(Solo(t), Next(s, t, BeginPush(x, try)), Claimed(s1, t, x), m, n);
  }

  /** On a full ring try_push hands x back within two steps and leaves the ring alone. */
  lemma TryPushRefusedAlone(s: State, t: nat, x: Item)
    requires Inv(s) && Enabled(s, t, BeginPush(x, true)) && Full(s)
    ensures AloneFor(Next(s, t, BeginPush(x, true)), t, 2)
            == Given(s, x).(answers := s.answers + [Refused(t, x)])
  {
    var s0 := Next(s, t, BeginPush(x, true));
    var s' := Given(s, x).(answers := s.answers + [Refused(t, x)]);
    RemainderIsAfter(s.counter, |s.slots|);
    assert Alone(s0, t).threads == s.threads;
    PathOfOne(Solo(t), s0);
    ReturnsBy(s0, t, s', 1, 2);
  }

  /** On a full ring push never answers. */
  lemma PushWaitsForRoom(s: State, t: nat, x: Item, n: nat)
    requires Inv(s) && Enabled(s, t, BeginPush(x, false)) && Full(s)
    ensures AloneFor(Next(s, t, BeginPush(x, false)), t, n) == Next(s, t, BeginPush(x, false))
  {
    var s0 := Next(s, t, BeginPush(x, false));
    RemainderIsAfter(s.counter, |s.slots|);
    assert Alone(s0, t).threads == s0.threads;
    FixedStays(Solo(t), s0, n);
  }

  // ---- pop ----

  /** The slot at the pop point is claimed. */
  function Taking(s: State, t: nat): State
    requires t < |s.threads|
  {
    Go(s, t, Load(s.counter.pop))
      .(counter := Counter(s.counter.push, After(s.counter.pop, |s.slots|)))
  }

  lemma PopRetries(s: State, t: nat)
    requires Inv(s) && t < |s.threads| && !Empty(s)
    ensures var c := s.counter;
            var again := Go(s, t, Pop(c, Counter(c.push, After(c.pop, |s.slots|))));
            Alone(again, t) == Taking(s, t)
  {
    var c := s.counter;
    var again := Go(s, t, Pop(c, Counter(c.push, After(c.pop, |s.slots|))));
    assert Alone(again, t).threads == Taking(s, t).threads;
  }

  lemma PopClaims(s: State, t: nat, e: Counter, d: Counter) returns (n: nat)
    requires Inv(s) && t < |s.threads| && !Empty(s) && PopWant(e, d, |s.slots|)
    ensures n <= 2
    ensures Path(Solo(t), Go(s, t, Pop(e, d)), Taking(s, t), n)
  {
    var s0 := Go(s, t, Pop(e, d));
    PathOfOne(Solo(t), s0);
    RemainderIsAfter(s.counter, |s.slots|);
    if s.counter == e {
      n := 1;
      assert Alone(s0, t).threads == Taking(s, t).threads;
    } else {
      n := 2;
      var c := s.counter;
      var again := Go(s, t, Pop(c, Counter(c.push, After(c.pop, |s.slots|))));
      assert Alone(s0, t).threads == again.threads;
      PopRetries(s, t);
      PathOfOne(Solo(t), again);
      PathJoin(Solo(t), s0, again, Taking(s, t), 1, 1);
    }
  }

  /** What the slot at the pop point held, a pointer or nothing, has been answered. */
  function Taken(s: State, t: nat): State
    requires s.counter.pop < |s.slots| == |s.misses|
  {
    var slot := s.counter.pop;
    var missed := if s.slots[slot] == None then 1 else 0;
    s.(counter := Counter(s.counter.push, After(slot, |s.slots|)),
       slots := s.slots[slot := None],
       misses := s.misses[slot := s.misses[slot] + missed],
       answers := s.answers + [Popped(t, s.slots[slot])])
  }

  /** A pop answers within three steps: nothing if the counters are equal, and otherwise what
      the slot at the pop point holds. */
  lemma PopReturnsAlone(s: State, t: nat)
    requires Inv(s) && Enabled(s, t, BeginPop)
    ensures Empty(s) ==>
              AloneFor(Next(s, t, BeginPop), t, 3) == s.(answers := s.answers + [Popped(t, None)])
    ensures !Empty(s) ==> AloneFor(Next(s, t, BeginPop), t, 3) == Taken(s, t)
  {
    var s0 := Next(s, t, BeginPop);
    if Empty(s) {
      var s' := s.(answers := s.answers + [Popped(t, None)]);
      RemainderIsAfter(s.counter, |s.slots|);
      assert Alone(s0, t).threads == s.threads;
      PathOfOne(Solo(t), s0);
      ReturnsBy(s0, t, s', 1, 3);
    } else {
      var n := PopClaims(s, t, POP_GUESS.0, POP_GUESS.1);
      assert Alone(Taking(s, t), t).threads == s.threads;
      PathOfOne(Solo(t), Taking(s, t));
      PathJoin(Solo(t), s0, Taking(s, t), Taken(s, t), n, 1);
      ReturnsBy(s0, t, Taken(s, t), n + 1, 3);
    }
  }
}
