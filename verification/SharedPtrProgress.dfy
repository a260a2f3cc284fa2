/** What a thread achieves when the others pause: the retry loops of `std::atomic<SharedPtr>`
    end unless a reader is in progress (src/lockfree/shared_ptr.cc:183-275). */
module SharedPtrProgress {
  import opened Iteration
  import opened TaggedPtr
  import opened SharedPtrMachine
  import opened SharedPtrLedger

  /** One atomic step of thread t that does not fail spuriously, if it is inside a call. */
  function Alone(s: State, t: nat): State {
    if Enabled(s, t, Advance(false)) then Next(s, t, Advance(false)) else s
  }

  function Solo(t: nat): State -> State {
    s => Alone(s, t)
  }

  function AloneFor(s: State, t: nat, n: nat): State {
    Iterate(Solo(t), s, n)
  }

  // ---- load ----

  /** The state in which thread t has pinned cell c. */
  function PinnedBy(s: State, t: nat, c: nat): State
    requires t < |s.threads| && c < |s.cells|
  {
    var w := Pinned(s.cells[c]);
    SetThread(SetCell(s, c, w), t, Thread(s.threads[t].own, LoadCount(c, w, Unpinned(w))))
  }

  /** At most one failed attempt, then the pin. */
  lemma PinsAlone(s: State, t: nat)
    requires Inv(s) && Enabled(s, t, Advance(false)) && s.threads[t].pc.LoadPin?
    ensures var pinned := PinnedBy(s, t, s.threads[t].pc.c);
            Alone(s, t) == pinned || Alone(Alone(s, t), t) == pinned
  {
    assert LocalOk(s.cells, s.threads[t]);
    var s2 := Alone(Alone(s, t), t);
    assert s2.threads == s.threads[t := s2.threads[t]];
  }

  /** From the pin a load needs two more steps. */
  lemma CountsAndUnpinsAlone(s: State, t: nat, c: nat)
    requires Inv(s) && t < |s.threads| && c < |s.cells| && PinsOf(s.threads[t], c) == 0
    ensures var s' := Alone(Alone(PinnedBy(s, t, c), t), t);
            && |s'.threads| == |s.threads|
            && s'.threads[t] == Thread(Give(s.threads[t].own, s.cells[c].ptr), Idle)
            && s'.cells == s.cells && s'.heap == AddOne(s, s.cells[c].ptr).heap
  {
    RoomToPin(s, c, t);
    if s.cells[c].ptr != NULL {
      HeldIsLive(s, c);
    }
    var s' := Alone(Alone(PinnedBy(s, t, c), t), t);
    assert s'.cells == s.cells;
  }

  /** A load that is left alone is done after four steps: the cell is as it was, its block has
      one reference more, and the thread owns it. */
  lemma LoadFinishesAlone(s: State, t: nat)
    requires Inv(s) && Enabled(s, t, Advance(false)) && s.threads[t].pc.LoadPin?
    ensures var c, s' := s.threads[t].pc.c, AloneFor(s, t, 4);
            && |s'.threads| == |s.threads|
            && s'.threads[t] == Thread(Give(s.threads[t].own, s.cells[c].ptr), Idle)
            && s'.cells == s.cells && s'.heap == AddOne(s, s.cells[c].ptr).heap
  {
    var c := s.threads[t].pc.c;
    PinsAlone(s, t);
    CountsAndUnpinsAlone(s, t, c);
    TwoSteps(Solo(t), s, 2);
    TwoSteps(Solo(t), s, 3);
    var pinned := PinnedBy(s, t, c);
    TwoSteps(Solo(t), pinned, 0);
    TwoSteps(Solo(t), pinned, 1);
    FixedStays(Solo(t), Alone(Alone(pinned, t), t), 1);
  }

  // ---- exchange ----

  lemma {:induction false} ExchangeWaits(s: State, t: nat, c: nat, n: nat)
    requires t < |s.threads| && c < |s.cells| && s.threads[t].pc.Exchange? && s.threads[t].pc.c == c
    requires s.threads[t].pc.cur.tag == 0 && s.cells[c].tag > 0
    ensures var s' := AloneFor(s, t, n);
            t < |s'.threads| && s'.threads[t].pc.Exchange?
    decreases n
  {
    if n > 0 {
      ExchangeWaits(Alone(s, t), t, c, n - 1);
    }
  }

  /** An exchange that is left alone is done after two attempts if no reader is in progress;
      otherwise it waits for as long as the readers pause. */
  lemma ExchangeFinishesAloneIff(s: State, t: nat, n: nat)
    requires Inv(s) && Enabled(s, t, Advance(false)) && s.threads[t].pc.Exchange? && n >= 2
    ensures t < |AloneFor(s, t, n).threads|
    ensures AloneFor(s, t, n).threads[t].pc.Idle? <==> s.cells[s.threads[t].pc.c].tag == 0
  {
    var c := s.threads[t].pc.c;
    assert LocalOk(s.cells, s.threads[t]);
    if s.cells[c].tag > 0 {
      ExchangeWaits(s, t, c, n);
    } else {
      TwoSteps(Solo(t), s, n - 2);
      var s1 := Alone(s, t);
      if s1.threads[t].pc.Idle? {
        FixedStays(Solo(t), s1, n - 1);
      } else {
        FixedStays(Solo(t), Alone(s1, t), n - 2);
      }
    }
  }

  // ---- compare_exchange ----

  lemma {:induction false} CompareWaits(s: State, t: nat, n: nat)
    requires t < |s.threads| && s.threads[t].pc.Compare?
    requires var pc := s.threads[t].pc;
             && pc.c < |s.cells| && s.cells[pc.c].tag > 0 && s.cells[pc.c].ptr == pc.e
             && (pc.cur.tag == 0 || pc.cur.ptr != pc.e)
    ensures var s' := AloneFor(s, t, n);
            t < |s'.threads| && s'.threads[t].pc.Compare?
    decreases n
  {
    if n > 0 {
      CompareWaits(Alone(s, t), t, n - 1);
    }
  }

  predicate Waits(s: State, t: nat)
    requires t < |s.threads| && s.threads[t].pc.Compare? && s.threads[t].pc.c < |s.cells|
  {
    var pc := s.threads[t].pc;
    s.cells[pc.c].tag > 0 && s.cells[pc.c].ptr == pc.e
  }

  /** A failed attempt leaves the cell as it is and makes the next one fit it. */
  lemma CompareRetries(s: State, t: nat)
    requires Inv(s) && Enabled(s, t, Advance(false)) && s.threads[t].pc.Compare? && !Waits(s, t)
    requires Alone(s, t).threads[t].pc.Compare?
    ensures var s1, pc := Alone(s, t), Alone(s, t).threads[t].pc;
            && s1.cells == s.cells && pc.c < |s1.cells| && pc.cur == s1.cells[pc.c]
            && |s1.threads| == |s.threads|
  {
    assert LocalOk(s.cells, s.threads[t]);
  }

  lemma CompareDecidedAlone(s: State, t: nat)
    requires Inv(s) && Enabled(s, t, Advance(false)) && s.threads[t].pc.Compare? && !Waits(s, t)
    ensures !Alone(s, t).threads[t].pc.Compare? || !Alone(Alone(s, t), t).threads[t].pc.Compare?
  {
    if Alone(s, t).threads[t].pc.Compare? {
      CompareRetries(s, t);
    }
  }

  lemma CompareWaitsForever(s: State, t: nat)
    requires Inv(s) && Enabled(s, t, Advance(false)) && s.threads[t].pc.Compare? && Waits(s, t)
    ensures forall n: nat :: t < |AloneFor(s, t, n).threads| && AloneFor(s, t, n).threads[t].pc.Compare?
  {
    assert LocalOk(s.cells, s.threads[t]);
    forall n: nat
      ensures t < |AloneFor(s, t, n).threads| && AloneFor(s, t, n).threads[t].pc.Compare?
    {
      CompareWaits(s, t, n);
    }
  }

  /** A compare_exchange that is left alone is decided after two attempts, unless the cell
      holds `e` and has a reader in progress; then it waits for as long as the readers pause. */
  lemma CompareDecidedAloneIff(s: State, t: nat)
    requires Inv(s) && Enabled(s, t, Advance(false)) && s.threads[t].pc.Compare?
    ensures Waits(s, t) <==> forall n: nat ::
              t < |AloneFor(s, t, n).threads| && AloneFor(s, t, n).threads[t].pc.Compare?
    ensures !Waits(s, t) ==>
              !Alone(s, t).threads[t].pc.Compare? || !Alone(Alone(s, t), t).threads[t].pc.Compare?
  {
    if Waits(s, t) {
      CompareWaitsForever(s, t);
    } else {
      CompareDecidedAlone(s, t);
      assert AloneFor(s, t, 1) == Alone(s, t);
      TwoSteps(Solo(t), s, 0);
      assert AloneFor(s, t, 2) == Alone(Alone(s, t), t);
    }
  }

  // ---- release ----

  /** A release that is left alone has its reference off the count after two attempts. */
  lemma ReleasesAlone(s: State, t: nat)
    requires Inv(s) && Enabled(s, t, Advance(false)) && s.threads[t].pc.Release?
    ensures !Alone(s, t).threads[t].pc.Release? || !Alone(Alone(s, t), t).threads[t].pc.Release?
  {
    CountCovers(s, t, s.threads[t].pc.a);
    assert LocalOk(s.cells, s.threads[t]);
  }
}
