/** Whole calls of `SharedPtr` and `std::atomic<SharedPtr>`, from the call to its return, while
    the other threads pause (src/lockfree/shared_ptr.cc:17-34, 57-82, 183-275): which variables,
    cells, counts and deleters they leave. */
module SharedPtrCalls {
  import opened Iteration
  import opened TaggedPtr
  import opened SharedPtrMachine
  import opened SharedPtrLedger
  import opened SharedPtrSafety
  import opened SharedPtrProgress

  /** A thread that is idle again stays so. */
  lemma ReturnsBy(s: State, t: nat, s': State, n: nat, bound: nat)
    requires Path(Solo(t), s, s', n) && n <= bound && t < |s'.threads| && s'.threads[t].pc.Idle?
    ensures AloneFor(s, t, bound) == s'
  {
    PathSettles(Solo(t), s, s', n, bound);
  }

  lemma OneStep(s: State, t: nat, s': State)
    requires s' == Alone(s, t)
    ensures Path(Solo(t), s, s', 1)
  {
    PathOfOne(Solo(t), s);
  }

  lemma TwoStepsOn(s: State, t: nat, s': State)
    requires s' == Alone(Alone(s, t), t)
    ensures Path(Solo(t), s, s', 2)
  {
    OneStep(s, t, Alone(s, t));
    OneStep(Alone(s, t), t, s');
    PathJoin(Solo(t), s, Alone(s, t), s', 1, 1);
  }

  // ---- Giving up one reference ----

  predicate Live(s: State, a: Addr) {
    a == NULL || (a in s.heap && s.heap[a].count > 0)
  }

  /** One reference to a is gone; with the last one the deleter has run and the block is freed. */
  function Released(s: State, a: Addr): (s': State)
    ensures s'.threads == s.threads && s'.cells == s.cells
  {
    if a == NULL || !Live(s, a) then s
    else if s.heap[a].count == 1 then
      s.(heap := s.heap - {a}, deleted := s.deleted + multiset{s.heap[a].birth})
    else s.(heap := s.heap[a := s.heap[a].(count := s.heap[a].count - 1)])
  }

  /** One reference to a more. */
  function Counted(s: State, a: Addr): (s': State)
    ensures s'.threads == s.threads && s'.cells == s.cells
  {
    AddOne(s, a)
  }

  lemma LastReleaseRuns(s: State, t: nat, own: multiset<Addr>, a: Addr, next: Then)
    requires t < |s.threads| && a != NULL && Live(s, a) && s.heap[a].count == 1
    ensures Alone(Alone(SetThread(s, t, Thread(own, Release(a, 1, 0, next))), t), t)
            == SetThread(Released(s, a), t, Resume(own, next))
  {
    var s1 := Alone(SetThread(s, t, Thread(own, Release(a, 1, 0, next))), t);
    assert s1.threads[t] == Thread(own, Delete(a, next)) && s1.heap[a].birth == s.heap[a].birth;
    assert s1.heap - {a} == s.heap - {a};
    assert Alone(s1, t).threads == s.threads[t := Resume(own, next)];
  }

  lemma SharedReleaseRuns(s: State, t: nat, own: multiset<Addr>, a: Addr, next: Then)
    requires t < |s.threads| && a != NULL && Live(s, a) && s.heap[a].count > 1
    ensures Alone(Alone(SetThread(s, t, Thread(own, Release(a, 1, 0, next))), t), t)
            == SetThread(Released(s, a), t, Resume(own, next))
  {
    var s1 := Alone(SetThread(s, t, Thread(own, Release(a, 1, 0, next))), t);
    assert s1.threads[t] == Thread(own, Release(a, s.heap[a].count, s.heap[a].count - 1, next));
    assert Alone(s1, t).threads == s.threads[t := Resume(own, next)];
  }

  /** The loop of `Deallocator` and the deleter take at most two steps. */
  lemma ReleaseRuns(s: State, t: nat, own: multiset<Addr>, a: Addr, next: Then) returns (n: nat)
    requires t < |s.threads| && Live(s, a)
    ensures n <= 2
    ensures Path(Solo(t), SetThread(s, t, StartRelease(own, a, next)),
                 SetThread(Released(s, a), t, Resume(own, next)), n)
  {
    if a == NULL {
      n := 0;
      PathOfNone(Solo(t), SetThread(s, t, Resume(own, next)));
    } else {
      n := 2;
      if s.heap[a].count == 1 {
        LastReleaseRuns(s, t, own, a, next);
      } else {
        SharedReleaseRuns(s, t, own, a, next);
      }
      TwoStepsOn(SetThread(s, t, Thread(own, Release(a, 1, 0, next))), t,
                 SetThread(Released(s, a), t, Resume(own, next)));
    }
  }

  lemma OwnedIsLive(s: State, t: nat, p: Addr)
    requires Inv(s) && t < |s.threads| && CanTake(s.threads[t].own, p)
    ensures Live(s, p)
  {
    if p != NULL {
      CountCovers(s, t, p);
    }
  }

  /** A dropped owner is off the count after two steps. If it was the last one, the deleter of
      its block has run, once, and the block is freed; otherwise the block lives on. */
  lemma DropFinishesAlone(s: State, t: nat, a: Addr)
    requires Inv(s) && Enabled(s, t, Drop(a))
    ensures var s' := AloneFor(Next(s, t, Drop(a)), t, 2);
            && a in s.heap && s.heap[a].count > 0
            && s'.cells == s.cells
            && s'.threads == s.threads[t := Thread(Take(s.threads[t].own, a), Idle)]
            && (s.heap[a].count == 1 ==>
                  s'.heap == s.heap - {a} && s'.deleted == s.deleted + multiset{s.heap[a].birth}
                  && s'.deleted[s.heap[a].birth] == 1)
            && (s.heap[a].count > 1 ==>
                  s'.heap == s.heap[a := s.heap[a].(count := s.heap[a].count - 1)]
                  && s'.deleted == s.deleted)
  {
    var own := Take(s.threads[t].own, a);
    assert LocalOk(s.cells, s.threads[t]);
    OwnedIsLive(s, t, a);
    assert BirthMap(s.heap)[a] == s.heap[a].birth;
    var n := ReleaseRuns(s, t, own, a, Finish);
    ReturnsBy(Next(s, t, Drop(a)), t, SetThread(Released(s, a), t, Thread(own, Idle)), n, 2);
  }

  // ---- load and exchange ----

  /** A load returns after four steps; all it leaves is one more owner, counted. */
  lemma LoadReturnsAlone(s: State, t: nat, c: nat)
    requires Inv(s) && Enabled(s, t, BeginLoad(c))
    ensures var p, s' := s.cells[c].ptr, AloneFor(Next(s, t, BeginLoad(c)), t, 4);
            && |s'.threads| == |s.threads|
            && s'.threads[t] == Thread(Give(s.threads[t].own, p), Idle)
            && s'.cells == s.cells && s'.heap == AddOne(s, p).heap
  {
    StepKeepsInv(s, t, BeginLoad(c));
    LoadFinishesAlone(Next(s, t, BeginLoad(c)), t);
  }

  /** An exchange of a cell without readers returns after two steps: the cell holds the new
      pointer, the thread the old one, and no count has moved. */
  lemma ExchangeReturnsAlone(s: State, t: nat, c: nat, p: Addr)
    requires Inv(s) && Enabled(s, t, BeginExchange(c, p)) && s.cells[c].tag == 0
    ensures AloneFor(Next(s, t, BeginExchange(c, p)), t, 2)
            == SetThread(SetCell(s, c, Word(p, 0)), t,
                         Thread(Give(Take(s.threads[t].own, p), s.cells[c].ptr), Idle))
  {
    var s0 := Next(s, t, BeginExchange(c, p));
    var done := SetThread(SetCell(s, c, Word(p, 0)), t,
                          Thread(Give(Take(s.threads[t].own, p), s.cells[c].ptr), Idle));
    var s1 := Alone(s0, t);
    if s.cells[c].ptr == NULL {
      assert s1.threads == done.threads;
      OneStep(s0, t, done);
      ReturnsBy(s0, t, done, 1, 2);
    } else {
      assert s1.threads[t].pc == Exchange(c, s.cells[c], Word(p, 0));
      assert Alone(s1, t).threads == done.threads;
      TwoStepsOn(s0, t, done);
      ReturnsBy(s0, t, done, 2, 2);
    }
  }

  // ---- compare_exchange ----

  /** What the thread holds once `e` and `d` have been passed. */
  function Passed(s: State, t: nat, e: Addr, d: Addr): multiset<Addr>
    requires t < |s.threads|
  {
    Take(Take(s.threads[t].own, e), d)
  }

  /** The cell held `e`: it holds `d`, its reference to `e` is gone, the thread has `e` back. */
  function Swapped(s: State, t: nat, c: nat, e: Addr, d: Addr): State
    requires t < |s.threads| && c < |s.cells|
  {
    SetThread(Released(SetCell(s, c, Word(d, 0)), e), t, Thread(Give(Passed(s, t, e, d), e), Idle))
  }

  /** The cell held another pointer: `e` is that pointer, counted once more, and what `e` and
      `d` owned before is dropped. */
  function Missed(s: State, t: nat, c: nat, e: Addr, d: Addr): State
    requires t < |s.threads| && c < |s.cells|
  {
    var p := s.cells[c].ptr;
    SetThread(Released(Counted(Released(s, e), p), d), t, Thread(Give(Passed(s, t, e, d), p), Idle))
  }

  lemma SwapIsImmediate(s: State, t: nat, c: nat, e: Addr, d: Addr)
    requires Enabled(s, t, BeginCompare(c, e, d)) && s.cells[c] == Word(e, 0)
    ensures var own := Passed(s, t, e, d);
            Alone(Next(s, t, BeginCompare(c, e, d)), t)
            == SetThread(SetCell(s, c, Word(d, 0)), t, StartRelease(own, e, Won(e, d)))
  {
    var s1 := Alone(Next(s, t, BeginCompare(c, e, d)), t);
    assert s1.threads == s.threads[t := StartRelease(Passed(s, t, e, d), e, Won(e, d))];
  }

  lemma SwapPath(s0: State, s: State, t: nat, c: nat, e: Addr, d: Addr) returns (n: nat)
    requires t < |s.threads| && c < |s.cells| && Live(s, e)
    requires var own := Passed(s, t, e, d);
             Path(Solo(t), s0, SetThread(SetCell(s, c, Word(d, 0)), t, StartRelease(own, e, Won(e, d))), 1)
    ensures n <= 3 && Path(Solo(t), s0, Swapped(s, t, c, e, d), n)
  {
    var own, swapped := Passed(s, t, e, d), SetCell(s, c, Word(d, 0));
    var m := ReleaseRuns(swapped, t, own, e, Won(e, d));
    PathJoin(Solo(t), s0, SetThread(swapped, t, StartRelease(own, e, Won(e, d))),
             Swapped(s, t, c, e, d), 1, m);
    n := 1 + m;
  }

  lemma SwapReturnsAlone(s: State, t: nat, c: nat, e: Addr, d: Addr)
    requires Inv(s) && Enabled(s, t, BeginCompare(c, e, d)) && s.cells[c] == Word(e, 0)
    ensures AloneFor(Next(s, t, BeginCompare(c, e, d)), t, 8) == Swapped(s, t, c, e, d)
  {
    if e != NULL {
      HeldIsLive(s, c);
    }
    SwapIsImmediate(s, t, c, e, d);
    PathOfOne(Solo(t), Next(s, t, BeginCompare(c, e, d)));
    var n := SwapPath(Next(s, t, BeginCompare(c, e, d)), s, t, c, e, d);
    ReturnsBy(Next(s, t, BeginCompare(c, e, d)), t, Swapped(s, t, c, e, d), n, 8);
  }

  /** The pinned cell, while `e` is about to be dropped. */
  function Pinning(s: State, t: nat, c: nat, e: Addr, d: Addr): State
    requires t < |s.threads| && c < |s.cells|
  {
    var w := Pinned(s.cells[c]);
    SetThread(SetCell(s, c, w), t, StartRelease(Passed(s, t, e, d), e, Bump(c, d, w, Unpinned(w))))
  }

  lemma MissPinsAlone(s: State, t: nat, c: nat, e: Addr, d: Addr)
    requires Inv(s) && Enabled(s, t, BeginCompare(c, e, d)) && s.cells[c].ptr != e
    ensures s.cells[c].tag + 1 < TAGS
    ensures Path(Solo(t), Next(s, t, BeginCompare(c, e, d)), Pinning(s, t, c, e, d), 2)
  {
    RoomToPin(s, c, t);
    var s0, own := Next(s, t, BeginCompare(c, e, d)), Passed(s, t, e, d);
    var s1 := SetThread(s, t, Thread(own, Compare(c, e, d, s.cells[c], Pinned(s.cells[c]))));
    MissSeesAlone(s, t, c, e, d);
    MissRetriesAlone(s, t, c, own, e, d);
    TwoStepsOn(s0, t, Pinning(s, t, c, e, d));
  }

  lemma MissSeesAlone(s: State, t: nat, c: nat, e: Addr, d: Addr)
    requires Enabled(s, t, BeginCompare(c, e, d)) && s.cells[c].ptr != e
    ensures Alone(Next(s, t, BeginCompare(c, e, d)), t)
            == SetThread(s, t, Thread(Passed(s, t, e, d), Compare(c, e, d, s.cells[c], Pinned(s.cells[c]))))
  {
    var s1 := Alone(Next(s, t, BeginCompare(c, e, d)), t);
    assert s1.threads
      == s.threads[t := Thread(Passed(s, t, e, d), Compare(c, e, d, s.cells[c], Pinned(s.cells[c])))];
  }

  lemma MissRetriesAlone(s: State, t: nat, c: nat, own: multiset<Addr>, e: Addr, d: Addr)
    requires Inv(s) && t < |s.threads| && c < |s.cells| && PinsOf(s.threads[t], c) == 0
    ensures var w := Pinned(s.cells[c]);
            Alone(SetThread(s, t, Thread(own, Compare(c, e, d, s.cells[c], w))), t)
            == SetThread(SetCell(s, c, w), t, StartRelease(own, e, Bump(c, d, w, Unpinned(w))))
  {
    RoomToPin(s, c, t);
    var w := Pinned(s.cells[c]);
    var s1 := Alone(SetThread(s, t, Thread(own, Compare(c, e, d, s.cells[c], w))), t);
    assert s1.threads == s.threads[t := StartRelease(own, e, Bump(c, d, w, Unpinned(w)))];
  }

  /** The cell still pinned, `e` dropped, the pinned pointer about to be counted. */
  function Counting(s: State, t: nat, c: nat, own: multiset<Addr>, d: Addr): State
    requires t < |s.threads| && c < |s.cells|
  {
    var w := Pinned(s.cells[c]);
    SetThread(SetCell(s, c, w), t, Thread(own, CompareCount(c, d, w, Unpinned(w))))
  }

  lemma ReleasedUnderPin(s: State, c: nat, w: Word, a: Addr)
    requires c < |s.cells|
    ensures Live(SetCell(s, c, w), a) == Live(s, a)
    ensures Released(SetCell(s, c, w), a) == SetCell(Released(s, a), c, w)
  {
  }

  lemma MissDropsOld(s: State, t: nat, c: nat, e: Addr, d: Addr) returns (n: nat)
    requires t < |s.threads| && c < |s.cells| && Live(s, e)
    ensures n <= 2
    ensures Path(Solo(t), Pinning(s, t, c, e, d), Counting(Released(s, e), t, c, Passed(s, t, e, d), d), n)
  {
    var w := Pinned(s.cells[c]);
    ReleasedUnderPin(s, c, w, e);
    n := ReleaseRuns(SetCell(s, c, w), t, Passed(s, t, e, d), e, Bump(c, d, w, Unpinned(w)));
  }

  lemma CountsAlone(s: State, t: nat, c: nat, own: multiset<Addr>, d: Addr)
    requires t < |s.threads| && c < |s.cells| && Live(s, s.cells[c].ptr)
    ensures var w, p := Pinned(s.cells[c]), s.cells[c].ptr;
            Alone(Counting(s, t, c, own, d), t)
            == SetThread(SetCell(Counted(s, p), c, w), t, Thread(own, CompareUnpin(c, p, d, w, Unpinned(w))))
  {
    var s1 := Alone(Counting(s, t, c, own, d), t);
    var w, p := Pinned(s.cells[c]), s.cells[c].ptr;
    assert s1.threads == s.threads[t := Thread(own, CompareUnpin(c, p, d, w, Unpinned(w)))];
  }

  lemma UnpinsAlone(s: State, t: nat, c: nat, own: multiset<Addr>, d: Addr)
    requires t < |s.threads| && c < |s.cells| && s.cells[c].tag + 1 < TAGS
    ensures var w, p := Pinned(s.cells[c]), s.cells[c].ptr;
            Alone(SetThread(SetCell(s, c, w), t, Thread(own, CompareUnpin(c, p, d, w, Unpinned(w)))), t)
            == SetThread(s, t, StartRelease(Give(own, p), d, Finish))
  {
    var w, p := Pinned(s.cells[c]), s.cells[c].ptr;
    var s1 := Alone(SetThread(SetCell(s, c, w), t, Thread(own, CompareUnpin(c, p, d, w, Unpinned(w)))), t);
    assert Unpinned(w) == s.cells[c];
    assert s1.cells == s.cells;
    assert s1.threads == s.threads[t := StartRelease(Give(own, p), d, Finish)];
  }

  /** The pinned pointer is counted and the pin taken back. */
  lemma MissCountsAlone(s: State, t: nat, c: nat, own: multiset<Addr>, d: Addr)
    requires t < |s.threads| && c < |s.cells| && s.cells[c].tag + 1 < TAGS && Live(s, s.cells[c].ptr)
    ensures var p := s.cells[c].ptr;
            Path(Solo(t), Counting(s, t, c, own, d),
                 SetThread(Counted(s, p), t, StartRelease(Give(own, p), d, Finish)), 2)
  {
    var p := s.cells[c].ptr;
    CountsAlone(s, t, c, own, d);
    UnpinsAlone(Counted(s, p), t, c, own, d);
    TwoStepsOn(Counting(s, t, c, own, d), t,
               SetThread(Counted(s, p), t, StartRelease(Give(own, p), d, Finish)));
  }

  lemma PassedAreLive(s: State, t: nat, c: nat, e: Addr, d: Addr)
    requires Inv(s) && Enabled(s, t, BeginCompare(c, e, d)) && s.cells[c].ptr != e
    ensures var p := s.cells[c].ptr;
            Live(s, e) && Live(Released(s, e), p) && Live(Counted(Released(s, e), p), d)
  {
    OwnedIsLive(s, t, e);
    if d != NULL {
      CountCovers(s, t, d);
    }
    if s.cells[c].ptr != NULL {
      HeldIsLive(s, c);
    }
  }

  lemma PinnedToUnpinned(s: State, t: nat, c: nat, e: Addr, d: Addr) returns (n: nat)
    requires t < |s.threads| && c < |s.cells| && s.cells[c].tag + 1 < TAGS
    requires Live(s, e) && Live(Released(s, e), s.cells[c].ptr)
    ensures n <= 4
    ensures var own, p := Passed(s, t, e, d), s.cells[c].ptr;
            Path(Solo(t), Pinning(s, t, c, e, d),
                 SetThread(Counted(Released(s, e), p), t, StartRelease(Give(own, p), d, Finish)), n)
  {
    var own, p, rest := Passed(s, t, e, d), s.cells[c].ptr, Released(s, e);
    var m := MissDropsOld(s, t, c, e, d);
    MissCountsAlone(rest, t, c, own, d);
    PathJoin(Solo(t), Pinning(s, t, c, e, d), Counting(rest, t, c, own, d),
             SetThread(Counted(rest, p), t, StartRelease(Give(own, p), d, Finish)), m, 2);
    n := m + 2;
  }

  /** From the pin to the return. */
  lemma MissPath(s0: State, s: State, t: nat, c: nat, e: Addr, d: Addr) returns (n: nat)
    requires t < |s.threads| && c < |s.cells| && s.cells[c].tag + 1 < TAGS
    requires var p := s.cells[c].ptr;
             Live(s, e) && Live(Released(s, e), p) && Live(Counted(Released(s, e), p), d)
    requires Path(Solo(t), s0, Pinning(s, t, c, e, d), 2)
    ensures n <= 8 && Path(Solo(t), s0, Missed(s, t, c, e, d), n)
  {
    var own, p := Passed(s, t, e, d), s.cells[c].ptr;
    var counted := Counted(Released(s, e), p);
    var unpinned := SetThread(counted, t, StartRelease(Give(own, p), d, Finish));
    var k := PinnedToUnpinned(s, t, c, e, d);
    PathJoin(Solo(t), s0, Pinning(s, t, c, e, d), unpinned, 2, k);
    var m := ReleaseRuns(counted, t, Give(own, p), d, Finish);
    PathJoin(Solo(t), s0, unpinned, Missed(s, t, c, e, d), 2 + k, m);
    n := 2 + k + m;
  }

  lemma MissReturnsAlone(s: State, t: nat, c: nat, e: Addr, d: Addr)
    requires Inv(s) && Enabled(s, t, BeginCompare(c, e, d)) && s.cells[c].ptr != e
    ensures AloneFor(Next(s, t, BeginCompare(c, e, d)), t, 8) == Missed(s, t, c, e, d)
  {
    PassedAreLive(s, t, c, e, d);
    MissPinsAlone(s, t, c, e, d);
    var n := MissPath(Next(s, t, BeginCompare(c, e, d)), s, t, c, e, d);
    ReturnsBy(Next(s, t, BeginCompare(c, e, d)), t, Missed(s, t, c, e, d), n, 8);
  }

  /** A compare_exchange that need not wait returns after at most eight steps. The cell holds
      `d` exactly if it held `e`, and every owner, count and deleter is accounted for. */
  lemma CompareReturnsAlone(s: State, t: nat, c: nat, e: Addr, d: Addr)
    requires Inv(s) && Enabled(s, t, BeginCompare(c, e, d))
    requires s.cells[c].ptr == e ==> s.cells[c].tag == 0
    ensures var s' := AloneFor(Next(s, t, BeginCompare(c, e, d)), t, 8);
            && s' == (if s.cells[c].ptr == e then Swapped(s, t, c, e, d) else Missed(s, t, c, e, d))
            && |s'.threads| == |s.threads| && s'.threads[t].pc.Idle?
            && s'.cells == (if s.cells[c].ptr == e then s.cells[c := Word(d, 0)] else s.cells)
            && s'.threads[t].own == Give(Passed(s, t, e, d), s.cells[c].ptr)
  {
    if s.cells[c].ptr == e {
      SwapReturnsAlone(s, t, c, e, d);
    } else {
      MissReturnsAlone(s, t, c, e, d);
    }
  }
}
