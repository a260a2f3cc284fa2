/** What the ledger means for users of `SharedPtr` and `std::atomic<SharedPtr>`. */
module SharedPtrTheorems {
  import opened Sums
  import opened TaggedPtr
  import opened SharedPtrMachine
  import opened SharedPtrLedger
  import opened SharedPtrSafety

  // ---- The ledger, told in the program's own variables ----

  /** `SharedPtr` variables of a thread that point to a: its idle ones, and the `e` and `d` of
      a compare_exchange. `e` counts from line 266 on, when it is given the pointer; `d` stops
      counting once the cell has taken it, for the two are one reference until `d.__release()`. */
  function OwnersOf(th: Thread, a: Addr): nat {
    th.own[a] +
    match th.pc
    case Compare(_, e, d, _, _) => Is(e, a) + Is(d, a)
    case CompareCount(_, d, cur, _) => Is(cur.ptr, a) + Is(d, a)
    case CompareUnpin(_, e, d, _, _) => Is(e, a) + Is(d, a)
    case Release(_, _, _, next) => ThenOwnersOf(next, a)
    case Delete(_, next) => ThenOwnersOf(next, a)
    case _ => 0
  }

  function ThenOwnersOf(next: Then, a: Addr): nat {
    match next
    case Finish => 0
    case Won(e, _) => Is(e, a)
    case Bump(_, d, cur, _) => Is(cur.ptr, a) + Is(d, a)
  }

  /** References in the thread's hands: counted by a load but not handed out, released from
      `desired` but not in the cell, taken back but not yet off the count. */
  function HandsOf(th: Thread, a: Addr): nat {
    match th.pc
    case LoadUnpin(_, cur, _) => Is(cur.ptr, a)
    case Exchange(_, _, des) => Is(des.ptr, a)
    case Release(x, _, _, _) => Is(x, a)
    case _ => 0
  }

  /** Owners that exist before their reference is counted (between lines 266 and 269). */
  function EarlyOf(th: Thread, a: Addr): nat {
    match th.pc
    case CompareCount(_, _, cur, _) => Is(cur.ptr, a)
    case Release(_, _, _, next) => if next.Bump? then Is(next.cur.ptr, a) else 0
    case Delete(_, next) => if next.Bump? then Is(next.cur.ptr, a) else 0
    case _ => 0
  }

  function OwnersFn(a: Addr): Thread -> nat {
    th => OwnersOf(th, a)
  }

  function HandsFn(a: Addr): Thread -> nat {
    th => HandsOf(th, a)
  }

  function EarlyFn(a: Addr): Thread -> nat {
    th => EarlyOf(th, a)
  }

  lemma {:induction false} RefsSplit(threads: seq<Thread>, a: Addr)
    ensures Sum(threads, RefsFn(a)) + Sum(threads, EarlyFn(a))
            == Sum(threads, OwnersFn(a)) + Sum(threads, HandsFn(a))
  {
    if |threads| > 0 {
      RefsSplit(threads[..|threads| - 1], a);
      RefsOfSplit(threads[|threads| - 1], a);
    }
  }

  lemma RefsOfSplit(th: Thread, a: Addr)
    ensures RefsOf(th, a) + EarlyOf(th, a) == OwnersOf(th, a) + HandsOf(th, a)
  {
  }

  /** The exact count ledger, in every state of every run. */
  lemma CountLedger(run: seq<State>, i: nat, a: Addr)
    requires IsRun(run) && i < |run| && a != NULL
    ensures var s := run[i];
            Count(s, a) + Sum(s.threads, EarlyFn(a))
            == Sum(s.threads, OwnersFn(a)) + Holding(s, a) + Sum(s.threads, HandsFn(a))
  {
    RunKeepsInv(run, i);
    RefsSplit(run[i].threads, a);
  }

  // ---- Lifetime ----

  /** No step of any run touches a freed control block or takes a count below zero. */
  lemma NeverTouchesFreed(run: seq<State>, i: nat)
    requires IsRun(run) && i < |run|
    ensures !run[i].fault
  {
    RunKeepsInv(run, i);
  }

  /** Every deleter runs at most once, and exactly once for a block that is no longer live. */
  lemma DeletedExactlyOnce(run: seq<State>, i: nat, n: nat)
    requires IsRun(run) && i < |run|
    ensures run[i].deleted[n] <= 1
    ensures run[i].deleted[n] == 1 <==>
            n < run[i].births && forall a :: a in run[i].heap ==> run[i].heap[a].birth != n
  {
    RunKeepsInv(run, i);
    var s := run[i];
    var live := BirthMap(s.heap);
    if n in live.Values {
      var a :| a in live && live[a] == n;
      assert s.heap[a].birth == n;
    } else {
      forall a | a in s.heap
        ensures s.heap[a].birth != n
      {
        assert live[a] == s.heap[a].birth;
      }
    }
  }

  /** A deleter runs exactly when its block has no reference left anywhere, and only one
      thread gets to run it. */
  lemma DeleterRunsAtLastReference(run: seq<State>, i: nat, t: nat)
    requires IsRun(run) && i < |run| && t < |run[i].threads| && run[i].threads[t].pc.Delete?
    ensures var s, a := run[i], run[i].threads[t].pc.a;
            && a in s.heap && s.heap[a].count == 0
            && (forall u :: 0 <= u < |s.threads| ==> RefsOf(s.threads[u], a) == 0)
            && (forall c :: 0 <= c < |s.cells| ==> s.cells[c].ptr != a)
            && (forall u :: 0 <= u < |s.threads| && u != t ==> DeletesOf(s.threads[u], a) == 0)
  {
    RunKeepsInv(run, i);
    var s, a := run[i], run[i].threads[t].pc.a;
    SumAt(s.threads, t, DeletesFn(a));
    assert Doomed(s, a) == 1;
    assert Count(s, a) == Refs(s, a) + Holding(s, a);
    forall u | 0 <= u < |s.threads|
      ensures RefsOf(s.threads[u], a) == 0
      ensures u != t ==> DeletesOf(s.threads[u], a) == 0
    {
      SumAt(s.threads, u, RefsFn(a));
      if u < t {
        SumAtTwo(s.threads, u, t, DeletesFn(a));
      } else if t < u {
        SumAtTwo(s.threads, t, u, DeletesFn(a));
      }
    }
    forall c | 0 <= c < |s.cells|
      ensures s.cells[c].ptr != a
    {
      SumAt(s.cells, c, HoldsFn(a));
    }
  }

  /** While a reader is between its pin and its unpin, the pointer it pinned is still in the
      cell and alive. */
  lemma PinnedStaysAlive(run: seq<State>, i: nat, t: nat, c: nat)
    requires IsRun(run) && i < |run| && t < |run[i].threads| && c < |run[i].cells|
    requires PinsOf(run[i].threads[t], c) > 0
    ensures var s := run[i];
            && s.cells[c].tag > 0
            && (s.cells[c].ptr != NULL ==>
                  s.cells[c].ptr in s.heap && s.heap[s.cells[c].ptr].count > 0)
  {
    RunKeepsInv(run, i);
    SumAt(run[i].threads, t, PinsFn(c));
    if run[i].cells[c].ptr != NULL {
      HeldIsLive(run[i], c);
    }
  }

  /** Every cell cleared, every owner dropped, no operation in progress. */
  predicate AtRest(s: State) {
    && (forall c :: 0 <= c < |s.cells| ==> s.cells[c].ptr == NULL)
    && (forall t :: 0 <= t < |s.threads| ==> s.threads[t] == Thread(multiset{}, Idle))
  }

  lemma NothingLiveAtRest(s: State, a: Addr)
    requires Inv(s) && AtRest(s) && a != NULL
    ensures a !in s.heap
  {
    SumIsZero(s.threads, RefsFn(a));
    SumIsZero(s.threads, DeletesFn(a));
    SumIsZero(s.cells, HoldsFn(a));
    assert Count(s, a) == Refs(s, a) + Holding(s, a) == 0;
    assert Doomed(s, a) == 0;
  }

  /** At rest nothing is left allocated: every deleter has run. */
  lemma EverythingFreedAtRest(run: seq<State>, i: nat)
    requires IsRun(run) && i < |run| && AtRest(run[i])
    ensures run[i].heap == map[]
    ensures forall n: nat :: n < run[i].births ==> run[i].deleted[n] == 1
  {
    RunKeepsInv(run, i);
    var s := run[i];
    forall a | a != NULL
      ensures a !in s.heap
    {
      NothingLiveAtRest(s, a);
    }
    assert s.heap == map[];
    forall n: nat | n < s.births
      ensures s.deleted[n] == 1
    {
      DeletedExactlyOnce(run, i, n);
    }
  }

  // ---- Tags and pointers of a cell ----

  /** The tag of a cell is the number of readers in progress, and fits its 16 bits. */
  lemma TagCountsReaders(run: seq<State>, i: nat, c: nat)
    requires IsRun(run) && i < |run| && c < |run[i].cells|
    ensures run[i].cells[c].tag == Pins(run[i], c) <= |run[i].threads| < TAGS
  {
    RunKeepsInv(run, i);
    SumAtMostOneEach(run[i].threads, PinsFn(c));
  }

  /** A step changes a cell's pointer only when nobody is reading it. */
  lemma PointerMovesAtTagZero(s: State, t: nat, act: Action, c: nat)
    requires Inv(s) && Enabled(s, t, act) && c < |s.cells|
    ensures c < |Next(s, t, act).cells|
    ensures Next(s, t, act).cells[c].ptr != s.cells[c].ptr ==> s.cells[c].tag == 0
  {
  }

  lemma StepKeepsPinnedPointer(run: seq<State>, j: nat, t: nat, c: nat)
    requires IsRun(run) && j + 1 < |run| && t < |run[j].threads| && c < |run[j].cells|
    requires PinsOf(run[j].threads[t], c) > 0
    ensures c < |run[j + 1].cells| && run[j + 1].cells[c].ptr == run[j].cells[c].ptr
  {
    var s, s' := run[j], run[j + 1];
    RunKeepsInv(run, j);
    assert StepAt(run, j);
    var u: nat, act: Action :| Enabled(s, u, act) && s' == Next(s, u, act);
    PointerMovesAtTagZero(s, u, act, c);
    SumAt(s.threads, t, PinsFn(c));
  }

  predicate InPin(s: State, t: nat, c: nat) {
    t < |s.threads| && c < |s.cells| && PinsOf(s.threads[t], c) > 0
  }

  /** From pin to unpin the cell's pointer does not move, so the pointer read again at the
      unpin is the one that was counted. */
  lemma {:induction false} PinnedPointerIsConstant(run: seq<State>, t: nat, c: nat, i: nat, j: nat)
    requires IsRun(run) && i <= j < |run|
    requires forall k :: i <= k <= j ==> InPin(run[k], t, c)
    ensures InPin(run[i], t, c) && InPin(run[j], t, c)
    ensures run[j].cells[c].ptr == run[i].cells[c].ptr
    decreases j
  {
    if i < j {
      PinnedPointerIsConstant(run, t, c, i, j - 1);
      assert InPin(run[j - 1], t, c);
      StepKeepsPinnedPointer(run, j - 1, t, c);
    }
  }
}
