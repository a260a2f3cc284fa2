/** Every step of the reference-count machine keeps its ledger, in every interleaving. */
module SharedPtrSafety {
  import opened Sums
  import opened TaggedPtr
  import opened SharedPtrMachine
  import opened SharedPtrLedger

  function HoldsAt(s: State, c: nat, a: Addr): nat {
    if c < |s.cells| then Is(s.cells[c].ptr, a) else 0
  }

  /** Thread t and at most the one cell c differ between s and s'. */
  predicate OneThread(s: State, s': State, t: nat, c: nat) {
    && t < |s.threads| == |s'.threads|
    && s'.threads == s.threads[t := s'.threads[t]]
    && |s'.cells| == |s.cells|
    && s'.cells == if c < |s.cells| then s.cells[c := s'.cells[c]] else s.cells
  }

  lemma TotalsMove(s: State, s': State, t: nat, c: nat, a: Addr, x: nat)
    requires OneThread(s, s', t, c)
    ensures Refs(s', a) + RefsOf(s.threads[t], a) == Refs(s, a) + RefsOf(s'.threads[t], a)
    ensures Pins(s', x) + PinsOf(s.threads[t], x) == Pins(s, x) + PinsOf(s'.threads[t], x)
    ensures Deletes(s', a) + DeletesOf(s.threads[t], a) == Deletes(s, a) + DeletesOf(s'.threads[t], a)
    ensures Holding(s', a) + HoldsAt(s, c, a) == Holding(s, a) + HoldsAt(s', c, a)
  {
    var th := s'.threads[t];
    SumUpdate(s.threads, t, th, RefsFn(a));
    SumUpdate(s.threads, t, th, PinsFn(x));
    SumUpdate(s.threads, t, th, DeletesFn(a));
    if c < |s.cells| {
      SumUpdate(s.cells, c, s'.cells[c], HoldsFn(a));
    }
  }

  /** The books stay balanced if the moving thread and the cell balance each other. */
  ghost predicate Balanced(s: State, s': State, t: nat, c: nat)
    requires OneThread(s, s', t, c)
  {
    var th, th' := s.threads[t], s'.threads[t];
    && (forall a :: a != NULL ==>
          Count(s', a) + RefsOf(th, a) + HoldsAt(s, c, a)
          == Count(s, a) + RefsOf(th', a) + HoldsAt(s', c, a))
    && (forall a :: a != NULL ==>
          Doomed(s', a) + DeletesOf(th, a) == Doomed(s, a) + DeletesOf(th', a))
    && (forall x :: x != c ==> PinsOf(th, x) == PinsOf(th', x))
    && (c < |s.cells| ==>
          && s'.cells[c].tag + PinsOf(th, c) == s.cells[c].tag + PinsOf(th', c)
          && (s'.cells[c].ptr == s.cells[c].ptr || s.cells[c].tag == 0))
  }

  lemma BalancedKeepsInv(s: State, s': State, t: nat, c: nat)
    requires Inv(s) && OneThread(s, s', t, c) && Balanced(s, s', t, c)
    requires LocalOk(s'.cells, s'.threads[t])
    requires BirthsOk(BirthMap(s'.heap), s'.births, s'.deleted) && !s'.fault
    ensures Inv(s')
  {
    forall a | a != NULL
      ensures Count(s', a) == Refs(s', a) + Holding(s', a) && Deletes(s', a) == Doomed(s', a)
    {
      TotalsMove(s, s', t, c, a, 0);
    }
    forall x: nat | x < |s'.cells|
      ensures s'.cells[x].tag == Pins(s', x)
    {
      TotalsMove(s, s', t, c, NULL, x);
    }
    forall u | 0 <= u < |s'.threads|
      ensures LocalOk(s'.cells, s'.threads[u])
    {
      if u != t {
        if c < |s.cells| && s.cells[c].tag == 0 {
          UnpinnedAtZero(s, c, u);
        }
        LocalStable(s.cells, s'.cells, s.threads[u]);
      }
    }
  }

  lemma BalancedMove(s: State, t: nat, th: Thread)
    requires Inv(s) && t < |s.threads| && LocalOk(s.cells, th)
    requires forall a :: a != NULL ==> RefsOf(s.threads[t], a) == RefsOf(th, a)
    requires forall a :: a != NULL ==> DeletesOf(s.threads[t], a) == DeletesOf(th, a)
    requires forall c :: PinsOf(s.threads[t], c) == PinsOf(th, c)
    ensures Inv(SetThread(s, t, th))
  {
    BalancedKeepsInv(s, SetThread(s, t, th), t, |s.cells|);
  }

  /** Only the count of block a moves, by as much as thread t's references to it. */
  lemma RecountKeepsInv(s: State, t: nat, a: Addr, n: nat, th: Thread)
    requires Inv(s) && t < |s.threads| && LocalOk(s.cells, th)
    requires a in s.heap && n + RefsOf(s.threads[t], a) == s.heap[a].count + RefsOf(th, a)
    requires forall b :: b != a && b != NULL ==> RefsOf(s.threads[t], b) == RefsOf(th, b)
    requires forall b :: b != a && b != NULL ==> DeletesOf(s.threads[t], b) == DeletesOf(th, b)
    requires s.heap[a].count > 0 && DeletesOf(s.threads[t], a) == 0
    requires DeletesOf(th, a) == if n == 0 then 1 else 0
    requires forall c :: PinsOf(s.threads[t], c) == PinsOf(th, c)
    ensures Inv(SetThread(s, t, th).(heap := s.heap[a := s.heap[a].(count := n)]))
  {
    var s' := SetThread(s, t, th).(heap := s.heap[a := s.heap[a].(count := n)]);
    assert BirthMap(s'.heap) == BirthMap(s.heap);
    BalancedKeepsInv(s, s', t, |s.cells|);
  }

  /** Pinning: the cell keeps its pointer and gains one reader. */
  lemma PinKeeps(s: State, t: nat, c: nat, th: Thread)
    requires Inv(s) && t < |s.threads| && c < |s.cells| && LocalOk(s.cells, th)
    requires forall a :: a != NULL ==> RefsOf(s.threads[t], a) == RefsOf(th, a)
    requires forall a :: a != NULL ==> DeletesOf(s.threads[t], a) == DeletesOf(th, a)
    requires forall x :: PinsOf(s.threads[t], x) == 0 && PinsOf(th, x) == Is(c, x)
    ensures Inv(SetThread(SetCell(s, c, Pinned(s.cells[c])), t, th))
  {
    RoomToPin(s, c, t);
    LocalStable(s.cells, s.cells[c := Pinned(s.cells[c])], th);
    BalancedKeepsInv(s, SetThread(SetCell(s, c, Pinned(s.cells[c])), t, th), t, c);
  }

  /** Unpinning: the cell keeps its pointer and gives back one reader. */
  lemma UnpinKeeps(s: State, t: nat, c: nat, th: Thread)
    requires Inv(s) && t < |s.threads| && c < |s.cells| && LocalOk(s.cells, th)
    requires forall a :: a != NULL ==> RefsOf(s.threads[t], a) == RefsOf(th, a)
    requires forall a :: a != NULL ==> DeletesOf(s.threads[t], a) == DeletesOf(th, a)
    requires forall x :: PinsOf(s.threads[t], x) == Is(c, x) && PinsOf(th, x) == 0
    ensures Inv(SetThread(SetCell(s, c, Unpinned(s.cells[c])), t, th))
  {
    TagOfPinned(s, c, t);
    LocalStable(s.cells, s.cells[c := Unpinned(s.cells[c])], th);
    BalancedKeepsInv(s, SetThread(SetCell(s, c, Unpinned(s.cells[c])), t, th), t, c);
  }

  /** Swapping at tag zero: the thread takes over the cell's reference and leaves its own. */
  lemma SwapKeeps(s: State, t: nat, c: nat, p: Addr, th: Thread)
    requires Inv(s) && t < |s.threads| && c < |s.cells|
    requires s.cells[c].tag == 0 && LocalOk(s.cells[c := Word(p, 0)], th)
    requires forall a :: a != NULL ==>
               RefsOf(s.threads[t], a) + Is(s.cells[c].ptr, a) == RefsOf(th, a) + Is(p, a)
    requires forall a :: a != NULL ==> DeletesOf(s.threads[t], a) == DeletesOf(th, a)
    requires forall x :: PinsOf(s.threads[t], x) == PinsOf(th, x) == 0
    ensures Inv(SetThread(SetCell(s, c, Word(p, 0)), t, th))
  {
    BalancedKeepsInv(s, SetThread(SetCell(s, c, Word(p, 0)), t, th), t, c);
  }

  lemma ReleaseCarries(own: multiset<Addr>, p: Addr, next: Then, a: Addr, c: nat)
    requires a != NULL
    ensures RefsOf(StartRelease(own, p, next), a) == own[a] + Is(p, a) + ThenRefsOf(next, a)
    ensures RefsOf(Resume(own, next), a) == own[a] + ThenRefsOf(next, a)
    ensures PinsOf(StartRelease(own, p, next), c) == PinsOf(Resume(own, next), c) == ThenPinsOf(next, c)
    ensures DeletesOf(StartRelease(own, p, next), a) == DeletesOf(Resume(own, next), a) == 0
  {
  }

  lemma ReleaseIsLocal(cells: seq<Word>, own: multiset<Addr>, p: Addr, next: Then)
    requires NULL !in own && ThenOk(cells, next)
    ensures LocalOk(cells, StartRelease(own, p, next)) && LocalOk(cells, Resume(own, next))
  {
  }

  lemma GiveCounts(own: multiset<Addr>, p: Addr, a: Addr)
    requires a != NULL
    ensures Give(own, p)[a] == own[a] + Is(p, a)
    ensures CanTake(own, p) ==> Take(own, p)[a] + Is(p, a) == own[a]
  {
  }

  // ---- The atomic steps of the operations ----

  lemma LoadPinKeeps(s: State, t: nat, spurious: bool)
    requires Inv(s) && Enabled(s, t, Advance(spurious)) && s.threads[t].pc.LoadPin?
    ensures Inv(NextAtomic(s, t, spurious))
  {
    var pc := s.threads[t].pc;
    var th := NextAtomic(s, t, spurious).threads[t];
    if CasWeak(s.cells[pc.c], pc.cur, pc.des, spurious).ok {
      PinKeeps(s, t, pc.c, th);
    } else {
      BalancedMove(s, t, th);
    }
  }

  lemma LoadUnpinKeeps(s: State, t: nat, spurious: bool)
    requires Inv(s) && Enabled(s, t, Advance(spurious)) && s.threads[t].pc.LoadUnpin?
    ensures Inv(NextAtomic(s, t, spurious))
  {
    var own, pc := s.threads[t].own, s.threads[t].pc;
    var th := NextAtomic(s, t, spurious).threads[t];
    if CasWeak(s.cells[pc.c], pc.cur, pc.des, spurious).ok {
      forall a: Addr | a != NULL
        ensures RefsOf(s.threads[t], a) == RefsOf(th, a)
      {
        GiveCounts(own, pc.des.ptr, a);
      }
      UnpinKeeps(s, t, pc.c, th);
    } else {
      BalancedMove(s, t, th);
    }
  }

  lemma ExchangeKeeps(s: State, t: nat, spurious: bool)
    requires Inv(s) && Enabled(s, t, Advance(spurious)) && s.threads[t].pc.Exchange?
    ensures Inv(NextAtomic(s, t, spurious))
  {
    var own, pc := s.threads[t].own, s.threads[t].pc;
    var th := NextAtomic(s, t, spurious).threads[t];
    if CasWeak(s.cells[pc.c], pc.cur, pc.des, spurious).ok {
      forall a: Addr | a != NULL
        ensures RefsOf(s.threads[t], a) + Is(pc.cur.ptr, a) == RefsOf(th, a) + Is(pc.des.ptr, a)
      {
        GiveCounts(own, pc.cur.ptr, a);
      }
      SwapKeeps(s, t, pc.c, pc.des.ptr, th);
    } else {
      BalancedMove(s, t, th);
    }
  }

  lemma CompareRetryKeeps(s: State, t: nat, spurious: bool)
    requires Inv(s) && Enabled(s, t, Advance(spurious)) && s.threads[t].pc.Compare?
    requires var pc := s.threads[t].pc; !CasWeak(s.cells[pc.c], pc.cur, pc.des, spurious).ok
    ensures Inv(NextAtomic(s, t, spurious))
  {
    BalancedMove(s, t, NextAtomic(s, t, spurious).threads[t]);
  }

  lemma CompareSwapKeeps(s: State, t: nat, spurious: bool)
    requires Inv(s) && Enabled(s, t, Advance(spurious)) && s.threads[t].pc.Compare?
    requires var pc := s.threads[t].pc;
             CasWeak(s.cells[pc.c], pc.cur, pc.des, spurious).ok && pc.cur == Word(pc.e, 0)
    ensures Inv(NextAtomic(s, t, spurious))
  {
    var own, pc := s.threads[t].own, s.threads[t].pc;
    var th := StartRelease(own, pc.e, Won(pc.e, pc.d));
    forall a: Addr | a != NULL
      ensures RefsOf(th, a) == own[a] + Is(pc.e, a) + Is(pc.e, a) && DeletesOf(th, a) == 0
    {
      ReleaseCarries(own, pc.e, Won(pc.e, pc.d), a, 0);
    }
    SwapKeeps(s, t, pc.c, pc.d, th);
  }

  /** A thread that has pinned a pointer other than `e` and starts to drop the old one. */
  lemma BumpThread(cells: seq<Word>, own: multiset<Addr>, e: Addr, d: Addr, c: nat, w: Word)
    requires NULL !in own && c < |cells| && cells[c].ptr == w.ptr
    ensures var th := StartRelease(own, e, Bump(c, d, w, Unpinned(w)));
            && LocalOk(cells, th)
            && (forall a: Addr :: a != NULL ==> RefsOf(th, a) == own[a] + Is(e, a) + Is(d, a))
            && (forall a: Addr :: a != NULL ==> DeletesOf(th, a) == 0)
            && (forall x: nat :: PinsOf(th, x) == Is(c, x))
  {
    ReleaseIsLocal(cells, own, e, Bump(c, d, w, Unpinned(w)));
  }

  lemma ComparePinNext(s: State, t: nat, spurious: bool)
    requires Inv(s) && Enabled(s, t, Advance(spurious)) && s.threads[t].pc.Compare?
    requires var pc := s.threads[t].pc;
             CasWeak(s.cells[pc.c], pc.cur, pc.des, spurious).ok && pc.cur != Word(pc.e, 0)
    ensures var own, pc := s.threads[t].own, s.threads[t].pc;
            var w := Pinned(s.cells[pc.c]);
            NextAtomic(s, t, spurious)
            == SetThread(SetCell(s, pc.c, w), t, StartRelease(own, pc.e, Bump(pc.c, pc.d, w, Unpinned(w))))
  {
    var pc := s.threads[t].pc;
    assert LocalOk(s.cells, s.threads[t]);
    RoomToPin(s, pc.c, t);
  }

  lemma ComparePinKeeps(s: State, t: nat, spurious: bool)
    requires Inv(s) && Enabled(s, t, Advance(spurious)) && s.threads[t].pc.Compare?
    requires var pc := s.threads[t].pc;
             CasWeak(s.cells[pc.c], pc.cur, pc.des, spurious).ok && pc.cur != Word(pc.e, 0)
    ensures Inv(NextAtomic(s, t, spurious))
  {
    var own, pc := s.threads[t].own, s.threads[t].pc;
    var w := Pinned(s.cells[pc.c]);
    ComparePinNext(s, t, spurious);
    assert LocalOk(s.cells, s.threads[t]);
    BumpThread(s.cells, own, pc.e, pc.d, pc.c, w);
    PinKeeps(s, t, pc.c, StartRelease(own, pc.e, Bump(pc.c, pc.d, w, Unpinned(w))));
  }

  lemma CompareUnpinKeeps(s: State, t: nat, spurious: bool)
    requires Inv(s) && Enabled(s, t, Advance(spurious)) && s.threads[t].pc.CompareUnpin?
    ensures Inv(NextAtomic(s, t, spurious))
  {
    var own, pc := s.threads[t].own, s.threads[t].pc;
    var th := NextAtomic(s, t, spurious).threads[t];
    if CasWeak(s.cells[pc.c], pc.cur, pc.des, spurious).ok {
      forall a: Addr | a != NULL
        ensures RefsOf(th, a) == RefsOf(s.threads[t], a) && DeletesOf(th, a) == 0
      {
        GiveCounts(own, pc.e, a);
        ReleaseCarries(Give(own, pc.e), pc.d, Finish, a, 0);
      }
      UnpinKeeps(s, t, pc.c, th);
    } else {
      BalancedMove(s, t, th);
    }
  }

  /** The pinned pointer is the one the cell still holds, so counting it is safe. */
  lemma CountKeeps(s: State, t: nat, spurious: bool)
    requires Inv(s) && Enabled(s, t, Advance(spurious))
    requires s.threads[t].pc.LoadCount? || s.threads[t].pc.CompareCount?
    ensures Inv(NextAtomic(s, t, spurious))
  {
    var a := s.threads[t].pc.cur.ptr;
    var th := NextAtomic(s, t, spurious).threads[t];
    if a == NULL {
      BalancedMove(s, t, th);
    } else {
      HeldIsLive(s, s.threads[t].pc.c);
      RecountKeepsInv(s, t, a, s.heap[a].count + 1, th);
    }
  }

  lemma ReleaseLastKeeps(s: State, t: nat)
    requires Inv(s) && Enabled(s, t, Advance(false)) && s.threads[t].pc.Release?
    requires var pc := s.threads[t].pc; pc.a in s.heap && s.heap[pc.a].count == pc.seen == 1
    ensures Inv(NextAtomic(s, t, false))
  {
    var pc := s.threads[t].pc;
    RecountKeepsInv(s, t, pc.a, 0, Thread(s.threads[t].own, Delete(pc.a, pc.next)));
  }

  lemma ReleaseSharedKeeps(s: State, t: nat)
    requires Inv(s) && Enabled(s, t, Advance(false)) && s.threads[t].pc.Release?
    requires var pc := s.threads[t].pc; pc.a in s.heap && s.heap[pc.a].count == pc.seen > 1
    ensures Inv(NextAtomic(s, t, false))
  {
    var own, pc := s.threads[t].own, s.threads[t].pc;
    var th := Resume(own, pc.next);
    ReleaseIsLocal(s.cells, own, pc.a, pc.next);
    forall a: Addr | a != NULL
      ensures RefsOf(th, a) + Is(pc.a, a) == RefsOf(s.threads[t], a) && DeletesOf(th, a) == 0
    {
      ReleaseCarries(own, pc.a, pc.next, a, 0);
    }
    RecountKeepsInv(s, t, pc.a, pc.seen - 1, th);
  }

  lemma ReleaseKeeps(s: State, t: nat, spurious: bool)
    requires Inv(s) && Enabled(s, t, Advance(spurious)) && s.threads[t].pc.Release?
    ensures Inv(NextAtomic(s, t, spurious))
  {
    var pc := s.threads[t].pc;
    CountCovers(s, t, pc.a);
    if s.heap[pc.a].count != pc.seen || spurious {
      BalancedMove(s, t, NextAtomic(s, t, spurious).threads[t]);
    } else if pc.seen == 1 {
      ReleaseLastKeeps(s, t);
    } else {
      ReleaseSharedKeeps(s, t);
    }
  }

  /** The deleter runs on a block that nothing refers to any more. */
  lemma DeleteKeeps(s: State, t: nat, spurious: bool)
    requires Inv(s) && Enabled(s, t, Advance(spurious)) && s.threads[t].pc.Delete?
    ensures Inv(NextAtomic(s, t, spurious))
  {
    var own, pc := s.threads[t].own, s.threads[t].pc;
    var s' := NextAtomic(s, t, spurious);
    SumAt(s.threads, t, DeletesFn(pc.a));
    assert Doomed(s, pc.a) == 1;
    var th := Resume(own, pc.next);
    ReleaseIsLocal(s.cells, own, pc.a, pc.next);
    forall a: Addr | a != NULL
      ensures RefsOf(th, a) == RefsOf(s.threads[t], a) && DeletesOf(th, a) == 0
    {
      ReleaseCarries(own, NULL, pc.next, a, 0);
    }
    DeleteKeepsBirths(s, pc.a);
    BalancedKeepsInv(s, s', t, |s.cells|);
  }

  lemma DeleteKeepsBirths(s: State, a: Addr)
    requires BirthsOk(BirthMap(s.heap), s.births, s.deleted) && a in s.heap
    ensures BirthsOk(BirthMap(s.heap - {a}), s.births, s.deleted + multiset{s.heap[a].birth})
  {
    var live := BirthMap(s.heap);
    assert BirthMap(s.heap - {a}) == live - {a};
    forall n: nat | n < s.births && n !in (live - {a}).Values
      ensures (s.deleted + multiset{live[a]})[n] == 1
    {
      if n in live.Values {
        var b :| b in live && live[b] == n;
        assert b != a ==> b in live - {a};
      }
    }
  }

  // ---- Beginning an operation, and plain uses of pointers ----

  lemma BeginLoadKeeps(s: State, t: nat, act: Action)
    requires Inv(s) && Enabled(s, t, act) && (act.BeginLoad? || act.BeginExchange?)
    ensures Inv(Next(s, t, act))
  {
    var th, th' := s.threads[t], Next(s, t, act).threads[t];
    if act.BeginExchange? {
      forall a: Addr | a != NULL
        ensures RefsOf(th', a) == RefsOf(th, a)
      {
        GiveCounts(th.own, act.p, a);
      }
    }
    BalancedMove(s, t, th');
  }

  lemma BeginCompareKeeps(s: State, t: nat, c: nat, e: Addr, d: Addr)
    requires Inv(s) && Enabled(s, t, BeginCompare(c, e, d))
    ensures Inv(Next(s, t, BeginCompare(c, e, d)))
  {
    var th := s.threads[t];
    var th' := Next(s, t, BeginCompare(c, e, d)).threads[t];
    forall a: Addr | a != NULL
      ensures RefsOf(th', a) == RefsOf(th, a)
    {
      GiveCounts(th.own, e, a);
      GiveCounts(Take(th.own, e), d, a);
    }
    BalancedMove(s, t, th');
  }

  lemma DropKeeps(s: State, t: nat, p: Addr)
    requires Inv(s) && Enabled(s, t, Drop(p))
    ensures Inv(Next(s, t, Drop(p)))
  {
    var th, th' := s.threads[t], Next(s, t, Drop(p)).threads[t];
    forall a: Addr | a != NULL
      ensures RefsOf(th', a) == RefsOf(th, a)
    {
      GiveCounts(th.own, p, a);
    }
    BalancedMove(s, t, th');
  }

  lemma CopyKeeps(s: State, t: nat, a: Addr)
    requires Inv(s) && Enabled(s, t, Copy(a))
    ensures Inv(Next(s, t, Copy(a)))
  {
    CountCovers(s, t, a);
    RecountKeepsInv(s, t, a, s.heap[a].count + 1, Next(s, t, Copy(a)).threads[t]);
  }

  lemma BirthKeepsBirths(live: map<Addr, nat>, births: nat, deleted: multiset<nat>, a: Addr)
    requires BirthsOk(live, births, deleted) && a != NULL && a !in live
    ensures BirthsOk(live[a := births], births + 1, deleted)
  {
    var live' := live[a := births];
    forall n: nat | n < births + 1 && n !in live'.Values
      ensures deleted[n] == 1
    {
      assert live'[a] == births;
      assert forall b :: b in live ==> b in live' && live'[b] == live[b];
    }
  }

  lemma AllocateKeeps(s: State, t: nat, a: Addr)
    requires Inv(s) && Enabled(s, t, Allocate(a))
    ensures Inv(Next(s, t, Allocate(a)))
  {
    var s' := Next(s, t, Allocate(a));
    assert BirthsOk(BirthMap(s'.heap), s'.births, s'.deleted) by {
      BirthKeepsBirths(BirthMap(s.heap), s.births, s.deleted, a);
      assert BirthMap(s'.heap) == BirthMap(s.heap)[a := s.births];
    }
    AllocateBalanced(s, t, a);
    BalancedKeepsInv(s, s', t, |s.cells|);
  }

  lemma AllocateBalanced(s: State, t: nat, a: Addr)
    requires Enabled(s, t, Allocate(a))
    ensures OneThread(s, Next(s, t, Allocate(a)), t, |s.cells|)
    ensures Balanced(s, Next(s, t, Allocate(a)), t, |s.cells|)
  {
  }

  lemma MoveTotals(s: State, t: nat, to: nat, a: Addr, b: Addr, x: nat)
    requires Enabled(s, t, Move(to, a))
    ensures var s' := Next(s, t, Move(to, a));
            && Pins(s', x) == Pins(s, x)
            && (b != NULL ==> Refs(s', b) == Refs(s, b) && Deletes(s', b) == Deletes(s, b))
  {
    var out := SetThread(s, t, Thread(Take(s.threads[t].own, a), Idle));
    TotalsMove(s, out, t, |s.cells|, b, x);
    TotalsMove(out, Next(s, t, Move(to, a)), to, |s.cells|, b, x);
  }

  lemma MoveKeeps(s: State, t: nat, to: nat, a: Addr)
    requires Inv(s) && Enabled(s, t, Move(to, a))
    ensures Inv(Next(s, t, Move(to, a)))
  {
    var s' := Next(s, t, Move(to, a));
    assert LedgerOk(s') && DeletesOk(s') by {
      forall b: Addr | b != NULL
        ensures Count(s', b) == Refs(s', b) + Holding(s', b) && Deletes(s', b) == Doomed(s', b)
      {
        MoveTotals(s, t, to, a, b, 0);
      }
    }
    assert TagsOk(s') by {
      forall x: nat | x < |s'.cells|
        ensures s'.cells[x].tag == Pins(s', x)
      {
        MoveTotals(s, t, to, a, a, x);
      }
    }
    forall u | 0 <= u < |s'.threads|
      ensures LocalOk(s'.cells, s'.threads[u])
    {
      assert LocalOk(s.cells, s.threads[u]);
    }
  }

  lemma MakeCellTotals(s: State, t: nat, p: Addr, b: Addr)
    requires Inv(s) && Enabled(s, t, MakeCell(p)) && b != NULL
    ensures var s' := Next(s, t, MakeCell(p));
            && Refs(s', b) + Is(p, b) == Refs(s, b) && Deletes(s', b) == Deletes(s, b)
            && Holding(s', b) == Holding(s, b) + Is(p, b)
  {
    var own := s.threads[t].own;
    TotalsMove(s, SetThread(s, t, Thread(Take(own, p), Idle)), t, |s.cells|, b, 0);
    GiveCounts(own, p, b);
    SumAppend(s.cells, Word(p, 0), HoldsFn(b));
  }

  lemma MakeCellPins(s: State, t: nat, p: Addr, x: nat)
    requires Inv(s) && Enabled(s, t, MakeCell(p))
    ensures Pins(Next(s, t, MakeCell(p)), x) == Pins(s, x)
    ensures x == |s.cells| ==> Pins(s, x) == 0
  {
    TotalsMove(s, SetThread(s, t, Thread(Take(s.threads[t].own, p), Idle)), t, |s.cells|, NULL, x);
    NobodyPinsUnmade(s);
  }

  lemma MakeCellKeeps(s: State, t: nat, p: Addr)
    requires Inv(s) && Enabled(s, t, MakeCell(p))
    ensures Inv(Next(s, t, MakeCell(p)))
  {
    var s' := Next(s, t, MakeCell(p));
    forall b | b != NULL
      ensures Refs(s', b) + Is(p, b) == Refs(s, b) && Deletes(s', b) == Deletes(s, b)
      ensures Holding(s', b) == Holding(s, b) + Is(p, b)
    {
      MakeCellTotals(s, t, p, b);
    }
    forall x: nat
      ensures Pins(s', x) == Pins(s, x)
      ensures x == |s.cells| ==> Pins(s, x) == 0
    {
      MakeCellPins(s, t, p, x);
    }
    forall u | 0 <= u < |s'.threads|
      ensures LocalOk(s'.cells, s'.threads[u])
    {
      LocalStable(s.cells, s'.cells, s.threads[u]);
    }
  }

  lemma NobodyPinsUnmade(s: State)
    requires LocalsOk(s)
    ensures Pins(s, |s.cells|) == 0
  {
    forall u | 0 <= u < |s.threads|
      ensures PinsOf(s.threads[u], |s.cells|) == 0
    {
      assert LocalOk(s.cells, s.threads[u]);
    }
    SumIsZero(s.threads, PinsFn(|s.cells|));
  }

  // ---- All steps, all runs ----

  lemma StepKeepsInv(s: State, t: nat, act: Action)
    requires Inv(s) && Enabled(s, t, act)
    ensures Inv(Next(s, t, act))
  {
    match act
    case Allocate(a) => AllocateKeeps(s, t, a);
    case Copy(a) => CopyKeeps(s, t, a);
    case Move(to, a) => MoveKeeps(s, t, to, a);
    case MakeCell(p) => MakeCellKeeps(s, t, p);
    case Advance(spurious) => AtomicKeepsInv(s, t, spurious);
    case BeginCompare(c, e, d) => BeginCompareKeeps(s, t, c, e, d);
    case Drop(a) => DropKeeps(s, t, a);
    case _ => BeginLoadKeeps(s, t, act);
  }

  lemma AtomicKeepsInv(s: State, t: nat, spurious: bool)
    requires Inv(s) && Enabled(s, t, Advance(spurious))
    ensures Inv(NextAtomic(s, t, spurious))
  {
    match s.threads[t].pc
    case LoadPin(_, _, _) => LoadPinKeeps(s, t, spurious);
    case LoadUnpin(_, _, _) => LoadUnpinKeeps(s, t, spurious);
    case Exchange(_, _, _) => ExchangeKeeps(s, t, spurious);
    case Compare(c, e, _, cur, des) =>
      if !CasWeak(s.cells[c], cur, des, spurious).ok {
        CompareRetryKeeps(s, t, spurious);
      } else if cur == Word(e, 0) {
        CompareSwapKeeps(s, t, spurious);
      } else {
        ComparePinKeeps(s, t, spurious);
      }
    case CompareUnpin(_, _, _, _, _) => CompareUnpinKeeps(s, t, spurious);
    case Release(_, _, _, _) => ReleaseKeeps(s, t, spurious);
    case Delete(_, _) => DeleteKeeps(s, t, spurious);
    case _ => CountKeeps(s, t, spurious);
  }

  lemma InitEstablishesInv(s: State)
    requires Init(s)
    ensures Inv(s)
  {
    forall a
      ensures Refs(s, a) == 0 && Holding(s, a) == 0 && Deletes(s, a) == 0
    {
      SumIsZero(s.threads, RefsFn(a));
      SumIsZero(s.threads, DeletesFn(a));
    }
  }

  lemma StepKeepsThreads(s: State, t: nat, act: Action)
    requires Enabled(s, t, act)
    ensures |Next(s, t, act).threads| == |s.threads|
  {
  }

  /** The invariant holds in every state of every run, and the threads stay the same ones. */
  lemma {:induction false} RunKeepsInv(run: seq<State>, i: nat)
    requires IsRun(run) && i < |run|
    ensures Inv(run[i]) && |run[i].threads| == |run[0].threads|
  {
    if i == 0 {
      InitEstablishesInv(run[0]);
    } else {
      RunKeepsInv(run, i - 1);
      assert StepAt(run, i - 1);
      var t: nat, act: Action :| Enabled(run[i - 1], t, act) && run[i] == Next(run[i - 1], t, act);
      StepKeepsInv(run[i - 1], t, act);
      StepKeepsThreads(run[i - 1], t, act);
    }
  }
}
