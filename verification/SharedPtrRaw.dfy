/** The machine on 64-bit words and the machine on pairs are one: packing turns every step of
    the second into a step of the first, and every run of the first arises so. */
module SharedPtrRaw {
  import opened TaggedPtr
  import opened SharedPtrMachine
  import opened SharedPtrRawMachine
  import opened SharedPtrLedger
  import opened SharedPtrSafety
  import opened SharedPtrTheorems
  import opened SharedPtrWords

  // ---- Packing a state ----

  function PackThen(next: Then): ThenOf<nat> {
    match next
    case Finish => Finish
    case Won(e, d) => Won(e, d)
    case Bump(c, d, cur, des) => Bump(c, d, Pack(cur), Pack(des))
  }

  function PackPC(pc: PC): PCOf<nat> {
    match pc
    case Idle => Idle
    case LoadPin(c, cur, des) => LoadPin(c, Pack(cur), Pack(des))
    case LoadCount(c, cur, des) => LoadCount(c, Pack(cur), Pack(des))
    case LoadUnpin(c, cur, des) => LoadUnpin(c, Pack(cur), Pack(des))
    case Exchange(c, cur, des) => Exchange(c, Pack(cur), Pack(des))
    case Compare(c, e, d, cur, des) => Compare(c, e, d, Pack(cur), Pack(des))
    case CompareCount(c, d, cur, des) => CompareCount(c, d, Pack(cur), Pack(des))
    case CompareUnpin(c, e, d, cur, des) => CompareUnpin(c, e, d, Pack(cur), Pack(des))
    case Release(a, seen, want, next) => Release(a, seen, want, PackThen(next))
    case Delete(a, next) => Delete(a, PackThen(next))
  }

  function PackThread(th: Thread): ThreadOf<nat> {
    Thread(th.own, PackPC(th.pc))
  }

  function PackCells(cells: seq<Word>): seq<nat> {
    seq(|cells|, c requires 0 <= c < |cells| => Pack(cells[c]))
  }

  function PackThreads(threads: seq<Thread>): seq<ThreadOf<nat>> {
    seq(|threads|, t requires 0 <= t < |threads| => PackThread(threads[t]))
  }

  function PackState(s: State): RawState {
    State(PackCells(s.cells), s.heap, PackThreads(s.threads), s.births, s.deleted, s.fault)
  }

  lemma PackSetThread(s: State, t: nat, th: Thread)
    requires t < |s.threads|
    ensures PackState(SetThread(s, t, th)) == SetThread(PackState(s), t, PackThread(th))
  {
    assert PackThreads(s.threads[t := th]) == PackThreads(s.threads)[t := PackThread(th)];
  }

  lemma PackSetCell(s: State, c: nat, w: Word)
    requires c < |s.cells|
    ensures PackState(SetCell(s, c, w)) == SetCell(PackState(s), c, Pack(w))
  {
    assert PackCells(s.cells[c := w]) == PackCells(s.cells)[c := Pack(w)];
  }

  lemma PackRelease(own: multiset<Addr>, a: Addr, next: Then)
    ensures PackThread(StartRelease(own, a, next)) == StartRelease(own, a, PackThen(next))
    ensures PackThread(Resume(own, next)) == Resume(own, PackThen(next))
  {
  }

  lemma PackAddOne(s: State, a: Addr)
    ensures PackState(AddOne(s, a)) == AddOne(PackState(s), a)
  {
  }

  lemma EnabledPacked(s: State, t: nat, act: Action)
    ensures Enabled(s, t, act) <==> Enabled(PackState(s), t, act)
  {
  }

  // ---- Every step commutes with packing ----

  /** What a compare-and-swap loop reads off the words it holds. */
  lemma WordsRead(cell: Word, cur: Word, des: Word, spurious: bool)
    requires Fits(cell) && Fits(cur) && Fits(des)
    ensures var pair := CasWeak(cell, cur, des, spurious);
            && Fits(pair.seen)
            && CasWeak(Pack(cell), Pack(cur), Pack(des), spurious)
               == Swap(Pack(pair.cell), Pack(pair.seen), pair.ok)
            && RawPtr(Pack(pair.seen)) == pair.seen.ptr
            && RawPinned(Pack(pair.seen)) == Pack(Pinned(pair.seen))
            && RawUnpinned(Pack(pair.seen)) == Pack(Unpinned(pair.seen))
            && RawCleared(Pack(pair.seen)) == Pack(Cleared(pair.seen))
    ensures RawPtr(Pack(cur)) == cur.ptr && RawPtr(Pack(des)) == des.ptr
    ensures RawTag(Pack(des)) == des.tag && RawUnpinned(Pack(des)) == Pack(Unpinned(des))
  {
    var seen := CasWeak(cell, cur, des, spurious).seen;
    CasOnRawWords(cell, cur, des, spurious);
    RetriesOnRawWords(seen, seen);
    RetriesOnRawWords(des, des);
    PackUnpack(seen.ptr, seen.tag);
    PackUnpack(cur.ptr, cur.tag);
    PackUnpack(des.ptr, des.tag);
  }

  lemma LoopPacks(s: State, t: nat, spurious: bool)
    requires AllFit(s) && Enabled(s, t, Advance(spurious))
    requires s.threads[t].pc.LoadPin? || s.threads[t].pc.LoadUnpin? || s.threads[t].pc.Exchange?
    ensures PackState(NextAtomic(s, t, spurious)) == RawAtomic(PackState(s), t, spurious)
  {
    var pc, s' := s.threads[t].pc, NextAtomic(s, t, spurious);
    assert ThreadFits(s.threads[t]) && Fits(s.cells[pc.c]);
    WordsRead(s.cells[pc.c], pc.cur, pc.des, spurious);
    if CasWeak(s.cells[pc.c], pc.cur, pc.des, spurious).ok {
      PackSetCell(s, pc.c, pc.des);
      PackSetThread(SetCell(s, pc.c, pc.des), t, s'.threads[t]);
    } else {
      PackSetThread(s, t, s'.threads[t]);
    }
  }

  lemma CompareDonePacks(s: State, t: nat, spurious: bool)
    requires AllFit(s) && Enabled(s, t, Advance(spurious)) && s.threads[t].pc.Compare?
    requires var pc := s.threads[t].pc; CasWeak(s.cells[pc.c], pc.cur, pc.des, spurious).ok
    ensures PackState(NextAtomic(s, t, spurious)) == RawAtomic(PackState(s), t, spurious)
  {
    var own, pc, s' := s.threads[t].own, s.threads[t].pc, NextAtomic(s, t, spurious);
    assert ThreadFits(s.threads[t]) && Fits(s.cells[pc.c]);
    WordsRead(s.cells[pc.c], pc.cur, pc.des, spurious);
    PackSetCell(s, pc.c, pc.des);
    PackSetThread(SetCell(s, pc.c, pc.des), t, s'.threads[t]);
    PackRelease(own, pc.cur.ptr, Won(pc.e, pc.d));
    PackRelease(own, pc.e, Bump(pc.c, pc.d, pc.des, Unpinned(pc.des)));
  }

  lemma ComparePacks(s: State, t: nat, spurious: bool)
    requires AllFit(s) && Enabled(s, t, Advance(spurious)) && s.threads[t].pc.Compare?
    ensures PackState(NextAtomic(s, t, spurious)) == RawAtomic(PackState(s), t, spurious)
  {
    var pc, s' := s.threads[t].pc, NextAtomic(s, t, spurious);
    if CasWeak(s.cells[pc.c], pc.cur, pc.des, spurious).ok {
      CompareDonePacks(s, t, spurious);
    } else {
      assert ThreadFits(s.threads[t]) && Fits(s.cells[pc.c]);
      WordsRead(s.cells[pc.c], pc.cur, pc.des, spurious);
      PackSetThread(s, t, s'.threads[t]);
    }
  }

  lemma CompareUnpinPacks(s: State, t: nat, spurious: bool)
    requires AllFit(s) && Enabled(s, t, Advance(spurious)) && s.threads[t].pc.CompareUnpin?
    ensures PackState(NextAtomic(s, t, spurious)) == RawAtomic(PackState(s), t, spurious)
  {
    var own, pc, s' := s.threads[t].own, s.threads[t].pc, NextAtomic(s, t, spurious);
    assert ThreadFits(s.threads[t]) && Fits(s.cells[pc.c]);
    WordsRead(s.cells[pc.c], pc.cur, pc.des, spurious);
    if CasWeak(s.cells[pc.c], pc.cur, pc.des, spurious).ok {
      PackSetCell(s, pc.c, pc.des);
      PackSetThread(SetCell(s, pc.c, pc.des), t, s'.threads[t]);
      PackRelease(Give(own, pc.e), pc.d, Finish);
    } else {
      PackSetThread(s, t, s'.threads[t]);
    }
  }

  lemma CountPacks(s: State, t: nat, spurious: bool)
    requires AllFit(s) && Enabled(s, t, Advance(spurious))
    requires s.threads[t].pc.LoadCount? || s.threads[t].pc.CompareCount?
    ensures PackState(NextAtomic(s, t, spurious)) == RawAtomic(PackState(s), t, spurious)
  {
    var pc, s' := s.threads[t].pc, NextAtomic(s, t, spurious);
    assert ThreadFits(s.threads[t]);
    PackUnpack(pc.cur.ptr, pc.cur.tag);
    PackAddOne(s, pc.cur.ptr);
    PackSetThread(AddOne(s, pc.cur.ptr), t, s'.threads[t]);
  }

  lemma ReleasedPacks(s: State, t: nat, a: Addr, want: nat, next: Then)
    requires t < |s.threads| && a in s.heap
    ensures var own := s.threads[t].own;
            var heap := s.heap[a := s.heap[a].(count := want)];
            && PackState(Go(s.(heap := heap), t, Delete(a, next)))
               == Go(PackState(s).(heap := heap), t, Delete(a, PackThen(next)))
            && PackState(SetThread(s.(heap := heap), t, Resume(own, next)))
               == SetThread(PackState(s).(heap := heap), t, Resume(own, PackThen(next)))
  {
    var own := s.threads[t].own;
    var released := s.(heap := s.heap[a := s.heap[a].(count := want)]);
    PackRelease(own, a, next);
    PackSetThread(released, t, Thread(own, Delete(a, next)));
    PackSetThread(released, t, Resume(own, next));
  }

  lemma NextReleasePacks(s: State, t: nat, a: Addr, seen: nat, want: int, next: Then, spurious: bool)
    requires t < |s.threads|
    ensures PackState(NextRelease(s, t, a, seen, want, next, spurious))
            == NextRelease(PackState(s), t, a, seen, want, PackThen(next), spurious)
  {
    if a in s.heap {
      var r := CasWeak(s.heap[a].count as int, seen as int, want, spurious);
      if r.ok && want >= 0 {
        ReleasedPacks(s, t, a, want, next);
      } else if !r.ok {
        PackSetThread(s, t, Thread(s.threads[t].own, Release(a, r.seen as nat, r.seen - 1, next)));
      }
    }
  }

  lemma ReleasePacks(s: State, t: nat, spurious: bool)
    requires Enabled(s, t, Advance(spurious)) && s.threads[t].pc.Release?
    ensures PackState(NextAtomic(s, t, spurious)) == RawAtomic(PackState(s), t, spurious)
  {
    var pc := s.threads[t].pc;
    NextReleasePacks(s, t, pc.a, pc.seen, pc.want, pc.next, spurious);
  }

  lemma DeletePacks(s: State, t: nat, spurious: bool)
    requires Enabled(s, t, Advance(spurious)) && s.threads[t].pc.Delete?
    ensures PackState(NextAtomic(s, t, spurious)) == RawAtomic(PackState(s), t, spurious)
  {
    var own, pc := s.threads[t].own, s.threads[t].pc;
    PackRelease(own, pc.a, pc.next);
    PackSetThread(s, t, Resume(own, pc.next));
  }

  lemma AtomicPacks(s: State, t: nat, spurious: bool)
    requires AllFit(s) && Enabled(s, t, Advance(spurious))
    ensures Enabled(PackState(s), t, Advance(spurious))
    ensures PackState(NextAtomic(s, t, spurious)) == RawAtomic(PackState(s), t, spurious)
  {
    EnabledPacked(s, t, Advance(spurious));
    var pc := s.threads[t].pc;
    if pc.LoadPin? || pc.LoadUnpin? || pc.Exchange? {
      LoopPacks(s, t, spurious);
    } else if pc.Compare? {
      ComparePacks(s, t, spurious);
    } else if pc.CompareUnpin? {
      CompareUnpinPacks(s, t, spurious);
    } else if pc.LoadCount? || pc.CompareCount? {
      CountPacks(s, t, spurious);
    } else if pc.Release? {
      ReleasePacks(s, t, spurious);
    } else {
      DeletePacks(s, t, spurious);
    }
  }

  lemma MovePacks(s: State, t: nat, to: nat, a: Addr)
    requires t < |s.threads| && to < |s.threads|
    ensures PackState(NextMove(s, t, to, a)) == NextMove(PackState(s), t, to, a)
  {
    var taken := Thread(Take(s.threads[t].own, a), Idle);
    var out := SetThread(s, t, taken);
    PackSetThread(s, t, taken);
    PackSetThread(out, to, Thread(Give(out.threads[to].own, a), out.threads[to].pc));
  }

  lemma OwnerPacks(s: State, t: nat, act: Action)
    requires Enabled(s, t, act) && (act.Allocate? || act.Copy? || act.Move? || act.Drop?)
    ensures Enabled(PackState(s), t, act)
    ensures PackState(Next(s, t, act)) == RawNext(PackState(s), t, act)
  {
    var own := s.threads[t].own;
    EnabledPacked(s, t, act);
    match act
    case Allocate(a) => PackSetThread(s, t, Thread(Give(own, a), Idle));
    case Copy(a) =>
      PackAddOne(s, a);
      PackSetThread(AddOne(s, a), t, Thread(Give(own, a), Idle));
    case Move(to, a) => MovePacks(s, t, to, a);
    case Drop(a) =>
      PackRelease(Take(own, a), a, Finish);
      PackSetThread(s, t, StartRelease(Take(own, a), a, Finish));
  }

  lemma MakeCellPacks(s: State, t: nat, p: Addr)
    requires Enabled(s, t, MakeCell(p))
    ensures PackState(Next(s, t, MakeCell(p))) == RawNext(PackState(s), t, MakeCell(p))
  {
    PackSetThread(s, t, Thread(Take(s.threads[t].own, p), Idle));
    assert PackCells(s.cells + [Word(p, 0)]) == PackCells(s.cells) + [Pack(Word(p, 0))];
  }

  lemma BeginLoadPacks(s: State, t: nat, c: nat)
    requires Enabled(s, t, BeginLoad(c))
    ensures PackState(Next(s, t, BeginLoad(c))) == RawNext(PackState(s), t, BeginLoad(c))
  {
    var none, pinned := Word(NULL, 0), Word(NULL, 1);
    OnlyNullPacksToZero(none);
    PackSetThread(s, t, Thread(s.threads[t].own, LoadPin(c, none, pinned)));
  }

  lemma BeginExchangePacks(s: State, t: nat, c: nat, p: Addr)
    requires Enabled(s, t, BeginExchange(c, p))
    ensures PackState(Next(s, t, BeginExchange(c, p))) == RawNext(PackState(s), t, BeginExchange(c, p))
  {
    var none := Word(NULL, 0);
    OnlyNullPacksToZero(none);
    PackSetThread(s, t, Thread(Take(s.threads[t].own, p), Exchange(c, none, Word(p, 0))));
  }

  lemma BeginComparePacks(s: State, t: nat, c: nat, e: Addr, d: Addr)
    requires Enabled(s, t, BeginCompare(c, e, d))
    ensures PackState(Next(s, t, BeginCompare(c, e, d))) == RawNext(PackState(s), t, BeginCompare(c, e, d))
  {
    var own := Take(Take(s.threads[t].own, e), d);
    PackSetThread(s, t, Thread(own, Compare(c, e, d, Word(e, 0), Word(d, 0))));
  }

  /** Packing turns every step of the machine into the same step on words. */
  lemma StepPacks(s: State, t: nat, act: Action)
    requires AllFit(s) && Enabled(s, t, act)
    ensures Enabled(PackState(s), t, act)
    ensures PackState(Next(s, t, act)) == RawNext(PackState(s), t, act)
  {
    if act.Advance? {
      AtomicPacks(s, t, act.spurious);
    } else if act.Allocate? || act.Copy? || act.Move? || act.Drop? {
      OwnerPacks(s, t, act);
    } else {
      EnabledPacked(s, t, act);
      match act
      case MakeCell(p) => MakeCellPacks(s, t, p);
      case BeginLoad(c) => BeginLoadPacks(s, t, c);
      case BeginExchange(c, p) => BeginExchangePacks(s, t, c, p);
      case BeginCompare(c, e, d) => BeginComparePacks(s, t, c, e, d);
    }
  }

  // ---- Runs ----

  ghost predicate Packs(run: seq<State>, raw: seq<RawState>) {
    |run| == |raw| && forall i :: 0 <= i < |run| ==> raw[i] == PackState(run[i])
  }

  lemma ExtendRun(run: seq<State>, t: nat, act: Action)
    requires IsRun(run) && Enabled(run[|run| - 1], t, act)
    ensures IsRun(run + [Next(run[|run| - 1], t, act)])
  {
    var longer := run + [Next(run[|run| - 1], t, act)];
    assert Step(run[|run| - 1], longer[|run|]);
    forall i: nat | i + 1 < |longer|
      ensures StepAt(longer, i)
    {
      assert i + 1 < |run| ==> StepAt(run, i);
    }
  }

  lemma FirstPacked(first: RawState) returns (s: State)
    requires Init(first)
    ensures Init(s) && PackState(s) == first
  {
    s := State([], map[], seq(|first.threads|, _ => Thread(multiset{}, Idle)), 0, multiset{}, false);
    assert PackThreads(s.threads) == first.threads;
    assert PackCells(s.cells) == first.cells;
  }

  lemma ExtendPacked(run: seq<State>, last: RawState) returns (next: State)
    requires IsRun(run) && RawStep(PackState(run[|run| - 1]), last)
    ensures IsRun(run + [next]) && PackState(next) == last
  {
    var s := run[|run| - 1];
    var t: nat, act: Action :| Enabled(PackState(s), t, act) && last == RawNext(PackState(s), t, act);
    EnabledPacked(s, t, act);
    RunKeepsFit(run, |run| - 1);
    StepPacks(s, t, act);
    ExtendRun(run, t, act);
    next := Next(s, t, act);
  }

  lemma RawFront(raw: seq<RawState>)
    requires IsRawRun(raw) && |raw| > 1
    ensures IsRawRun(raw[..|raw| - 1]) && RawStep(raw[|raw| - 2], raw[|raw| - 1])
  {
    var front := raw[..|raw| - 1];
    assert RawStepAt(raw, |raw| - 2);
    forall i: nat | i + 1 < |front|
      ensures RawStepAt(front, i)
    {
      assert RawStepAt(raw, i);
    }
  }

  /** Every run of the words is a run of the pairs, packed: so everything proved of the runs of
      the pairs holds of what the program computes. */
  lemma {:induction false} RawRunIsPacked(raw: seq<RawState>) returns (run: seq<State>)
    requires IsRawRun(raw)
    ensures IsRun(run) && Packs(run, raw)
    decreases |raw|
  {
    if |raw| == 1 {
      var s := FirstPacked(raw[0]);
      run := [s];
    } else {
      RawFront(raw);
      var front := RawRunIsPacked(raw[..|raw| - 1]);
      assert raw[|raw| - 2] == raw[..|raw| - 1][|raw| - 2] == PackState(front[|front| - 1]);
      var last := ExtendPacked(front, raw[|raw| - 1]);
      run := front + [last];
    }
  }

  /** And every run of the pairs, packed, is a run of the words. */
  lemma PackedRunIsRaw(run: seq<State>, raw: seq<RawState>)
    requires IsRun(run) && Packs(run, raw)
    ensures IsRawRun(raw)
  {
    assert PackThreads(run[0].threads) == raw[0].threads;
    forall i: nat | i + 1 < |raw|
      ensures RawStepAt(raw, i)
    {
      assert StepAt(run, i);
      var t: nat, act: Action :| Enabled(run[i], t, act) && run[i + 1] == Next(run[i], t, act);
      RunKeepsFit(run, i);
      StepPacks(run[i], t, act);
      assert RawStep(raw[i], raw[i + 1]);
    }
  }

  /** What the words keep in every run: no freed block is touched, no deleter runs twice, and
      the pointer bits of a cell are null or a live block whose count is positive. */
  lemma RawRunIsSafe(raw: seq<RawState>, i: nat, n: nat, c: nat)
    requires IsRawRun(raw) && i < |raw|
    ensures !raw[i].fault && raw[i].deleted[n] <= 1
    ensures c < |raw[i].cells| && RawPtr(raw[i].cells[c]) != NULL ==>
              RawPtr(raw[i].cells[c]) in raw[i].heap && raw[i].heap[RawPtr(raw[i].cells[c])].count > 0
    ensures c < |raw[i].cells| ==> RawTag(raw[i].cells[c]) <= |raw[i].threads| < TAGS
  {
    var run := RawRunIsPacked(raw);
    var s := run[i];
    assert raw[i] == PackState(s);
    RunKeepsInv(run, i);
    DeletedExactlyOnce(run, i, n);
    if c < |s.cells| {
      RunKeepsFit(run, i);
      TagCountsReaders(run, i, c);
      PackUnpack(s.cells[c].ptr, s.cells[c].tag);
      if s.cells[c].ptr != NULL {
        HeldIsLive(s, c);
      }
    }
  }
}
