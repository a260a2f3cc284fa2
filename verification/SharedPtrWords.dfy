/** The machine computes on pairs; the program computes on 64-bit words. In every run all
    pointers fit 48 bits and all tags 16. */
module SharedPtrWords {
  import opened TaggedPtr
  import opened SharedPtrMachine
  import opened SharedPtrSafety

  predicate ThenFits(next: Then) {
    match next
    case Finish => true
    case Won(e, d) => e < ADDRESSES && d < ADDRESSES
    case Bump(_, d, cur, des) => d < ADDRESSES && Fits(cur) && Fits(des)
  }

  predicate PcFits(pc: PC) {
    match pc
    case Idle => true
    case LoadPin(_, cur, des) => Fits(cur) && Fits(des)
    case LoadCount(_, cur, des) => Fits(cur) && Fits(des)
    case LoadUnpin(_, cur, des) => Fits(cur) && Fits(des)
    case Exchange(_, cur, des) => Fits(cur) && Fits(des)
    case Compare(_, e, d, cur, des) => e < ADDRESSES && d < ADDRESSES && Fits(cur) && Fits(des)
    case CompareCount(_, d, cur, des) => d < ADDRESSES && Fits(cur) && Fits(des)
    case CompareUnpin(_, e, d, cur, des) => e < ADDRESSES && d < ADDRESSES && Fits(cur) && Fits(des)
    case Release(a, _, _, next) => a < ADDRESSES && ThenFits(next)
    case Delete(a, next) => a < ADDRESSES && ThenFits(next)
  }

  predicate ThreadFits(th: Thread) {
    PcFits(th.pc) && forall a :: a in th.own ==> a < ADDRESSES
  }

  ghost predicate AllFit(s: State) {
    && (forall c :: 0 <= c < |s.cells| ==> Fits(s.cells[c]))
    && (forall t :: 0 <= t < |s.threads| ==> ThreadFits(s.threads[t]))
  }

  /** One thread and perhaps one cell change. */
  lemma StepFits(s: State, s': State, t: nat, c: nat)
    requires AllFit(s) && OneThread(s, s', t, c)
    requires ThreadFits(s'.threads[t]) && (c < |s.cells| ==> Fits(s'.cells[c]))
    ensures AllFit(s')
  {
  }

  lemma LoadKeepsFit(s: State, t: nat, spurious: bool)
    requires AllFit(s) && Enabled(s, t, Advance(spurious))
    requires s.threads[t].pc.LoadPin? || s.threads[t].pc.LoadUnpin? || s.threads[t].pc.Exchange?
    ensures AllFit(NextAtomic(s, t, spurious))
  {
    assert ThreadFits(s.threads[t]);
    StepFits(s, NextAtomic(s, t, spurious), t, s.threads[t].pc.c);
  }

  lemma CompareDoneFits(own: multiset<Addr>, pc: PC)
    requires ThreadFits(Thread(own, pc)) && pc.Compare?
    ensures ThreadFits(StartRelease(own, pc.cur.ptr, Won(pc.e, pc.d)))
    ensures ThreadFits(StartRelease(own, pc.e, Bump(pc.c, pc.d, pc.des, Unpinned(pc.des))))
  {
  }

  lemma CompareKeepsFit(s: State, t: nat, spurious: bool)
    requires AllFit(s) && Enabled(s, t, Advance(spurious)) && s.threads[t].pc.Compare?
    ensures AllFit(NextAtomic(s, t, spurious))
  {
    var pc := s.threads[t].pc;
    var s' := NextAtomic(s, t, spurious);
    assert ThreadFits(s.threads[t]) && Fits(s.cells[pc.c]);
    if CasWeak(s.cells[pc.c], pc.cur, pc.des, spurious).ok {
      CompareDoneFits(s.threads[t].own, pc);
      assert ThreadFits(s'.threads[t]);
    } else {
      assert ThreadFits(s'.threads[t]);
    }
    StepFits(s, s', t, pc.c);
  }

  lemma CompareUnpinKeepsFit(s: State, t: nat, spurious: bool)
    requires AllFit(s) && Enabled(s, t, Advance(spurious)) && s.threads[t].pc.CompareUnpin?
    ensures AllFit(NextAtomic(s, t, spurious))
  {
    assert ThreadFits(s.threads[t]);
    StepFits(s, NextAtomic(s, t, spurious), t, s.threads[t].pc.c);
  }

  lemma CountKeepsFit(s: State, t: nat, spurious: bool)
    requires AllFit(s) && Enabled(s, t, Advance(spurious))
    requires s.threads[t].pc.LoadCount? || s.threads[t].pc.CompareCount?
    ensures AllFit(NextAtomic(s, t, spurious))
  {
  }

  lemma ReleaseKeepsFit(s: State, t: nat, spurious: bool)
    requires AllFit(s) && Enabled(s, t, Advance(spurious))
    requires s.threads[t].pc.Release? || s.threads[t].pc.Delete?
    ensures AllFit(NextAtomic(s, t, spurious))
  {
    var own, pc, s' := s.threads[t].own, s.threads[t].pc, NextAtomic(s, t, spurious);
    assert ThreadFits(s.threads[t]);
    assert ThreadFits(Resume(own, pc.next));
    assert s.threads[t := s.threads[t]] == s.threads;
    StepFits(s, s', t, |s.cells|);
  }

  lemma OwnKeepsFit(s: State, t: nat, act: Action)
    requires AllFit(s) && Enabled(s, t, act) && (act.Allocate? || act.Copy?)
    ensures AllFit(Next(s, t, act))
  {
  }

  lemma DropKeepsFit(s: State, t: nat, a: Addr)
    requires AllFit(s) && Enabled(s, t, Drop(a))
    ensures AllFit(Next(s, t, Drop(a)))
  {
  }

  lemma BeginKeepsFit(s: State, t: nat, act: Action)
    requires AllFit(s) && Enabled(s, t, act)
    requires act.BeginLoad? || act.BeginExchange? || act.BeginCompare?
    ensures AllFit(Next(s, t, act))
  {
    assert ThreadFits(s.threads[t]);
    StepFits(s, Next(s, t, act), t, |s.cells|);
  }

  lemma MoveKeepsFit(s: State, t: nat, to: nat, a: Addr)
    requires AllFit(s) && Enabled(s, t, Move(to, a))
    ensures AllFit(Next(s, t, Move(to, a)))
  {
    var out := SetThread(s, t, Thread(Take(s.threads[t].own, a), Idle));
    assert ThreadFits(s.threads[t]);
    StepFits(s, out, t, |s.cells|);
    assert ThreadFits(out.threads[to]);
    StepFits(out, Next(s, t, Move(to, a)), to, |s.cells|);
  }

  lemma MakeCellKeepsFit(s: State, t: nat, p: Addr)
    requires AllFit(s) && Enabled(s, t, MakeCell(p))
    ensures AllFit(Next(s, t, MakeCell(p)))
  {
    assert ThreadFits(s.threads[t]);
    StepFits(s, SetThread(s, t, Thread(Take(s.threads[t].own, p), Idle)), t, |s.cells|);
  }

  lemma AtomicKeepsFit(s: State, t: nat, spurious: bool)
    requires AllFit(s) && Enabled(s, t, Advance(spurious))
    ensures AllFit(NextAtomic(s, t, spurious))
  {
    var pc := s.threads[t].pc;
    if pc.LoadPin? || pc.LoadUnpin? || pc.Exchange? {
      LoadKeepsFit(s, t, spurious);
    } else if pc.Compare? {
      CompareKeepsFit(s, t, spurious);
    } else if pc.CompareUnpin? {
      CompareUnpinKeepsFit(s, t, spurious);
    } else if pc.LoadCount? || pc.CompareCount? {
      CountKeepsFit(s, t, spurious);
    } else {
      ReleaseKeepsFit(s, t, spurious);
    }
  }

  lemma StepKeepsFit(s: State, t: nat, act: Action)
    requires AllFit(s) && Enabled(s, t, act)
    ensures AllFit(Next(s, t, act))
  {
    match act
    case Advance(spurious) => AtomicKeepsFit(s, t, spurious);
    case Move(to, a) => MoveKeepsFit(s, t, to, a);
    case MakeCell(p) => MakeCellKeepsFit(s, t, p);
    case Allocate(_) => OwnKeepsFit(s, t, act);
    case Copy(_) => OwnKeepsFit(s, t, act);
    case Drop(a) => DropKeepsFit(s, t, a);
    case _ => BeginKeepsFit(s, t, act);
  }

  lemma {:induction false} RunKeepsFit(run: seq<State>, i: nat)
    requires IsRun(run) && i < |run|
    ensures AllFit(run[i])
  {
    if i > 0 {
      RunKeepsFit(run, i - 1);
      assert StepAt(run, i - 1);
      var t: nat, act: Action :| Enabled(run[i - 1], t, act) && run[i] == Next(run[i - 1], t, act);
      StepKeepsFit(run[i - 1], t, act);
    }
  }
}
