/** The machine of SharedPtrMachine on 64-bit words, as the program computes it: every pin,
    comparison and hand-over goes through `from_pair`, `raw_ptr` and `tag`
    (src/lockfree/shared_ptr.cc:172-295). */
module SharedPtrRawMachine {
  import opened TaggedPtr
  import opened SharedPtrMachine

  type RawState = StateOf<nat>

  function RawNext(s: RawState, t: nat, act: Action): RawState
    requires Enabled(s, t, act)
  {
    var own := s.threads[t].own;
    match act
    case Allocate(a) => NextAllocate(s, t, a)
    case Copy(a) => SetThread(AddOne(s, a), t, Thread(Give(own, a), Idle))
    case Move(to, a) => NextMove(s, t, to, a)
    case Drop(a) => SetThread(s, t, StartRelease(Take(own, a), a, Finish))
    case MakeCell(p) =>
      SetThread(s, t, Thread(Take(own, p), Idle)).(cells := s.cells + [FromPair(p, 0)])
    case BeginLoad(c) => Go(s, t, LoadPin(c, 0, FromPair(NULL, 1)))
    case BeginExchange(c, p) =>
      SetThread(s, t, Thread(Take(own, p), Exchange(c, 0, FromPair(p, 0))))
    case BeginCompare(c, e, d) =>
      SetThread(s, t, Thread(Take(Take(own, e), d), Compare(c, e, d, FromPair(e, 0), FromPair(d, 0))))
    case Advance(spurious) => RawAtomic(s, t, spurious)
  }

  function RawAtomic(s: RawState, t: nat, spurious: bool): RawState
    requires Enabled(s, t, Advance(spurious))
  {
    match s.threads[t].pc
    case LoadPin(c, cur, des) => RawLoadPin(s, t, c, cur, des, spurious)
    case LoadCount(c, cur, des) => Go(AddOne(s, RawPtr(cur)), t, LoadUnpin(c, cur, des))
    case LoadUnpin(c, cur, des) => RawLoadUnpin(s, t, c, cur, des, spurious)
    case Exchange(c, cur, des) => RawExchange(s, t, c, cur, des, spurious)
    case Compare(c, e, d, cur, des) => RawCompare(s, t, c, e, d, cur, des, spurious)
    case CompareCount(c, d, cur, des) =>
      Go(AddOne(s, RawPtr(cur)), t, CompareUnpin(c, RawPtr(cur), d, cur, des))
    case CompareUnpin(c, e, d, cur, des) => RawCompareUnpin(s, t, c, e, d, cur, des, spurious)
    case Release(a, seen, want, next) => NextRelease(s, t, a, seen, want, next, spurious)
    case Delete(a, next) => NextDelete(s, t, a, next)
  }

  /** Lines 191-205. */
  function RawLoadPin(s: RawState, t: nat, c: nat, cur: nat, des: nat, spurious: bool): RawState
    requires t < |s.threads| && c < |s.cells|
  {
    var r := CasWeak(s.cells[c], cur, des, spurious);
    if r.ok then Go(SetCell(s, c, r.cell), t, LoadCount(c, des, RawUnpinned(des)))
    else Go(s, t, LoadPin(c, r.seen, RawPinned(r.seen)))
  }

  /** Lines 207-211. */
  function RawLoadUnpin(s: RawState, t: nat, c: nat, cur: nat, des: nat, spurious: bool): RawState
    requires t < |s.threads| && c < |s.cells|
  {
    var r := CasWeak(s.cells[c], cur, des, spurious);
    if r.ok then
      SetThread(SetCell(s, c, r.cell), t, Thread(Give(s.threads[t].own, RawPtr(des)), Idle))
    else Go(s, t, LoadUnpin(c, r.seen, RawUnpinned(r.seen)))
  }

  /** Lines 222-228. */
  function RawExchange(s: RawState, t: nat, c: nat, cur: nat, des: nat, spurious: bool): RawState
    requires t < |s.threads| && c < |s.cells|
  {
    var r := CasWeak(s.cells[c], cur, des, spurious);
    if r.ok then
      SetThread(SetCell(s, c, r.cell), t, Thread(Give(s.threads[t].own, RawPtr(cur)), Idle))
    else Go(s, t, Exchange(c, RawCleared(r.seen), des))
  }

  /** Lines 241-268. */
  function RawCompare(s: RawState, t: nat, c: nat, e: Addr, d: Addr, cur: nat, des: nat, spurious: bool): RawState
    requires t < |s.threads| && c < |s.cells|
  {
    var r := CasWeak(s.cells[c], cur, des, spurious);
    if !r.ok then
      if RawPtr(r.seen) != e then Go(s, t, Compare(c, e, d, r.seen, RawPinned(r.seen)))
      else Go(s, t, Compare(c, e, d, FromPair(e, 0), FromPair(d, 0)))
    else
      var own := s.threads[t].own;
      var swapped := SetCell(s, c, r.cell);
      if RawTag(des) == 0 then SetThread(swapped, t, StartRelease(own, RawPtr(cur), Won(e, d)))
      else SetThread(swapped, t, StartRelease(own, e, Bump(c, d, des, RawUnpinned(des))))
  }

  /** Lines 270-274. */
  function RawCompareUnpin(s: RawState, t: nat, c: nat, e: Addr, d: Addr, cur: nat, des: nat, spurious: bool): RawState
    requires t < |s.threads| && c < |s.cells|
  {
    var r := CasWeak(s.cells[c], cur, des, spurious);
    if r.ok then
      SetThread(SetCell(s, c, r.cell), t, StartRelease(Give(s.threads[t].own, e), d, Finish))
    else Go(s, t, CompareUnpin(c, e, d, r.seen, RawUnpinned(r.seen)))
  }

  ghost predicate RawStep(s: RawState, s': RawState) {
    exists t: nat, act: Action :: Enabled(s, t, act) && s' == RawNext(s, t, act)
  }

  ghost predicate RawStepAt(run: seq<RawState>, i: nat) {
    i + 1 < |run| && RawStep(run[i], run[i + 1])
  }

  ghost predicate IsRawRun(run: seq<RawState>) {
    |run| > 0 && Init(run[0]) && forall i: nat :: i + 1 < |run| ==> RawStepAt(run, i)
  }
}
