/** `AllocData`, `SharedPtr` and `std::atomic<SharedPtr>` as a machine of any number of
    threads (src/lockfree/shared_ptr.cc). One step is one atomic operation on a tagged
    word or on a reference count, together with the thread-local code up to the next one.
    A control block is named by its address, and an address may be reused as soon as its
    block has been freed. The words in cells and registers are pairs here; SharedPtrRawMachine
    has the 64-bit ones. */
module SharedPtrMachine {
  import opened TaggedPtr

  type Addr = nat

  /** A control block: its `__rcount`, and the allocation it stands for (each call of
      `AllocData::allocate` gets its own number). */
  datatype Block = Block(count: nat, birth: nat)

  /** What a thread goes on to do once a release loop has ended. */
  datatype ThenOf<W> =
    | Finish
    | Won(e: Addr, d: Addr)                      // leave compare_exchange with true
    | Bump(c: nat, d: Addr, cur: W, des: W)      // go on to count the pinned pointer

  datatype PCOf<W> =
    | Idle
    | LoadPin(c: nat, cur: W, des: W)
    | LoadCount(c: nat, cur: W, des: W)
    | LoadUnpin(c: nat, cur: W, des: W)
    | Exchange(c: nat, cur: W, des: W)
    | Compare(c: nat, e: Addr, d: Addr, cur: W, des: W)
    | CompareCount(c: nat, d: Addr, cur: W, des: W)
    | CompareUnpin(c: nat, e: Addr, d: Addr, cur: W, des: W)
    | Release(a: Addr, seen: nat, want: int, next: ThenOf<W>)
    | Delete(a: Addr, next: ThenOf<W>)

  /** `own` holds the non-null `SharedPtr` variables the thread can use when idle. */
  datatype ThreadOf<W> = Thread(own: multiset<Addr>, pc: PCOf<W>)

  datatype StateOf<W> = State(
    cells: seq<W>,
    heap: map<Addr, Block>,
    threads: seq<ThreadOf<W>>,
    births: nat,
    deleted: multiset<nat>,
    fault: bool)               // a freed control block has been touched

  type Then = ThenOf<Word>
  type PC = PCOf<Word>
  type Thread = ThreadOf<Word>
  type State = StateOf<Word>

  datatype Action =
    | Allocate(a: Addr)                        // SharedPtr(ptr, deleter)
    | Copy(a: Addr)                            // copy constructor
    | Move(to: nat, a: Addr)                   // move into a variable of another thread
    | Drop(a: Addr)                            // destructor or reset()
    | MakeCell(p: Addr)                        // atomic(SharedPtr)
    | BeginLoad(c: nat)
    | BeginExchange(c: nat, p: Addr)           // store and the destructor are exchanges
    | BeginCompare(c: nat, e: Addr, d: Addr)
    | Advance(spurious: bool)                  // the next atomic operation of the call

  // ---- Variables ----

  /** A null pointer can always be written; any other one is taken out of a variable. */
  predicate CanTake(own: multiset<Addr>, p: Addr) {
    p == NULL || p in own
  }

  function Take(own: multiset<Addr>, p: Addr): multiset<Addr> {
    if p == NULL then own else own - multiset{p}
  }

  function Give(own: multiset<Addr>, p: Addr): multiset<Addr> {
    if p == NULL then own else own + multiset{p}
  }

  // ---- Steps ----

  function SetThread<W>(s: StateOf<W>, t: nat, th: ThreadOf<W>): StateOf<W>
    requires t < |s.threads|
  {
    s.(threads := s.threads[t := th])
  }

  function Go<W>(s: StateOf<W>, t: nat, pc: PCOf<W>): StateOf<W>
    requires t < |s.threads|
  {
    SetThread(s, t, Thread(s.threads[t].own, pc))
  }

  function SetCell<W>(s: StateOf<W>, c: nat, w: W): StateOf<W>
    requires c < |s.cells|
  {
    s.(cells := s.cells[c := w])
  }

  /** `fetch_add(1)` in `AllocData::copy`, which returns early on null. */
  function AddOne<W>(s: StateOf<W>, a: Addr): StateOf<W> {
    if a == NULL then s
    else if a in s.heap then s.(heap := s.heap[a := s.heap[a].(count := s.heap[a].count + 1)])
    else s.(fault := true)
  }

  /** The destructor of an owner: nothing for null, else the loop of `Deallocator`. */
  function StartRelease<W>(own: multiset<Addr>, a: Addr, next: ThenOf<W>): ThreadOf<W> {
    if a == NULL then Resume(own, next) else Thread(own, Release(a, 1, 0, next))
  }

  function Resume<W>(own: multiset<Addr>, next: ThenOf<W>): ThreadOf<W> {
    match next
    case Finish => Thread(own, Idle)
    case Won(e, d) => Thread(Give(own, e), Idle)
    case Bump(c, d, cur, des) => Thread(own, CompareCount(c, d, cur, des))
  }

  predicate Enabled<W>(s: StateOf<W>, t: nat, act: Action) {
    && t < |s.threads|
    && var th := s.threads[t];
       if act.Advance? then
         match th.pc
         case Idle => false
         case LoadPin(c, _, _) => c < |s.cells|
         case LoadUnpin(c, _, _) => c < |s.cells|
         case Exchange(c, _, _) => c < |s.cells|
         case Compare(c, _, _, _, _) => c < |s.cells|
         case CompareUnpin(c, _, _, _, _) => c < |s.cells|
         case _ => true
       else
         && th.pc.Idle?
         && match act
            case Allocate(a) => a != NULL && a < ADDRESSES && a !in s.heap
            case Copy(a) => a in th.own
            case Move(to, a) => a in th.own && to < |s.threads| && to != t
            case Drop(a) => a in th.own
            case MakeCell(p) => CanTake(th.own, p)
            case BeginLoad(c) => c < |s.cells|
            case BeginExchange(c, p) => c < |s.cells| && CanTake(th.own, p)
            case BeginCompare(c, e, d) =>
              c < |s.cells| && CanTake(th.own, e) && CanTake(Take(th.own, e), d)
            case Advance(_) => true
  }

  function NextAllocate<W>(s: StateOf<W>, t: nat, a: Addr): StateOf<W>
    requires t < |s.threads|
  {
    SetThread(s, t, Thread(Give(s.threads[t].own, a), Idle))
      .(heap := s.heap[a := Block(1, s.births)], births := s.births + 1)
  }

  function NextMove<W>(s: StateOf<W>, t: nat, to: nat, a: Addr): StateOf<W>
    requires t < |s.threads| && to < |s.threads|
  {
    var out := SetThread(s, t, Thread(Take(s.threads[t].own, a), Idle));
    SetThread(out, to, Thread(Give(out.threads[to].own, a), out.threads[to].pc))
  }

  function Next(s: State, t: nat, act: Action): State
    requires Enabled(s, t, act)
  {
    var own := s.threads[t].own;
    match act
    case Allocate(a) => NextAllocate(s, t, a)
    case Copy(a) => SetThread(AddOne(s, a), t, Thread(Give(own, a), Idle))
    case Move(to, a) => NextMove(s, t, to, a)
    case Drop(a) => SetThread(s, t, StartRelease(Take(own, a), a, Finish))
    case MakeCell(p) =>
      SetThread(s, t, Thread(Take(own, p), Idle)).(cells := s.cells + [Word(p, 0)])
    case BeginLoad(c) => Go(s, t, LoadPin(c, Word(NULL, 0), Word(NULL, 1)))
    case BeginExchange(c, p) =>
      SetThread(s, t, Thread(Take(own, p), Exchange(c, Word(NULL, 0), Word(p, 0))))
    case BeginCompare(c, e, d) =>
      SetThread(s, t, Thread(Take(Take(own, e), d), Compare(c, e, d, Word(e, 0), Word(d, 0))))
    case Advance(spurious) => NextAtomic(s, t, spurious)
  }

  function NextAtomic(s: State, t: nat, spurious: bool): State
    requires Enabled(s, t, Advance(spurious))
  {
    match s.threads[t].pc
    case LoadPin(c, cur, des) => NextLoadPin(s, t, c, cur, des, spurious)
    case LoadCount(c, cur, des) => Go(AddOne(s, cur.ptr), t, LoadUnpin(c, cur, des))
    case LoadUnpin(c, cur, des) => NextLoadUnpin(s, t, c, cur, des, spurious)
    case Exchange(c, cur, des) => NextExchange(s, t, c, cur, des, spurious)
    case Compare(c, e, d, cur, des) => NextCompare(s, t, c, e, d, cur, des, spurious)
    case CompareCount(c, d, cur, des) =>
      Go(AddOne(s, cur.ptr), t, CompareUnpin(c, cur.ptr, d, cur, des))
    case CompareUnpin(c, e, d, cur, des) => NextCompareUnpin(s, t, c, e, d, cur, des, spurious)
    case Release(a, seen, want, next) => NextRelease(s, t, a, seen, want, next, spurious)
    case Delete(a, next) => NextDelete(s, t, a, next)
  }

  /** Lines 191-205: raise the tag of whatever the cell holds. */
  function NextLoadPin(s: State, t: nat, c: nat, cur: Word, des: Word, spurious: bool): State
    requires t < |s.threads| && c < |s.cells|
  {
    var r := CasWeak(s.cells[c], cur, des, spurious);
    if r.ok then Go(SetCell(s, c, r.cell), t, LoadCount(c, des, Unpinned(des)))
    else Go(s, t, LoadPin(c, r.seen, Pinned(r.seen)))
  }

  /** Lines 207-211: lower the tag again and hand the pointer out. */
  function NextLoadUnpin(s: State, t: nat, c: nat, cur: Word, des: Word, spurious: bool): State
    requires t < |s.threads| && c < |s.cells|
  {
    var r := CasWeak(s.cells[c], cur, des, spurious);
    if r.ok then
      SetThread(SetCell(s, c, r.cell), t, Thread(Give(s.threads[t].own, des.ptr), Idle))
    else Go(s, t, LoadUnpin(c, r.seen, Unpinned(r.seen)))
  }

  /** Lines 222-228: the retry looks for the same pointer with no reader in progress. */
  function NextExchange(s: State, t: nat, c: nat, cur: Word, des: Word, spurious: bool): State
    requires t < |s.threads| && c < |s.cells|
  {
    var r := CasWeak(s.cells[c], cur, des, spurious);
    if r.ok then
      SetThread(SetCell(s, c, r.cell), t, Thread(Give(s.threads[t].own, cur.ptr), Idle))
    else Go(s, t, Exchange(c, Cleared(r.seen), des))
  }

  /** Lines 241-268: swap at tag zero, or turn into a load of a pointer other than `e`.
      The load hands `e` its new pointer at once and drops the one `e` had. */
  function NextCompare(s: State, t: nat, c: nat, e: Addr, d: Addr, cur: Word, des: Word, spurious: bool): State
    requires t < |s.threads| && c < |s.cells|
  {
    var r := CasWeak(s.cells[c], cur, des, spurious);
    if !r.ok then
      if r.seen.ptr != e then Go(s, t, Compare(c, e, d, r.seen, Pinned(r.seen)))
      else Go(s, t, Compare(c, e, d, Word(e, 0), Word(d, 0)))
    else
      var own := s.threads[t].own;
      var swapped := SetCell(s, c, r.cell);
      if des.tag == 0 then SetThread(swapped, t, StartRelease(own, cur.ptr, Won(e, d)))
      else SetThread(swapped, t, StartRelease(own, e, Bump(c, d, des, Unpinned(des))))
  }

  /** Lines 270-274: lower the tag, return false with `e` replaced; `d` dies on return. */
  function NextCompareUnpin(s: State, t: nat, c: nat, e: Addr, d: Addr, cur: Word, des: Word, spurious: bool): State
    requires t < |s.threads| && c < |s.cells|
  {
    var r := CasWeak(s.cells[c], cur, des, spurious);
    if r.ok then
      SetThread(SetCell(s, c, r.cell), t, StartRelease(Give(s.threads[t].own, e), d, Finish))
    else Go(s, t, CompareUnpin(c, e, d, r.seen, Unpinned(r.seen)))
  }

  /** Lines 20-27: take one off the count; whoever takes it from one to zero deletes. */
  function NextRelease<W>(s: StateOf<W>, t: nat, a: Addr, seen: nat, want: int, next: ThenOf<W>, spurious: bool): StateOf<W>
    requires t < |s.threads|
  {
    if a !in s.heap then s.(fault := true)
    else
      var r := CasWeak(s.heap[a].count as int, seen as int, want, spurious);
      if r.ok && want >= 0 then
        var released := s.(heap := s.heap[a := s.heap[a].(count := want)]);
        if seen == 1 && want == 0 then Go(released, t, Delete(a, next))
        else SetThread(released, t, Resume(s.threads[t].own, next))
      else if r.ok then s.(fault := true)       // the count would wrap below zero
      else Go(s, t, Release(a, r.seen, r.seen - 1, next))
  }

  /** Lines 29-31: run the deleter, free the block. */
  function NextDelete<W>(s: StateOf<W>, t: nat, a: Addr, next: ThenOf<W>): StateOf<W>
    requires t < |s.threads|
  {
    if a !in s.heap then s.(fault := true)
    else
      SetThread(s, t, Resume(s.threads[t].own, next))
        .(heap := s.heap - {a}, deleted := s.deleted + multiset{s.heap[a].birth})
  }

  // ---- Runs ----

  /** Fewer threads than the tag can count, none of them started, nothing allocated. */
  predicate Init<W>(s: StateOf<W>) {
    && s.cells == [] && s.heap == map[] && s.births == 0 && s.deleted == multiset{} && !s.fault
    && |s.threads| < TAGS
    && forall t :: 0 <= t < |s.threads| ==> s.threads[t] == Thread(multiset{}, Idle)
  }

  ghost predicate Step(s: State, s': State) {
    exists t: nat, act: Action :: Enabled(s, t, act) && s' == Next(s, t, act)
  }

  ghost predicate StepAt(run: seq<State>, i: nat) {
    i + 1 < |run| && Step(run[i], run[i + 1])
  }

  ghost predicate IsRun(run: seq<State>) {
    |run| > 0 && Init(run[0]) && forall i: nat :: i + 1 < |run| ==> StepAt(run, i)
  }
}
