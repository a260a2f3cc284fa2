/** The invariant of the split reference count: for every control block an exact ledger of
    its references, for every cell an exact count of the readers that pinned it. */
module SharedPtrLedger {
  import opened Sums
  import opened TaggedPtr
  import opened SharedPtrMachine

  // ---- What a thread contributes ----

  function Is(p: Addr, a: Addr): nat {
    if p == a then 1 else 0
  }

  /** References that `__rcount` covers: variables and pointers in hand, but not the pointer
      handed to `e` before it has been counted, and not `d` once the cell has taken it over. */
  function RefsOf(th: Thread, a: Addr): nat {
    th.own[a] +
    match th.pc
    case Idle => 0
    case LoadPin(_, _, _) => 0
    case LoadCount(_, _, _) => 0
    case LoadUnpin(_, cur, _) => Is(cur.ptr, a)
    case Exchange(_, _, des) => Is(des.ptr, a)
    case Compare(_, e, d, _, _) => Is(e, a) + Is(d, a)
    case CompareCount(_, d, _, _) => Is(d, a)
    case CompareUnpin(_, e, d, _, _) => Is(e, a) + Is(d, a)
    case Release(x, _, _, next) => Is(x, a) + ThenRefsOf(next, a)
    case Delete(_, next) => ThenRefsOf(next, a)
  }

  function ThenRefsOf(next: Then, a: Addr): nat {
    match next
    case Finish => 0
    case Won(e, _) => Is(e, a)
    case Bump(_, d, _, _) => Is(d, a)
  }

  /** 1 while the thread is between its pin and its unpin of cell c. */
  function PinsOf(th: Thread, c: nat): nat {
    match th.pc
    case LoadCount(x, _, _) => Is(x, c)
    case LoadUnpin(x, _, _) => Is(x, c)
    case CompareCount(x, _, _, _) => Is(x, c)
    case CompareUnpin(x, _, _, _, _) => Is(x, c)
    case Release(_, _, _, next) => ThenPinsOf(next, c)
    case Delete(_, next) => ThenPinsOf(next, c)
    case _ => 0
  }

  function ThenPinsOf(next: Then, c: nat): nat {
    if next.Bump? then Is(next.c, c) else 0
  }

  /** 1 while the thread is about to run the deleter of a. */
  function DeletesOf(th: Thread, a: Addr): nat {
    if th.pc.Delete? then Is(th.pc.a, a) else 0
  }

  function RefsFn(a: Addr): Thread -> nat {
    th => RefsOf(th, a)
  }

  function PinsFn(c: nat): Thread -> nat {
    th => PinsOf(th, c)
  }

  function DeletesFn(a: Addr): Thread -> nat {
    th => DeletesOf(th, a)
  }

  function HoldsFn(a: Addr): Word -> nat {
    (w: Word) => Is(w.ptr, a)
  }

  function Refs(s: State, a: Addr): nat {
    Sum(s.threads, RefsFn(a))
  }

  function Pins(s: State, c: nat): nat {
    Sum(s.threads, PinsFn(c))
  }

  function Deletes(s: State, a: Addr): nat {
    Sum(s.threads, DeletesFn(a))
  }

  /** The number of cells that hold a. */
  function Holding(s: State, a: Addr): nat {
    Sum(s.cells, HoldsFn(a))
  }

  function Count(s: State, a: Addr): nat {
    if a in s.heap then s.heap[a].count else 0
  }

  function Doomed(s: State, a: Addr): nat {
    if a in s.heap && s.heap[a].count == 0 then 1 else 0
  }

  // ---- The invariant ----

  predicate PinnedOk(cells: seq<Word>, c: nat, cur: Word, des: Word) {
    c < |cells| && cells[c].ptr == cur.ptr && des == Unpinned(cur)
  }

  predicate ThenOk(cells: seq<Word>, next: Then) {
    next.Bump? ==> PinnedOk(cells, next.c, next.cur, next.des)
  }

  predicate LocalOk(cells: seq<Word>, th: Thread) {
    && NULL !in th.own
    && match th.pc
       case Idle => true
       case LoadPin(c, cur, des) => c < |cells| && des == Pinned(cur)
       case LoadCount(c, cur, des) => PinnedOk(cells, c, cur, des)
       case LoadUnpin(c, cur, des) => PinnedOk(cells, c, cur, des)
       case Exchange(c, cur, des) => c < |cells| && cur.tag == 0 && des.tag == 0
       case Compare(c, e, d, cur, des) =>
         && c < |cells|
         && (|| (cur == Word(e, 0) && des == Word(d, 0))
             || (cur.ptr != e && des == Pinned(cur)))
       case CompareCount(c, d, cur, des) => PinnedOk(cells, c, cur, des)
       case CompareUnpin(c, e, d, cur, des) => PinnedOk(cells, c, cur, des) && e == cur.ptr
       case Release(a, seen, want, next) => a != NULL && seen > 0 && want == seen - 1 && ThenOk(cells, next)
       case Delete(a, next) => a != NULL && ThenOk(cells, next)
  }

  ghost predicate LocalsOk(s: State) {
    forall t :: 0 <= t < |s.threads| ==> LocalOk(s.cells, s.threads[t])
  }

  ghost predicate LedgerOk(s: State) {
    forall a :: a != NULL ==> Count(s, a) == Refs(s, a) + Holding(s, a)
  }

  ghost predicate TagsOk(s: State) {
    && |s.threads| < TAGS
    && forall c :: 0 <= c < |s.cells| ==> s.cells[c].tag == Pins(s, c)
  }

  ghost predicate DeletesOk(s: State) {
    forall a :: a != NULL ==> Deletes(s, a) == Doomed(s, a)
  }

  function BirthMap(heap: map<Addr, Block>): map<Addr, nat> {
    map a | a in heap :: heap[a].birth
  }

  /** Each allocation so far is live at one address or has been deleted once, never both. */
  ghost predicate BirthsOk(live: map<Addr, nat>, births: nat, deleted: multiset<nat>) {
    && NULL !in live
    && (forall a :: a in live ==> live[a] < births && deleted[live[a]] == 0)
    && (forall a, b :: a in live && b in live && a != b ==> live[a] != live[b])
    && (forall n: nat :: n < births && n !in live.Values ==> deleted[n] == 1)
    && (forall n: nat :: n >= births ==> deleted[n] == 0)
  }

  ghost predicate Inv(s: State) {
    LocalsOk(s) && LedgerOk(s) && TagsOk(s) && DeletesOk(s) && !s.fault
    && BirthsOk(BirthMap(s.heap), s.births, s.deleted)
  }

  // ---- Consequences used by every step ----

  lemma CountCovers(s: State, t: nat, a: Addr)
    requires LedgerOk(s) && t < |s.threads| && a != NULL
    ensures RefsOf(s.threads[t], a) <= Count(s, a)
    ensures RefsOf(s.threads[t], a) > 0 ==> a in s.heap
  {
    SumAt(s.threads, t, RefsFn(a));
  }

  /** A cell that holds a keeps it alive. */
  lemma HeldIsLive(s: State, c: nat)
    requires LedgerOk(s) && c < |s.cells| && s.cells[c].ptr != NULL
    ensures s.cells[c].ptr in s.heap && s.heap[s.cells[c].ptr].count > 0
  {
    var a := s.cells[c].ptr;
    SumAt(s.cells, c, HoldsFn(a));
    assert Count(s, a) == Refs(s, a) + Holding(s, a);
  }

  /** At tag zero nobody has the cell pinned. */
  lemma UnpinnedAtZero(s: State, c: nat, u: nat)
    requires TagsOk(s) && c < |s.cells| && u < |s.threads| && s.cells[c].tag == 0
    ensures PinsOf(s.threads[u], c) == 0
  {
    SumAt(s.threads, u, PinsFn(c));
  }

  /** A thread that has not pinned the cell leaves room in the tag for its own pin. */
  lemma RoomToPin(s: State, c: nat, t: nat)
    requires TagsOk(s) && c < |s.cells| && t < |s.threads| && PinsOf(s.threads[t], c) == 0
    ensures s.cells[c].tag + 1 < TAGS
  {
    var pinned := s.threads[t := s.threads[t].(pc := LoadCount(c, s.cells[c], s.cells[c]))];
    SumUpdate(s.threads, t, pinned[t], PinsFn(c));
    SumAtMostOneEach(pinned, PinsFn(c));
  }

  /** A pinned cell has a tag to lower. */
  lemma TagOfPinned(s: State, c: nat, t: nat)
    requires TagsOk(s) && c < |s.cells| && t < |s.threads| && PinsOf(s.threads[t], c) == 1
    ensures 1 <= s.cells[c].tag < TAGS
    ensures Unpinned(s.cells[c]).tag == s.cells[c].tag - 1
  {
    SumAt(s.threads, t, PinsFn(c));
    SumAtMostOneEach(s.threads, PinsFn(c));
  }

  lemma LocalStable(cells: seq<Word>, cells': seq<Word>, th: Thread)
    requires LocalOk(cells, th) && |cells| <= |cells'|
    requires forall c :: 0 <= c < |cells| ==> cells'[c].ptr == cells[c].ptr || PinsOf(th, c) == 0
    ensures LocalOk(cells', th)
  {
  }
}
