/** The pin / count / unpin protocol refines a plain atomic cell with load, exchange and a
    strong compare-and-swap: each operation takes effect at one of its own steps. */
module SharedPtrLinear {
  import opened TaggedPtr
  import opened SharedPtrMachine
  import opened SharedPtrLedger
  import opened SharedPtrSafety

  // ---- The specification: cells that hold pointers, operations that happen at once ----

  datatype Call =
    | NoCall
    | WantLoad(c: nat)
    | WantExchange(c: nat, p: Addr)
    | WantCompare(c: nat, e: Addr, d: Addr)
    | GotLoad(p: Addr)
    | GotCompare(ok: bool, e: Addr)

  datatype Client = Client(own: multiset<Addr>, call: Call)

  datatype Spec = Spec(cells: seq<Addr>, clients: seq<Client>)

  function SetClient(S: Spec, t: nat, cl: Client): Spec
    requires t < |S.clients|
  {
    S.(clients := S.clients[t := cl])
  }

  /** The one atomic moment of the call in progress, or its return once that has passed. */
  function Effect(S: Spec, t: nat): Spec
    requires t < |S.clients|
  {
    var own := S.clients[t].own;
    match S.clients[t].call
    case NoCall => S
    case WantLoad(c) =>
      if c < |S.cells| then SetClient(S, t, Client(own, GotLoad(S.cells[c]))) else S
    case WantExchange(c, p) =>
      if c < |S.cells| then
        SetClient(S, t, Client(Give(own, S.cells[c]), NoCall)).(cells := S.cells[c := p])
      else S
    case WantCompare(c, e, d) =>
      if c >= |S.cells| then S
      else if S.cells[c] == e then
        SetClient(S, t, Client(own, GotCompare(true, e))).(cells := S.cells[c := d])
      else SetClient(S, t, Client(own, GotCompare(false, S.cells[c])))
    case GotLoad(p) => SetClient(S, t, Client(Give(own, p), NoCall))
    case GotCompare(_, e) => SetClient(S, t, Client(Give(own, e), NoCall))
  }

  /** What a client does outside of a call, and how it begins one. */
  function Plain(S: Spec, t: nat, act: Action): Spec
    requires t < |S.clients|
  {
    var own := S.clients[t].own;
    match act
    case Allocate(a) => SetClient(S, t, Client(Give(own, a), NoCall))
    case Copy(a) => SetClient(S, t, Client(Give(own, a), NoCall))
    case Move(to, a) =>
      if to >= |S.clients| then S
      else
        var out := SetClient(S, t, Client(Take(own, a), NoCall));
        SetClient(out, to, out.clients[to].(own := Give(out.clients[to].own, a)))
    case Drop(a) => SetClient(S, t, Client(Take(own, a), NoCall))
    case MakeCell(p) => SetClient(S, t, Client(Take(own, p), NoCall)).(cells := S.cells + [p])
    case BeginLoad(c) => SetClient(S, t, Client(own, WantLoad(c)))
    case BeginExchange(c, p) => SetClient(S, t, Client(Take(own, p), WantExchange(c, p)))
    case BeginCompare(c, e, d) =>
      SetClient(S, t, Client(Take(Take(own, e), d), WantCompare(c, e, d)))
    case Advance(_) => S
  }

  predicate Allowed(S: Spec, t: nat, act: Action)
    requires t < |S.clients|
  {
    var own := S.clients[t].own;
    match act
    case Allocate(a) => a != NULL
    case Copy(a) => a in own
    case Move(to, a) => a in own && to < |S.clients| && to != t
    case Drop(a) => a in own
    case MakeCell(p) => CanTake(own, p)
    case BeginLoad(c) => c < |S.cells|
    case BeginExchange(c, p) => c < |S.cells| && CanTake(own, p)
    case BeginCompare(c, e, d) => c < |S.cells| && CanTake(own, e) && CanTake(Take(own, e), d)
    case Advance(_) => false
  }

  /** A step of the machine inside a call: nothing visible, the atomic moment or the return,
      or both at once. */
  predicate Visible(S: Spec, t: nat, S': Spec)
    requires t < |S.clients|
  {
    S' == S || S' == Effect(S, t) || S' == Effect(Effect(S, t), t)
  }

  /** What the action of client t may do: the action a client takes outside of a call, and the
      call it begins, have their plain effect; a step inside a call is as described above. */
  predicate SpecNext(S: Spec, S': Spec, t: nat, act: Action)
    requires t < |S.clients|
  {
    if act.Advance? then Visible(S, t, S')
    else S.clients[t].call.NoCall? && Allowed(S, t, act) && S' == Plain(S, t, act)
  }

  // ---- The abstraction ----

  function CallOf(pc: PC): Call {
    match pc
    case Idle => NoCall
    case LoadPin(c, _, _) => WantLoad(c)
    case LoadCount(_, cur, _) => GotLoad(cur.ptr)
    case LoadUnpin(_, cur, _) => GotLoad(cur.ptr)
    case Exchange(c, _, des) => WantExchange(c, des.ptr)
    case Compare(c, e, d, _, _) => WantCompare(c, e, d)
    case CompareCount(_, _, cur, _) => GotCompare(false, cur.ptr)
    case CompareUnpin(_, e, _, _, _) => GotCompare(false, e)
    case Release(_, _, _, next) => ThenCallOf(next)
    case Delete(_, next) => ThenCallOf(next)
  }

  function ThenCallOf(next: Then): Call {
    match next
    case Finish => NoCall
    case Won(e, _) => GotCompare(true, e)
    case Bump(_, _, cur, _) => GotCompare(false, cur.ptr)
  }

  function ClientOf(th: Thread): Client {
    Client(th.own, CallOf(th.pc))
  }

  function Pointers(cells: seq<Word>): seq<Addr> {
    seq(|cells|, c requires 0 <= c < |cells| => cells[c].ptr)
  }

  function Clients(threads: seq<Thread>): seq<Client> {
    seq(|threads|, t requires 0 <= t < |threads| => ClientOf(threads[t]))
  }

  function Abs(s: State): Spec {
    Spec(Pointers(s.cells), Clients(s.threads))
  }

  lemma AbsOfUpdate(s: State, t: nat, th: Thread)
    requires t < |s.threads|
    ensures Clients(s.threads[t := th]) == Clients(s.threads)[t := ClientOf(th)]
  {
  }

  /** A release ends the call that was waiting for it, or leaves it decided. */
  lemma ReleaseEndsCall(own: multiset<Addr>, p: Addr, next: Then)
    ensures ClientOf(StartRelease(own, p, next)) == Client(own, ThenCallOf(next))
            || (next.Won? && ClientOf(StartRelease(own, p, next)) == Client(Give(own, next.e), NoCall))
    ensures ClientOf(Resume(own, next))
            == if next.Won? then Client(Give(own, next.e), NoCall) else Client(own, ThenCallOf(next))
  {
  }

  // ---- Every step refines the specification ----

  lemma QuietStep(s: State, t: nat, pc: PC)
    requires t < |s.threads| && CallOf(pc) == CallOf(s.threads[t].pc)
    ensures Abs(Go(s, t, pc)) == Abs(s)
  {
  }

  lemma CellStep(s: State, t: nat, c: nat, w: Word, th: Thread)
    requires t < |s.threads| && c < |s.cells|
    ensures var S := Abs(s);
            Abs(SetThread(SetCell(s, c, w), t, th))
            == SetClient(S, t, ClientOf(th)).(cells := S.cells[c := w.ptr])
  {
  }

  lemma CellKept(s: State, c: nat)
    requires c < |s.cells|
    ensures Pointers(s.cells)[c := s.cells[c].ptr] == Pointers(s.cells)
  {
  }

  lemma LoadRefines(s: State, t: nat, spurious: bool)
    requires Inv(s) && Enabled(s, t, Advance(spurious))
    requires s.threads[t].pc.LoadPin? || s.threads[t].pc.LoadUnpin?
    ensures Visible(Abs(s), t, Abs(NextAtomic(s, t, spurious)))
  {
  }

  lemma ExchangeRefines(s: State, t: nat, spurious: bool)
    requires Inv(s) && Enabled(s, t, Advance(spurious)) && s.threads[t].pc.Exchange?
    ensures Visible(Abs(s), t, Abs(NextAtomic(s, t, spurious)))
  {
  }

  /** A successful swap is a successful compare-and-swap on pointers. */
  lemma CompareSwapRefines(s: State, t: nat, spurious: bool)
    requires Inv(s) && Enabled(s, t, Advance(spurious)) && s.threads[t].pc.Compare?
    requires var pc := s.threads[t].pc;
             CasWeak(s.cells[pc.c], pc.cur, pc.des, spurious).ok && pc.cur == Word(pc.e, 0)
    ensures Visible(Abs(s), t, Abs(NextAtomic(s, t, spurious)))
  {
  }

  /** A pin is a failed compare-and-swap, of a cell that really held something else. */
  lemma ComparePinRefines(s: State, t: nat, spurious: bool)
    requires Inv(s) && Enabled(s, t, Advance(spurious)) && s.threads[t].pc.Compare?
    requires var pc := s.threads[t].pc;
             CasWeak(s.cells[pc.c], pc.cur, pc.des, spurious).ok && pc.cur != Word(pc.e, 0)
    ensures Visible(Abs(s), t, Abs(NextAtomic(s, t, spurious)))
  {
    var own, pc := s.threads[t].own, s.threads[t].pc;
    RoomToPin(s, pc.c, t);
    var next := Bump(pc.c, pc.d, pc.des, Unpinned(pc.des));
    ReleaseEndsCall(own, pc.e, next);
    CellStep(s, t, pc.c, pc.des, StartRelease(own, pc.e, next));
    CellKept(s, pc.c);
    assert Abs(NextAtomic(s, t, spurious)) == Effect(Abs(s), t);
  }

  lemma CompareRefines(s: State, t: nat, spurious: bool)
    requires Inv(s) && Enabled(s, t, Advance(spurious)) && s.threads[t].pc.Compare?
    ensures Visible(Abs(s), t, Abs(NextAtomic(s, t, spurious)))
  {
    var pc := s.threads[t].pc;
    if !CasWeak(s.cells[pc.c], pc.cur, pc.des, spurious).ok {
      QuietStep(s, t, NextAtomic(s, t, spurious).threads[t].pc);
    } else if pc.cur == Word(pc.e, 0) {
      CompareSwapRefines(s, t, spurious);
    } else {
      ComparePinRefines(s, t, spurious);
    }
  }

  lemma CompareUnpinRefines(s: State, t: nat, spurious: bool)
    requires Inv(s) && Enabled(s, t, Advance(spurious)) && s.threads[t].pc.CompareUnpin?
    ensures Visible(Abs(s), t, Abs(NextAtomic(s, t, spurious)))
  {
  }

  lemma CountRefines(s: State, t: nat, spurious: bool)
    requires Inv(s) && Enabled(s, t, Advance(spurious))
    requires s.threads[t].pc.LoadCount? || s.threads[t].pc.CompareCount?
    ensures Visible(Abs(s), t, Abs(NextAtomic(s, t, spurious)))
  {
    QuietStep(s, t, NextAtomic(s, t, spurious).threads[t].pc);
  }

  lemma OwnThread(s: State, s': State, t: nat)
    requires t < |s.threads| == |s'.threads| && s'.cells == s.cells
    requires s'.threads == s.threads[t := s'.threads[t]]
    ensures Abs(s') == SetClient(Abs(s), t, ClientOf(s'.threads[t]))
  {
    AbsOfUpdate(s, t, s'.threads[t]);
  }

  lemma DeleteThread(s: State, t: nat)
    requires t < |s.threads| && s.threads[t].pc.Delete?
    ensures var pc := s.threads[t].pc;
            var s', th := NextDelete(s, t, pc.a, pc.next), s.threads[t];
            && |s'.threads| == |s.threads| && s'.cells == s.cells
            && s'.threads == s.threads[t := s'.threads[t]]
            && (s'.threads[t] == Resume(th.own, pc.next) || ClientOf(s'.threads[t]) == ClientOf(th))
  {
  }

  lemma ReleaseThread(s: State, t: nat, spurious: bool)
    requires t < |s.threads| && s.threads[t].pc.Release?
    ensures var pc := s.threads[t].pc;
            var s', th := NextRelease(s, t, pc.a, pc.seen, pc.want, pc.next, spurious), s.threads[t];
            && |s'.threads| == |s.threads| && s'.cells == s.cells
            && s'.threads == s.threads[t := s'.threads[t]]
            && (s'.threads[t] == Resume(th.own, pc.next) || ClientOf(s'.threads[t]) == ClientOf(th))
  {
    assert s.threads[t := s.threads[t]] == s.threads;
  }

  lemma ReleaseRefines(s: State, t: nat, spurious: bool)
    requires Enabled(s, t, Advance(spurious))
    requires s.threads[t].pc.Release? || s.threads[t].pc.Delete?
    ensures Visible(Abs(s), t, Abs(NextAtomic(s, t, spurious)))
  {
    var own, pc, s' := s.threads[t].own, s.threads[t].pc, NextAtomic(s, t, spurious);
    if pc.Release? {
      ReleaseThread(s, t, spurious);
    } else {
      DeleteThread(s, t);
    }
    OwnThread(s, s', t);
    ReleaseEndsCall(own, pc.a, pc.next);
    assert Clients(s.threads)[t := ClientOf(s.threads[t])] == Clients(s.threads);
  }

  lemma AtomicRefines(s: State, t: nat, spurious: bool)
    requires Inv(s) && Enabled(s, t, Advance(spurious))
    ensures Visible(Abs(s), t, Abs(NextAtomic(s, t, spurious)))
  {
    match s.threads[t].pc
    case LoadPin(_, _, _) => LoadRefines(s, t, spurious);
    case LoadUnpin(_, _, _) => LoadRefines(s, t, spurious);
    case Exchange(_, _, _) => ExchangeRefines(s, t, spurious);
    case Compare(_, _, _, _, _) => CompareRefines(s, t, spurious);
    case CompareUnpin(_, _, _, _, _) => CompareUnpinRefines(s, t, spurious);
    case Release(_, _, _, _) => ReleaseRefines(s, t, spurious);
    case Delete(_, _) => ReleaseRefines(s, t, spurious);
    case _ => CountRefines(s, t, spurious);
  }

  lemma MoveRefines(s: State, t: nat, to: nat, a: Addr)
    requires Enabled(s, t, Move(to, a))
    ensures Abs(Next(s, t, Move(to, a))) == Plain(Abs(s), t, Move(to, a))
  {
  }

  lemma MakeCellRefines(s: State, t: nat, p: Addr)
    requires Enabled(s, t, MakeCell(p))
    ensures Abs(Next(s, t, MakeCell(p))) == Plain(Abs(s), t, MakeCell(p))
  {
  }

  lemma OwnStep(s: State, t: nat, th: Thread)
    requires t < |s.threads|
    ensures Abs(SetThread(s, t, th)) == SetClient(Abs(s), t, ClientOf(th))
  {
  }

  lemma AllocateRefines(s: State, t: nat, act: Action)
    requires Enabled(s, t, act) && (act.Allocate? || act.Copy?)
    ensures Abs(Next(s, t, act)) == Plain(Abs(s), t, act)
  {
  }

  lemma BeginRefines(s: State, t: nat, act: Action)
    requires Enabled(s, t, act) && (act.BeginLoad? || act.BeginExchange? || act.BeginCompare?)
    ensures Abs(Next(s, t, act)) == Plain(Abs(s), t, act)
  {
    var own := s.threads[t].own;
    match act {
      case BeginLoad(c) => OwnStep(s, t, Thread(own, LoadPin(c, Word(NULL, 0), Word(NULL, 1))));
      case BeginExchange(c, p) =>
        OwnStep(s, t, Thread(Take(own, p), Exchange(c, Word(NULL, 0), Word(p, 0))));
      case BeginCompare(c, e, d) =>
        OwnStep(s, t, Thread(Take(Take(own, e), d), Compare(c, e, d, Word(e, 0), Word(d, 0))));
      case _ =>
    }
  }

  lemma PlainAllowed(s: State, t: nat, act: Action)
    requires Enabled(s, t, act) && !act.Advance?
    ensures Abs(s).clients[t].call.NoCall? && Allowed(Abs(s), t, act)
  {
  }

  lemma PlainRefines(s: State, t: nat, act: Action)
    requires Enabled(s, t, act) && !act.Advance?
    ensures Abs(Next(s, t, act)) == Plain(Abs(s), t, act)
  {
    if act.Move? {
      MoveRefines(s, t, act.to, act.a);
    } else if act.MakeCell? {
      MakeCellRefines(s, t, act.p);
    } else if act.Drop? {
      ReleaseEndsCall(Take(s.threads[t].own, act.a), act.a, Finish);
      OwnStep(s, t, Next(s, t, act).threads[t]);
    } else if act.Allocate? || act.Copy? {
      AllocateRefines(s, t, act);
    } else {
      BeginRefines(s, t, act);
    }
  }

  /** In every run of any number of threads, whatever action a thread takes next, the cells
      behave as plain atomic pointers. */
  lemma RunIsLinearizable(run: seq<State>, i: nat, t: nat, act: Action)
    requires IsRun(run) && i < |run| && Enabled(run[i], t, act)
    ensures SpecNext(Abs(run[i]), Abs(Next(run[i], t, act)), t, act)
  {
    RunKeepsInv(run, i);
    if act.Advance? {
      AtomicRefines(run[i], t, act.spurious);
    } else {
      PlainRefines(run[i], t, act);
      PlainAllowed(run[i], t, act);
    }
  }

  lemma DecidedOnce(S: Spec, t: nat, S': Spec, c: nat, e: Addr, d: Addr)
    requires t < |S.clients| && S.clients[t].call == WantCompare(c, e, d) && c < |S.cells|
    requires Visible(S, t, S') && S'.clients[t].call != WantCompare(c, e, d)
    ensures S.cells[c] == e ==>
              && S'.cells == S.cells[c := d]
              && (|| S'.clients[t].call == GotCompare(true, e)
                  || S'.clients[t] == Client(Give(S.clients[t].own, e), NoCall))
    ensures S.cells[c] != e ==>
              && S'.cells == S.cells
              && (|| S'.clients[t].call == GotCompare(false, S.cells[c])
                  || S'.clients[t] == Client(Give(S.clients[t].own, S.cells[c]), NoCall))
  {
  }

  /** The call of the thread is decided by this step, or the step changes nothing. */
  predicate Decides(S: Spec, S': Spec, t: nat, c: nat, e: Addr, d: Addr)
    requires t < |S.clients| == |S'.clients| && c < |S.cells|
  {
    if S'.clients[t].call == WantCompare(c, e, d) then S' == S
    else if S.cells[c] == e then
      && S'.cells == S.cells[c := d]
      && (|| S'.clients[t].call == GotCompare(true, e)
          || S'.clients[t] == Client(Give(S.clients[t].own, e), NoCall))
    else
      && S'.cells == S.cells
      && (|| S'.clients[t].call == GotCompare(false, S.cells[c])
          || S'.clients[t] == Client(Give(S.clients[t].own, S.cells[c]), NoCall))
  }

  lemma Verdict(s: State, t: nat, spurious: bool, c: nat, e: Addr, d: Addr)
    requires Inv(s) && Enabled(s, t, Advance(spurious))
    requires CallOf(s.threads[t].pc) == WantCompare(c, e, d)
    ensures c < |s.cells| && |NextAtomic(s, t, spurious).threads| == |s.threads|
    ensures Decides(Abs(s), Abs(NextAtomic(s, t, spurious)), t, c, e, d)
  {
    assert LocalOk(s.cells, s.threads[t]) && s.threads[t].pc.Compare?;
    AtomicRefines(s, t, spurious);
    var S' := Abs(NextAtomic(s, t, spurious));
    if S'.clients[t].call != WantCompare(c, e, d) {
      DecidedOnce(Abs(s), t, S', c, e, d);
    }
  }

  /** compare_exchange never fails spuriously. While it is undecided its steps change nothing;
      at the step that decides it, it succeeds exactly when the cell holds `e`, which `d` then
      replaces; otherwise the cell keeps what it holds, and that other pointer is what `e`
      becomes. */
  lemma CompareVerdict(run: seq<State>, i: nat, t: nat, spurious: bool, c: nat, e: Addr, d: Addr)
    requires IsRun(run) && i < |run| && Enabled(run[i], t, Advance(spurious))
    requires CallOf(run[i].threads[t].pc) == WantCompare(c, e, d)
    ensures c < |run[i].cells|
    ensures |Next(run[i], t, Advance(spurious)).threads| == |run[i].threads|
    ensures Decides(Abs(run[i]), Abs(Next(run[i], t, Advance(spurious))), t, c, e, d)
  {
    RunKeepsInv(run, i);
    Verdict(run[i], t, spurious, c, e, d);
  }
}
