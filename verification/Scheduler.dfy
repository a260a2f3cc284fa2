/** The states of a single-threaded event loop with nested awaits, and the steps it makes.
    Every step keeps each unfinished task in exactly one place and its value unchanged. */
module Scheduler {
  import opened Wrappers
  import opened Sums
  import opened TaskPrograms

  /** `PromiseState`: no value yet, a value, or a value that has been moved out. */
  datatype Promise = Pending | Complete(value: nat) | Moved

  /** A coroutine: what it still has to run, the values it has awaited, its promise, the task
      it is inside a co_await of, and whether it was pushed from outside the loop. */
  datatype Task = Task(
    prog: Program,
    env: seq<nat>,
    promise: Promise,
    awaits: Option<nat>,
    launched: bool)

  /** What the loop's queue holds: the handle of a task, or a `__rec_wait` coroutine that
      polls for one. */
  datatype Entry = Start(task: nat) | Waiter(task: nat)

  /** `stack` lists the coroutines in progress, innermost last; `meant` is the direct
      evaluation of every task; `grant` is the number of live tasks each may need at once,
      `holds` what it keeps of that while a child runs. */
  datatype World = World(
    tasks: seq<Task>,
    entries: seq<Entry>,
    stack: seq<nat>,
    meant: seq<nat>,
    grant: seq<nat>,
    holds: seq<nat>,
    told: seq<seq<Event>>,     // what each task has done so far
    plan: seq<seq<Event>>)     // what its program does

  // ---- Counting ----

  function EntryAt(e: Entry, t: nat): nat {
    if e.task == t then 1 else 0
  }

  function FrameAt(f: nat, t: nat): nat {
    if f == t then 1 else 0
  }

  function Live(task: Task): nat {
    if task.promise.Pending? then 1 else 0
  }

  function TaskWork(task: Task): nat {
    if task.promise.Pending? then Work(task.prog) else 0
  }

  function OpenLaunch(task: Task): nat {
    if task.launched && task.promise.Pending? then 1 else 0
  }

  /** A task created by an await that has not yet taken its value. */
  function OpenChild(task: Task): nat {
    if !task.launched && !task.promise.Moved? then 1 else 0
  }

  function InAwait(task: Task): nat {
    if task.awaits.Some? then 1 else 0
  }

  function EntryFn(t: nat): Entry -> nat {
    e => EntryAt(e, t)
  }

  function FrameFn(t: nat): nat -> nat {
    f => FrameAt(f, t)
  }

  function LiveFn(): Task -> nat {
    task => Live(task)
  }

  function WorkFn(): Task -> nat {
    task => TaskWork(task)
  }

  function OpenLaunchFn(): Task -> nat {
    task => OpenLaunch(task)
  }

  function OpenChildFn(): Task -> nat {
    task => OpenChild(task)
  }

  function InAwaitFn(): Task -> nat {
    task => InAwait(task)
  }

  function Itself(): nat -> nat {
    n => n
  }

  /** How often a task is queued or on the stack. */
  function Placed(w: World, t: nat): nat {
    Sum(w.entries, EntryFn(t)) + Sum(w.stack, FrameFn(t))
  }

  /** The steps left, which every step of the loop lowers. */
  function Measure(w: World): nat {
    Sum(w.tasks, WorkFn()) + |w.entries|
  }

  /** The launched tasks that are not complete. */
  function Unfinished(w: World): nat {
    Sum(w.tasks, OpenLaunchFn())
  }

  /** The coroutines inside a co_await. */
  function Awaiting(w: World): nat {
    Sum(w.tasks, InAwaitFn())
  }

  function Room(w: World): nat {
    Sum(w.holds, Itself())
  }

  // ---- The invariant ----

  predicate TaskOk(w: World, t: nat)
    requires t < |w.tasks| == |w.meant| == |w.grant| == |w.holds|
  {
    var task := w.tasks[t];
    match task.promise
    case Complete(v) => v == w.meant[t] && w.holds[t] == w.grant[t] && task.awaits == None
    case Moved => w.holds[t] == 0 && task.awaits == None && !task.launched
    case Pending =>
      && Depth(task.prog) <= w.grant[t]
      && match task.awaits
         case None => Eval(task.prog, task.env) == w.meant[t] && w.holds[t] == w.grant[t]
         case Some(c) =>
           && c < |w.tasks| && c != t && !w.tasks[c].launched && !w.tasks[c].promise.Moved?
           && Eval(task.prog, [w.meant[c]] + task.env) == w.meant[t]
           && w.holds[t] > 0 && w.holds[t] + w.grant[c] == w.grant[t]
  }

  predicate EntryOk(w: World, e: Entry) {
    && e.task < |w.tasks| && w.tasks[e.task].awaits == None
    && (e.Waiter? ==> w.tasks[e.task].prog.Poll?)
  }

  /** No two coroutines are inside a co_await of the same task. */
  predicate AwaitsOk(tasks: seq<Task>) {
    forall t, u :: 0 <= t < |tasks| && 0 <= u < |tasks| && t != u && tasks[t].awaits.Some? ==>
      tasks[u].awaits != tasks[t].awaits
  }

  /** Every co_await in progress has one child, and its coroutine is on the stack. */
  predicate SharesOk(tasks: seq<Task>, frames: nat) {
    Sum(tasks, OpenChildFn()) == Sum(tasks, InAwaitFn()) <= frames
  }

  ghost predicate Good(w: World) {
    && |w.tasks| == |w.meant| == |w.grant| == |w.holds| == |w.told|
    && (forall t :: 0 <= t < |w.tasks| ==> TaskOk(w, t))
    && (forall t :: 0 <= t < |w.tasks| ==> Placed(w, t) == Live(w.tasks[t]))
    && (forall k :: 0 <= k < |w.entries| ==> EntryOk(w, w.entries[k]))
    && (forall k :: 0 <= k < |w.stack| ==> w.stack[k] < |w.tasks|)
    && AwaitsOk(w.tasks) && SharesOk(w.tasks, |w.stack|)
    && |w.entries| + |w.stack| == Sum(w.tasks, LiveFn())
  }

  /** What a task has done and what its program still does are together what it should do. */
  predicate TellOk(w: World, t: nat)
    requires t < |w.tasks| == |w.meant| == |w.told| == |w.plan|
  {
    var task := w.tasks[t];
    if !task.promise.Pending? then w.told[t] == w.plan[t]
    else
      match task.awaits
      case None => w.told[t] + Trace(task.prog, task.env) == w.plan[t]
      case Some(c) =>
        && c < |w.tasks|
        && w.told[t] + ([Got(w.meant[c])] + Trace(task.prog, [w.meant[c]] + task.env)) == w.plan[t]
  }

  ghost predicate Told(w: World) {
    && |w.tasks| == |w.meant| == |w.told| == |w.plan|
    && forall t :: 0 <= t < |w.tasks| ==> TellOk(w, t)
  }

  // ---- Where a task is ----

  predicate OnceOnStack(w: World, t: nat) {
    exists k :: 0 <= k < |w.stack| && w.stack[k] == t
                && forall j :: 0 <= j < |w.stack| && j != k ==> w.stack[j] != t
  }

  predicate OnceQueued(w: World, t: nat) {
    exists k :: 0 <= k < |w.entries| && w.entries[k].task == t
                && forall j :: 0 <= j < |w.entries| && j != k ==> w.entries[j].task != t
  }

  predicate NotQueued(w: World, t: nat) {
    forall k :: 0 <= k < |w.entries| ==> w.entries[k].task != t
  }

  lemma OnceCounted<T>(s: seq<T>, f: T -> nat, k: nat)
    requires Sum(s, f) == 1 && k < |s| && f(s[k]) > 0
    ensures forall j :: 0 <= j < |s| && j != k ==> f(s[j]) == 0
  {
    forall j | 0 <= j < |s| && j != k
      ensures f(s[j]) == 0
    {
      if j < k {
        SumAtTwo(s, j, k, f);
      } else {
        SumAtTwo(s, k, j, f);
      }
    }
  }

  lemma NeverCounted<T>(s: seq<T>, f: T -> nat)
    requires Sum(s, f) == 0
    ensures forall j :: 0 <= j < |s| ==> f(s[j]) == 0
  {
  }

  lemma CountedIsOnStack(w: World, t: nat)
    requires Sum(w.stack, FrameFn(t)) == 1
    ensures OnceOnStack(w, t)
  {
    SumIsPositive(w.stack, FrameFn(t));
    var k :| 0 <= k < |w.stack| && FrameFn(t)(w.stack[k]) > 0;
    OnceCounted(w.stack, FrameFn(t), k);
    forall j | 0 <= j < |w.stack| && j != k
      ensures w.stack[j] != t
    {
      assert FrameFn(t)(w.stack[j]) == 0;
    }
  }

  lemma CountedIsQueued(w: World, t: nat)
    requires Sum(w.entries, EntryFn(t)) == 1
    ensures OnceQueued(w, t)
  {
    SumIsPositive(w.entries, EntryFn(t));
    var k :| 0 <= k < |w.entries| && EntryFn(t)(w.entries[k]) > 0;
    OnceCounted(w.entries, EntryFn(t), k);
    forall j | 0 <= j < |w.entries| && j != k
      ensures w.entries[j].task != t
    {
      assert EntryFn(t)(w.entries[j]) == 0;
    }
  }

  lemma UncountedIsNowhere(w: World, t: nat)
    ensures Sum(w.stack, FrameFn(t)) == 0 ==> t !in w.stack
    ensures Sum(w.entries, EntryFn(t)) == 0 ==> NotQueued(w, t)
  {
    if Sum(w.stack, FrameFn(t)) == 0 {
      NeverCounted(w.stack, FrameFn(t));
      assert forall k :: 0 <= k < |w.stack| ==> FrameFn(t)(w.stack[k]) == 0;
    }
    if Sum(w.entries, EntryFn(t)) == 0 {
      NeverCounted(w.entries, EntryFn(t));
      assert forall k :: 0 <= k < |w.entries| ==> EntryFn(t)(w.entries[k]) == 0;
    }
  }

  /** An unfinished task is in exactly one place: once on the stack of nested runs, or in one
      queue entry (itself or its waiter). A finished one is in none. */
  lemma OnePlace(w: World, t: nat)
    requires Good(w) && t < |w.tasks|
    ensures if w.tasks[t].promise.Pending? then
              || (OnceOnStack(w, t) && NotQueued(w, t))
              || (OnceQueued(w, t) && t !in w.stack)
            else t !in w.stack && NotQueued(w, t)
  {
    assert Placed(w, t) == Live(w.tasks[t]);
    UncountedIsNowhere(w, t);
    if Sum(w.stack, FrameFn(t)) == 1 {
      CountedIsOnStack(w, t);
    } else if Sum(w.entries, EntryFn(t)) == 1 {
      CountedIsQueued(w, t);
    }
  }

  // ---- Steps of the innermost coroutine ----

  /** `run_one` takes the oldest entry and resumes it. */
  function TakeEntry(w: World): World
    requires w.entries != []
  {
    w.(entries := w.entries[1..], stack := w.stack + [w.entries[0].task])
  }

  function Top(w: World): nat
    requires w.stack != []
  {
    w.stack[|w.stack| - 1]
  }

  function Below(stack: seq<nat>): seq<nat>
    requires stack != []
  {
    stack[..|stack| - 1]
  }

  /** The innermost coroutine has done something. */
  function SetTop(w: World, task: Task, seen: seq<Event>): World
    requires w.stack != [] && Top(w) < |w.tasks| == |w.told|
  {
    w.(tasks := w.tasks[Top(w) := task], told := w.told[Top(w) := w.told[Top(w)] + seen])
  }

  /** A coroutine runs: it is innermost, unfinished and not inside a co_await. */
  ghost predicate Running(w: World, t: nat) {
    && Good(w) && w.stack != [] && Top(w) == t && t < |w.tasks|
    && w.tasks[t].promise.Pending? && w.tasks[t].awaits == None && Awaiting(w) < |w.stack|
  }

  /** The poller is not ready: one poll fewer to go, a fresh waiter queued, back to the loop. */
  function Park(w: World): World
    requires w.stack != [] && Top(w) < |w.tasks| == |w.told| && w.tasks[Top(w)].prog.Poll?
    requires w.tasks[Top(w)].prog.tries > 0
  {
    var t := Top(w);
    var task := w.tasks[t];
    SetTop(w, task.(prog := Poll(task.prog.tries - 1, task.prog.rest)), [Unready])
      .(entries := w.entries + [Waiter(t)], stack := Below(w.stack))
  }

  /** The program moves on within the coroutine. */
  function MoveOn(w: World, p: Program, env: seq<nat>, seen: seq<Event>): World
    requires w.stack != [] && Top(w) < |w.tasks| == |w.told|
  {
    SetTop(w, w.tasks[Top(w)].(prog := p, env := env), seen)
  }

  /** `return_value`: the promise is complete and the coroutine suspends for good. */
  function Finish(w: World, v: nat): World
    requires w.stack != [] && Top(w) < |w.tasks| == |w.told|
  {
    SetTop(w, w.tasks[Top(w)].(promise := Complete(v)), [Returned(v)]).(stack := Below(w.stack))
  }

  /** One step of the coroutine, unless it is a co_await on a task. */
  function Forward(w: World): World
    requires w.stack != [] && Top(w) < |w.tasks| == |w.told| && !w.tasks[Top(w)].prog.Await?
  {
    var task := w.tasks[Top(w)];
    match task.prog
    case Return(e) => Finish(w, EvalExpr(e, task.env))
    case Let(e, rest) => MoveOn(w, rest, [EvalExpr(e, task.env)] + task.env, [])
    case Poll(tries, rest) => if tries > 0 then Park(w) else MoveOn(w, rest, task.env, [Ready])
    case IfPositive(e, yes, no) =>
      var taken := EvalExpr(e, task.env) > 0;
      MoveOn(w, if taken then yes else no, task.env, [Took(taken)])
  }

  /** A child task is created and its handle queued; the coroutine stays on the stack. */
  function Spawn(w: World, child: Program, rest: Program): World
    requires w.stack != [] && Top(w) < |w.tasks| == |w.holds| && Depth(child) <= w.holds[Top(w)]
  {
    var t, c := Top(w), |w.tasks|;
    var task := w.tasks[t];
    w.(tasks := w.tasks[t := task.(prog := rest, awaits := Some(c))] + [Task(child, task.env, Pending, None, false)],
       entries := w.entries + [Start(c)],
       meant := w.meant + [Eval(child, task.env)],
       grant := w.grant + [Depth(child)],
       holds := w.holds[t := w.holds[t] - Depth(child)] + [Depth(child)],
       told := w.told + [[]],
       plan := w.plan + [Trace(child, task.env)])
  }

  /** `await_resume`: the child's value is moved out and becomes the latest one awaited. */
  function Collect(w: World, c: nat): World
    requires w.stack != [] && Top(w) < |w.tasks| == |w.holds| == |w.told| && c < |w.tasks|
    requires w.tasks[c].promise.Complete?
  {
    var t := Top(w);
    var task := w.tasks[t];
    var collected := task.(env := [w.tasks[c].promise.value] + task.env, awaits := None);
    w.(tasks := w.tasks[c := w.tasks[c].(promise := Moved)][t := collected],
       holds := w.holds[c := 0][t := w.holds[t] + w.holds[c]],
       told := w.told[t := w.told[t] + [Got(w.tasks[c].promise.value)]])
  }

  /** A task is created and queued from outside the loop. */
  function Launch(w: World, p: Program): World {
    w.(tasks := w.tasks + [Task(p, [], Pending, None, true)],
       entries := w.entries + [Start(|w.tasks|)],
       meant := w.meant + [Eval(p, [])],
       grant := w.grant + [Depth(p)],
       holds := w.holds + [Depth(p)],
       told := w.told + [[]],
       plan := w.plan + [Trace(p, [])])
  }

  // ---- Every step keeps the invariant and lowers the measure ----

  lemma {:induction false} SumFirst<T>(s: seq<T>, f: T -> nat)
    requires |s| > 0
    ensures Sum(s, f) == f(s[0]) + Sum(s[1..], f)
  {
    var n := |s| - 1;
    if n > 0 {
      SumFirst(s[..n], f);
      assert s[..n][1..] == s[1..][..n - 1];
    }
  }

  lemma TakePlaces(w: World, t: nat)
    requires w.entries != []
    ensures Placed(TakeEntry(w), t) == Placed(w, t)
  {
    SumFirst(w.entries, EntryFn(t));
    SumAppend(w.stack, w.entries[0].task, FrameFn(t));
  }

  /** What is queued is unfinished and not inside a co_await. */
  lemma EntryIsPending(w: World)
    requires Good(w) && w.entries != []
    ensures w.entries[0].task < |w.tasks| && w.tasks[w.entries[0].task].promise.Pending?
  {
    var t := w.entries[0].task;
    assert EntryOk(w, w.entries[0]);
    SumAt(w.entries, 0, EntryFn(t));
  }

  lemma TakeEntryKeeps(w: World)
    requires Good(w) && w.entries != []
    ensures Running(TakeEntry(w), w.entries[0].task)
    ensures Measure(TakeEntry(w)) < Measure(w) && Room(TakeEntry(w)) == Room(w)
    ensures Unfinished(TakeEntry(w)) == Unfinished(w)
  {
    var w' := TakeEntry(w);
    EntryIsPending(w);
    forall t | 0 <= t < |w.tasks|
      ensures Placed(w', t) == Live(w'.tasks[t]) && TaskOk(w', t)
    {
      TakePlaces(w, t);
      assert TaskOk(w, t);
    }
    forall k | 0 <= k < |w'.entries|
      ensures EntryOk(w', w'.entries[k])
    {
      assert EntryOk(w, w.entries[k + 1]);
    }
    assert EntryOk(w, w.entries[0]);
  }

  lemma SetTaskSums(tasks: seq<Task>, t: nat, task: Task)
    requires t < |tasks|
    ensures Sum(tasks[t := task], LiveFn()) + Live(tasks[t]) == Sum(tasks, LiveFn()) + Live(task)
    ensures Sum(tasks[t := task], WorkFn()) + TaskWork(tasks[t]) == Sum(tasks, WorkFn()) + TaskWork(task)
  {
    SumUpdate(tasks, t, task, LiveFn());
    SumUpdate(tasks, t, task, WorkFn());
  }

  lemma SetTaskShares(tasks: seq<Task>, t: nat, task: Task)
    requires t < |tasks|
    ensures Sum(tasks[t := task], OpenLaunchFn()) + OpenLaunch(tasks[t])
            == Sum(tasks, OpenLaunchFn()) + OpenLaunch(task)
    ensures Sum(tasks[t := task], OpenChildFn()) + OpenChild(tasks[t])
            == Sum(tasks, OpenChildFn()) + OpenChild(task)
    ensures Sum(tasks[t := task], InAwaitFn()) + InAwait(tasks[t])
            == Sum(tasks, InAwaitFn()) + InAwait(task)
  {
    SumUpdate(tasks, t, task, OpenLaunchFn());
    SumUpdate(tasks, t, task, OpenChildFn());
    SumUpdate(tasks, t, task, InAwaitFn());
  }

  lemma AddTaskShares(tasks: seq<Task>, task: Task)
    ensures Sum(tasks + [task], OpenLaunchFn()) == Sum(tasks, OpenLaunchFn()) + OpenLaunch(task)
    ensures Sum(tasks + [task], OpenChildFn()) == Sum(tasks, OpenChildFn()) + OpenChild(task)
    ensures Sum(tasks + [task], InAwaitFn()) == Sum(tasks, InAwaitFn()) + InAwait(task)
  {
    SumAppend(tasks, task, OpenLaunchFn());
    SumAppend(tasks, task, OpenChildFn());
    SumAppend(tasks, task, InAwaitFn());
  }

  /** Only the innermost coroutine t changes; it may leave the stack, and queue a waiter. */
  predicate TopChange(w: World, w': World, t: nat) {
    && w.stack != [] && Top(w) == t < |w.tasks| == |w'.tasks|
    && w'.tasks == w.tasks[t := w'.tasks[t]]
    && w'.tasks[t].awaits == None && !w'.tasks[t].promise.Moved?
    && w'.tasks[t].launched == w.tasks[t].launched
    && (w'.entries == w.entries
        || (w'.entries == w.entries + [Waiter(t)] && w'.tasks[t].prog.Poll?))
    && (w'.stack == w.stack || w'.stack == Below(w.stack))
    && w'.meant == w.meant && w'.grant == w.grant && w'.holds == w.holds && |w'.told| == |w.told|
  }

  lemma TopChangeTasks(w: World, w': World, t: nat, u: nat)
    requires Good(w) && TopChange(w, w', t) && u < |w.tasks| && u != t
    ensures TaskOk(w', u)
  {
    assert TaskOk(w, u);
  }

  lemma TopChangePlaces(w: World, w': World, t: nat, u: nat)
    requires TopChange(w, w', t)
    ensures Placed(w', u) + (if w'.stack == w.stack then 0 else FrameAt(t, u))
            == Placed(w, u) + (if w'.entries == w.entries then 0 else FrameAt(t, u))
  {
  }

  lemma TopChangeShares(w: World, w': World, t: nat)
    requires Running(w, t) && TopChange(w, w', t)
    ensures SharesOk(w'.tasks, |w'.stack|) && Awaiting(w') == Awaiting(w)
    ensures Unfinished(w') <= Unfinished(w)
    ensures w'.tasks[t].promise.Pending? ==> Unfinished(w') == Unfinished(w)
  {
    SetTaskShares(w.tasks, t, w'.tasks[t]);
    assert |Below(w.stack)| == |w.stack| - 1;
  }

  /** The coroutine in progress is not queued as well. */
  lemma TopIsNotQueued(w: World, k: nat)
    requires Good(w) && w.stack != [] && k < |w.entries|
    ensures w.entries[k].task != Top(w)
  {
    var t := Top(w);
    SumAt(w.entries, k, EntryFn(t));
    SumAt(w.stack, |w.stack| - 1, FrameFn(t));
    assert Placed(w, t) == Live(w.tasks[t]);
  }

  lemma TopChangeEntries(w: World, w': World, t: nat, k: nat)
    requires Good(w) && TopChange(w, w', t) && k < |w'.entries|
    ensures EntryOk(w', w'.entries[k])
  {
    if k < |w.entries| {
      assert EntryOk(w, w.entries[k]);
      TopIsNotQueued(w, k);
    }
  }

  /** It counts as unfinished as long as it is on the stack or queued. */
  predicate TopCounted(w: World, w': World, t: nat)
    requires t < |w'.tasks|
  {
    Live(w'.tasks[t]) + (if w'.stack == w.stack then 0 else 1)
    == 1 + (if w'.entries == w.entries then 0 else 1)
  }

  lemma TopChangePlaced(w: World, w': World, t: nat, u: nat)
    requires Running(w, t) && TopChange(w, w', t) && TopCounted(w, w', t) && u < |w.tasks|
    ensures Placed(w', u) == Live(w'.tasks[u])
  {
    TopChangePlaces(w, w', t, u);
    assert Placed(w, u) == Live(w.tasks[u]);
  }

  lemma TopChangeTotals(w: World, w': World, t: nat)
    requires Running(w, t) && TopChange(w, w', t) && TopCounted(w, w', t)
    requires TaskWork(w'.tasks[t]) + |w'.entries| < TaskWork(w.tasks[t]) + |w.entries|
    ensures |w'.entries| + |w'.stack| == Sum(w'.tasks, LiveFn())
    ensures Measure(w') < Measure(w) && Room(w') == Room(w)
  {
    SetTaskSums(w.tasks, t, w'.tasks[t]);
    assert |Below(w.stack)| == |w.stack| - 1;
  }

  lemma TopChangeKeeps(w: World, w': World, t: nat)
    requires Running(w, t) && TopChange(w, w', t) && TaskOk(w', t) && TopCounted(w, w', t)
    requires TaskWork(w'.tasks[t]) + |w'.entries| < TaskWork(w.tasks[t]) + |w.entries|
    ensures Good(w') && Measure(w') < Measure(w) && Room(w') == Room(w)
    ensures Awaiting(w') == Awaiting(w) && Unfinished(w') <= Unfinished(w)
  {
    TopChangeTotals(w, w', t);
    TopChangeShares(w, w', t);
    forall u | 0 <= u < |w'.tasks|
      ensures TaskOk(w', u) && Placed(w', u) == Live(w'.tasks[u])
    {
      if u != t {
        TopChangeTasks(w, w', t, u);
      }
      TopChangePlaced(w, w', t, u);
    }
    forall k | 0 <= k < |w'.entries|
      ensures EntryOk(w', w'.entries[k])
    {
      TopChangeEntries(w, w', t, k);
    }
  }

  lemma MoveOnIsTopChange(w: World, p: Program, env: seq<nat>, seen: seq<Event>)
    requires w.stack != [] && Running(w, Top(w))
    requires Eval(p, env) == Eval(w.tasks[Top(w)].prog, w.tasks[Top(w)].env)
    requires Depth(p) <= Depth(w.tasks[Top(w)].prog)
    ensures var t, w' := Top(w), MoveOn(w, p, env, seen);
            TopChange(w, w', t) && TopCounted(w, w', t) && TaskOk(w', t)
  {
    assert TaskOk(w, Top(w));
  }

  lemma MoveOnKeeps(w: World, p: Program, env: seq<nat>, seen: seq<Event>)
    requires w.stack != [] && Running(w, Top(w))
    requires var task := w.tasks[Top(w)];
             && Eval(p, env) == Eval(task.prog, task.env)
             && Depth(p) <= Depth(task.prog) && Work(p) < Work(task.prog)
    ensures Running(MoveOn(w, p, env, seen), Top(w))
    ensures Measure(MoveOn(w, p, env, seen)) < Measure(w) && Room(MoveOn(w, p, env, seen)) == Room(w)
    ensures Unfinished(MoveOn(w, p, env, seen)) <= Unfinished(w)
  {
    MoveOnIsTopChange(w, p, env, seen);
    TopChangeKeeps(w, MoveOn(w, p, env, seen), Top(w));
  }

  lemma ParkKeeps(w: World)
    requires w.stack != [] && Running(w, Top(w))
    requires w.tasks[Top(w)].prog.Poll? && w.tasks[Top(w)].prog.tries > 0
    ensures Good(Park(w)) && Measure(Park(w)) < Measure(w) && Room(Park(w)) == Room(w)
    ensures Unfinished(Park(w)) <= Unfinished(w)
  {
    assert TaskOk(w, Top(w));
    assert |Park(w).stack| < |w.stack| && |Park(w).entries| > |w.entries|;
    TopChangeKeeps(w, Park(w), Top(w));
  }

  lemma FinishKeeps(w: World, v: nat)
    requires w.stack != [] && Running(w, Top(w)) && w.tasks[Top(w)].prog.Return?
    requires v == EvalExpr(w.tasks[Top(w)].prog.e, w.tasks[Top(w)].env)
    ensures Good(Finish(w, v)) && Measure(Finish(w, v)) < Measure(w) && Room(Finish(w, v)) == Room(w)
    ensures Unfinished(Finish(w, v)) <= Unfinished(w)
  {
    assert TaskOk(w, Top(w));
    assert |Finish(w, v).stack| < |w.stack|;
    TopChangeKeeps(w, Finish(w, v), Top(w));
  }

  // ---- Children ----

  /** Coroutine t begins or ends a co_await; a task that is inside none may join. */
  lemma AwaitsAfter(tasks: seq<Task>, tasks': seq<Task>, t: nat)
    requires AwaitsOk(tasks) && t < |tasks| <= |tasks'|
    requires forall u :: 0 <= u < |tasks'| && u != t ==>
               tasks'[u].awaits == if u < |tasks| then tasks[u].awaits else None
    requires tasks'[t].awaits.Some? ==> forall u :: 0 <= u < |tasks| ==> tasks[u].awaits != tasks'[t].awaits
    ensures AwaitsOk(tasks')
  {
  }

  /** A coroutine inside a co_await: its child is queued, somewhere above it, or complete. */
  ghost predicate Waiting(w: World, t: nat, c: nat) {
    && Good(w) && w.stack != [] && Top(w) == t < |w.tasks| && c < |w.tasks|
    && w.tasks[t].promise.Pending? && w.tasks[t].awaits == Some(c) && c !in w.stack
  }

  lemma NewTaskIsNowhere(w: World)
    requires Good(w)
    ensures Placed(w, |w.tasks|) == 0
    ensures forall t :: 0 <= t < |w.tasks| ==> w.tasks[t].awaits != Some(|w.tasks|)
  {
    forall k | 0 <= k < |w.entries|
      ensures EntryAt(w.entries[k], |w.tasks|) == 0
    {
      assert EntryOk(w, w.entries[k]);
    }
    SumIsZero(w.entries, EntryFn(|w.tasks|));
    SumIsZero(w.stack, FrameFn(|w.tasks|));
    forall t | 0 <= t < |w.tasks|
      ensures w.tasks[t].awaits != Some(|w.tasks|)
    {
      assert TaskOk(w, t);
    }
  }

  lemma SpawnTasks(w: World, child: Program, rest: Program, u: nat)
    requires w.stack != [] && Running(w, Top(w)) && w.tasks[Top(w)].prog == Await(child, rest)
    requires Depth(child) < w.holds[Top(w)] && u <= |w.tasks|
    ensures |Spawn(w, child, rest).tasks| == |w.tasks| + 1
    ensures TaskOk(Spawn(w, child, rest), u)
  {
    if u < |w.tasks| {
      assert TaskOk(w, u);
    }
    assert TaskOk(w, Top(w));
  }

  lemma SpawnRoom(w: World, child: Program, rest: Program)
    requires w.stack != [] && Running(w, Top(w)) && Depth(child) < w.holds[Top(w)]
    ensures Room(Spawn(w, child, rest)) == Room(w)
  {
    var t := Top(w);
    var kept: nat := w.holds[t] - Depth(child);
    SumUpdate(w.holds, t, kept, Itself());
    SumAppend(w.holds[t := kept], Depth(child), Itself());
  }

  lemma SpawnSums(w: World, child: Program, rest: Program)
    requires w.stack != [] && Running(w, Top(w)) && w.tasks[Top(w)].prog == Await(child, rest)
    requires Depth(child) < w.holds[Top(w)]
    ensures var w' := Spawn(w, child, rest);
            && Sum(w'.tasks, LiveFn()) == Sum(w.tasks, LiveFn()) + 1
            && Measure(w') < Measure(w) && Room(w') == Room(w)
  {
    var t := Top(w);
    var parent := w.tasks[t].(prog := rest, awaits := Some(|w.tasks|));
    var born := Task(child, w.tasks[t].env, Pending, None, false);
    SpawnRoom(w, child, rest);
    SetTaskSums(w.tasks, t, parent);
    SumAppend(w.tasks[t := parent], born, LiveFn());
    SumAppend(w.tasks[t := parent], born, WorkFn());
  }

  lemma SpawnShares(w: World, child: Program, rest: Program)
    requires w.stack != [] && Running(w, Top(w)) && w.tasks[Top(w)].prog == Await(child, rest)
    requires Depth(child) < w.holds[Top(w)]
    ensures var w' := Spawn(w, child, rest);
            SharesOk(w'.tasks, |w'.stack|) && Unfinished(w') == Unfinished(w)
  {
    var t := Top(w);
    var parent := w.tasks[t].(prog := rest, awaits := Some(|w.tasks|));
    SetTaskShares(w.tasks, t, parent);
    AddTaskShares(w.tasks[t := parent], Task(child, w.tasks[t].env, Pending, None, false));
  }

  lemma SpawnPlaces(w: World, child: Program, rest: Program, u: nat)
    requires w.stack != [] && Running(w, Top(w)) && w.tasks[Top(w)].prog == Await(child, rest)
    requires Depth(child) < w.holds[Top(w)] && u <= |w.tasks|
    ensures var w' := Spawn(w, child, rest);
            |w'.tasks| == |w.tasks| + 1 && Placed(w', u) == Live(w'.tasks[u])
  {
    NewTaskIsNowhere(w);
    SumAppend(w.entries, Start(|w.tasks|), EntryFn(u));
    if u < |w.tasks| {
      assert Placed(w, u) == Live(w.tasks[u]);
    }
  }

  lemma SpawnEntries(w: World, child: Program, rest: Program, k: nat)
    requires w.stack != [] && Running(w, Top(w)) && w.tasks[Top(w)].prog == Await(child, rest)
    requires Depth(child) < w.holds[Top(w)] && k <= |w.entries|
    ensures var w' := Spawn(w, child, rest);
            |w'.entries| == |w.entries| + 1 && EntryOk(w', w'.entries[k])
  {
    if k < |w.entries| {
      assert EntryOk(w, w.entries[k]);
      TopIsNotQueued(w, k);
    }
  }

  lemma SpawnAwaits(w: World, child: Program, rest: Program)
    requires w.stack != [] && Running(w, Top(w)) && w.tasks[Top(w)].prog == Await(child, rest)
    requires Depth(child) < w.holds[Top(w)]
    ensures AwaitsOk(Spawn(w, child, rest).tasks)
  {
    NewTaskIsNowhere(w);
    AwaitsAfter(w.tasks, Spawn(w, child, rest).tasks, Top(w));
  }

  lemma SpawnIsGood(w: World, child: Program, rest: Program)
    requires w.stack != [] && Running(w, Top(w)) && w.tasks[Top(w)].prog == Await(child, rest)
    requires Depth(child) < w.holds[Top(w)]
    ensures Good(Spawn(w, child, rest))
  {
    var w' := Spawn(w, child, rest);
    SpawnSums(w, child, rest);
    SpawnShares(w, child, rest);
    SpawnAwaits(w, child, rest);
    forall u | 0 <= u < |w'.tasks|
      ensures TaskOk(w', u) && Placed(w', u) == Live(w'.tasks[u])
    {
      SpawnTasks(w, child, rest, u);
      SpawnPlaces(w, child, rest, u);
    }
    forall k | 0 <= k < |w'.entries|
      ensures EntryOk(w', w'.entries[k])
    {
      SpawnEntries(w, child, rest, k);
    }
  }

  lemma SpawnKeeps(w: World, child: Program, rest: Program)
    requires w.stack != [] && Running(w, Top(w)) && w.tasks[Top(w)].prog == Await(child, rest)
    ensures Depth(child) < w.holds[Top(w)]
    ensures Waiting(Spawn(w, child, rest), Top(w), |w.tasks|)
    ensures var w' := Spawn(w, child, rest);
            Measure(w') < Measure(w) && Room(w') == Room(w) && Unfinished(w') == Unfinished(w)
  {
    assert TaskOk(w, Top(w));
    SpawnIsGood(w, child, rest);
    SpawnSums(w, child, rest);
    SpawnShares(w, child, rest);
  }

  /** A nested loop never finds the queue empty while its child is unfinished. */
  lemma AwaitedIsQueued(w: World, t: nat, c: nat)
    requires Waiting(w, t, c) && !w.tasks[c].promise.Complete?
    ensures w.entries != [] && w.tasks[c].promise.Pending?
  {
    assert TaskOk(w, t);
    assert Placed(w, c) == Live(w.tasks[c]);
    SumIsZero(w.stack, FrameFn(c));
  }

  lemma CollectTasks(w: World, t: nat, c: nat, u: nat)
    requires Waiting(w, t, c) && w.tasks[c].promise.Complete? && u < |w.tasks|
    ensures TaskOk(Collect(w, c), u)
  {
    assert TaskOk(w, u);
    assert TaskOk(w, t) && TaskOk(w, c);
  }

  lemma MoveOutSums(tasks: seq<Task>, holds: seq<nat>, t: nat, c: nat, env: seq<nat>)
    requires t < |tasks| == |holds| && c < |tasks| && t != c && tasks[c].promise.Complete?
    ensures var tasks' := tasks[c := tasks[c].(promise := Moved)]
                               [t := tasks[t].(env := env, awaits := None)];
            && Sum(tasks', LiveFn()) == Sum(tasks, LiveFn())
            && Sum(tasks', WorkFn()) == Sum(tasks, WorkFn())
            && Sum(holds[c := 0][t := holds[t] + holds[c]], Itself()) == Sum(holds, Itself())
  {
    var moved := tasks[c := tasks[c].(promise := Moved)];
    SetTaskSums(tasks, c, moved[c]);
    SetTaskSums(moved, t, tasks[t].(env := env, awaits := None));
    SumUpdate(holds, c, 0, Itself());
    SumUpdate(holds[c := 0], t, holds[t] + holds[c], Itself());
  }

  lemma CollectSums(w: World, t: nat, c: nat)
    requires w.stack != [] && Top(w) == t < |w.tasks| == |w.holds| == |w.told|
    requires t != c < |w.tasks| && w.tasks[c].promise.Complete?
    ensures var w' := Collect(w, c);
            && Sum(w'.tasks, LiveFn()) == Sum(w.tasks, LiveFn())
            && Measure(w') == Measure(w) && Room(w') == Room(w)
  {
    MoveOutSums(w.tasks, w.holds, t, c, [w.tasks[c].promise.value] + w.tasks[t].env);
  }

  lemma MoveOutShares(tasks: seq<Task>, t: nat, c: nat, env: seq<nat>)
    requires t < |tasks| && c < |tasks| && t != c && tasks[t].awaits.Some?
    requires tasks[c].promise.Complete? && !tasks[c].launched
    ensures var tasks' := tasks[c := tasks[c].(promise := Moved)]
                               [t := tasks[t].(env := env, awaits := None)];
            && Sum(tasks', OpenChildFn()) + 1 == Sum(tasks, OpenChildFn())
            && Sum(tasks', InAwaitFn()) + 1 == Sum(tasks, InAwaitFn())
            && Sum(tasks', OpenLaunchFn()) == Sum(tasks, OpenLaunchFn())
  {
    var moved := tasks[c := tasks[c].(promise := Moved)];
    SetTaskShares(tasks, c, moved[c]);
    SetTaskShares(moved, t, tasks[t].(env := env, awaits := None));
  }

  lemma CollectShares(w: World, t: nat, c: nat)
    requires Waiting(w, t, c) && w.tasks[c].promise.Complete?
    ensures var w' := Collect(w, c);
            && SharesOk(w'.tasks, |w'.stack|) && Awaiting(w') < |w'.stack|
            && Unfinished(w') == Unfinished(w)
  {
    assert TaskOk(w, t);
    MoveOutShares(w.tasks, t, c, [w.tasks[c].promise.value] + w.tasks[t].env);
  }

  lemma CollectEntries(w: World, t: nat, c: nat, k: nat)
    requires Waiting(w, t, c) && w.tasks[c].promise.Complete? && k < |w.entries|
    ensures EntryOk(Collect(w, c), w.entries[k])
  {
  }

  lemma CollectPlaces(w: World, t: nat, c: nat, u: nat)
    requires Waiting(w, t, c) && w.tasks[c].promise.Complete? && u < |w.tasks|
    ensures Placed(Collect(w, c), u) == Live(Collect(w, c).tasks[u])
  {
  }

  lemma CollectAwaits(w: World, t: nat, c: nat)
    requires Waiting(w, t, c) && w.tasks[c].promise.Complete?
    ensures AwaitsOk(Collect(w, c).tasks)
  {
    AwaitsAfter(w.tasks, Collect(w, c).tasks, t);
  }

  /** `await_resume` finds the child's value, and it is the one the program means. */
  lemma CollectKeeps(w: World, t: nat, c: nat)
    requires Waiting(w, t, c) && w.tasks[c].promise.Complete?
    ensures Running(Collect(w, c), t)
    ensures Measure(Collect(w, c)) == Measure(w) && Room(Collect(w, c)) == Room(w)
    ensures Unfinished(Collect(w, c)) == Unfinished(w)
  {
    var w' := Collect(w, c);
    CollectSums(w, t, c);
    CollectShares(w, t, c);
    CollectAwaits(w, t, c);
    forall u | 0 <= u < |w'.tasks|
      ensures TaskOk(w', u) && Placed(w', u) == Live(w'.tasks[u])
    {
      CollectTasks(w, t, c, u);
      CollectPlaces(w, t, c, u);
    }
    forall k | 0 <= k < |w'.entries|
      ensures EntryOk(w', w'.entries[k])
    {
      CollectEntries(w, t, c, k);
    }
  }

  // ---- Launching, capacity and the end of a run ----

  lemma LaunchTask(w: World, p: Program, u: nat)
    requires Good(w) && u <= |w.tasks|
    ensures |Launch(w, p).tasks| == |w.tasks| + 1 && TaskOk(Launch(w, p), u)
  {
    if u < |w.tasks| {
      assert TaskOk(w, u);
    }
  }

  lemma LaunchPlaces(w: World, p: Program, u: nat)
    requires Good(w) && u <= |w.tasks|
    ensures |Launch(w, p).tasks| == |w.tasks| + 1
    ensures Placed(Launch(w, p), u) == Live(Launch(w, p).tasks[u])
  {
    NewTaskIsNowhere(w);
    SumAppend(w.entries, Start(|w.tasks|), EntryFn(u));
    if u < |w.tasks| {
      assert Placed(w, u) == Live(w.tasks[u]);
    }
  }

  lemma LaunchEntries(w: World, p: Program, k: nat)
    requires Good(w) && k <= |w.entries|
    ensures var w' := Launch(w, p); |w'.entries| == |w.entries| + 1 && EntryOk(w', w'.entries[k])
  {
    if k < |w.entries| {
      assert EntryOk(w, w.entries[k]);
    }
  }

  lemma LaunchSums(w: World, p: Program)
    requires Good(w)
    ensures Sum(Launch(w, p).tasks, LiveFn()) == Sum(w.tasks, LiveFn()) + 1
    ensures Room(Launch(w, p)) == Room(w) + Depth(p)
    ensures SharesOk(Launch(w, p).tasks, |w.stack|) && Awaiting(Launch(w, p)) == Awaiting(w)
    ensures Unfinished(Launch(w, p)) == Unfinished(w) + 1
  {
    AddTaskShares(w.tasks, Launch(w, p).tasks[|w.tasks|]);
    SumAppend(w.tasks, Launch(w, p).tasks[|w.tasks|], LiveFn());
    SumAppend(w.holds, Depth(p), Itself());
  }

  lemma LaunchAwaits(w: World, p: Program)
    requires Good(w)
    ensures AwaitsOk(Launch(w, p).tasks)
  {
  }

  lemma LaunchKeeps(w: World, p: Program)
    requires Good(w)
    ensures Good(Launch(w, p)) && Room(Launch(w, p)) == Room(w) + Depth(p)
    ensures Unfinished(Launch(w, p)) == Unfinished(w) + 1
  {
    var w' := Launch(w, p);
    LaunchSums(w, p);
    LaunchAwaits(w, p);
    forall u | 0 <= u < |w'.tasks|
      ensures TaskOk(w', u) && Placed(w', u) == Live(w'.tasks[u])
    {
      LaunchTask(w, p, u);
      LaunchPlaces(w, p, u);
    }
    forall k | 0 <= k < |w'.entries|
      ensures EntryOk(w', w'.entries[k])
    {
      LaunchEntries(w, p, k);
    }
  }

  lemma {:induction false} PendingHolds(tasks: seq<Task>, holds: seq<nat>)
    requires |tasks| == |holds|
    requires forall t :: 0 <= t < |tasks| ==> Live(tasks[t]) <= holds[t]
    ensures Sum(tasks, LiveFn()) <= Sum(holds, Itself())
  {
    if |tasks| > 0 {
      PendingHolds(tasks[..|tasks| - 1], holds[..|tasks| - 1]);
    }
  }

  lemma {:induction false} LiveAreLaunchedOrChildren(tasks: seq<Task>)
    ensures Sum(tasks, OpenLaunchFn()) <= Sum(tasks, LiveFn())
    ensures Sum(tasks, LiveFn()) <= Sum(tasks, OpenLaunchFn()) + Sum(tasks, OpenChildFn())
  {
    if |tasks| > 0 {
      LiveAreLaunchedOrChildren(tasks[..|tasks| - 1]);
    }
  }

  /** A nested await moves its coroutine from the queue to the stack, so the queue never holds
      more entries than there are unfinished launched tasks, however deep they nest; it holds
      one fewer while a coroutine runs, and exactly as many between runs. */
  lemma EntriesFit(w: World)
    requires Good(w)
    ensures |w.entries| <= Unfinished(w)
    ensures Awaiting(w) < |w.stack| ==> |w.entries| < Unfinished(w)
    ensures w.stack == [] ==> |w.entries| == Unfinished(w)
  {
    LiveAreLaunchedOrChildren(w.tasks);
  }

  /** The nested runs never go deeper than the longest await chains of the launched programs
      together, less what is queued. */
  lemma StackFits(w: World)
    requires Good(w)
    ensures |w.entries| + |w.stack| == Sum(w.tasks, LiveFn()) <= Room(w)
  {
    forall t | 0 <= t < |w.tasks|
      ensures Live(w.tasks[t]) <= w.holds[t]
    {
      assert TaskOk(w, t);
    }
    PendingHolds(w.tasks, w.holds);
  }

  /** With nothing queued and nothing on the stack every launched task has its value. */
  lemma IdleMeansDone(w: World, t: nat)
    requires Good(w) && w.entries == [] && w.stack == [] && t < |w.tasks| && w.tasks[t].launched
    ensures w.tasks[t].promise == Complete(w.meant[t])
  {
    assert Placed(w, t) == Live(w.tasks[t]);
    assert TaskOk(w, t);
  }

  // ---- What the tasks do is what their programs say ----

  lemma TakeEntryTells(w: World)
    requires Told(w) && w.entries != []
    ensures Told(TakeEntry(w))
  {
    forall t | 0 <= t < |w.tasks|
      ensures TellOk(TakeEntry(w), t)
    {
      assert TellOk(w, t);
    }
  }

  /** Only the innermost coroutine does something. */
  lemma TopTells(w: World, w': World)
    requires Told(w) && w.stack != [] && Top(w) < |w.tasks| == |w'.tasks| == |w'.told|
    requires w'.tasks == w.tasks[Top(w) := w'.tasks[Top(w)]]
    requires w'.told == w.told[Top(w) := w'.told[Top(w)]]
    requires w'.plan == w.plan && w'.meant == w.meant
    requires TellOk(w', Top(w))
    ensures Told(w')
  {
    forall t | 0 <= t < |w.tasks|
      ensures TellOk(w', t)
    {
      assert TellOk(w, t);
    }
  }

  lemma MoveOnTells(w: World, p: Program, env: seq<nat>, seen: seq<Event>)
    requires Told(w) && w.stack != [] && Running(w, Top(w))
    requires seen + Trace(p, env) == Trace(w.tasks[Top(w)].prog, w.tasks[Top(w)].env)
    ensures Told(MoveOn(w, p, env, seen))
  {
    var t := Top(w);
    assert TellOk(w, t);
    assert w.told[t] + seen + Trace(p, env) == w.told[t] + (seen + Trace(p, env));
    TopTells(w, MoveOn(w, p, env, seen));
  }

  lemma ParkTells(w: World)
    requires Told(w) && w.stack != [] && Running(w, Top(w))
    requires w.tasks[Top(w)].prog.Poll? && w.tasks[Top(w)].prog.tries > 0
    ensures Told(Park(w))
  {
    var t := Top(w);
    var prog, env := w.tasks[t].prog, w.tasks[t].env;
    assert TellOk(w, t);
    OnePollLess(prog.tries);
    var rest := Trace(Poll(prog.tries - 1, prog.rest), env);
    assert [Unready] + rest == Trace(prog, env);
    assert w.told[t] + [Unready] + rest == w.told[t] + ([Unready] + rest);
    TopTells(w, Park(w));
  }

  lemma FinishTells(w: World, v: nat)
    requires Told(w) && w.stack != [] && Running(w, Top(w)) && w.tasks[Top(w)].prog.Return?
    requires v == EvalExpr(w.tasks[Top(w)].prog.e, w.tasks[Top(w)].env)
    ensures Told(Finish(w, v))
  {
    assert TellOk(w, Top(w));
    TopTells(w, Finish(w, v));
  }

  /** The step ends the coroutine or suspends it. */
  predicate Stops(p: Program) {
    p.Return? || (p.Poll? && p.tries > 0)
  }

  lemma ForwardKeeps(w: World)
    requires w.stack != [] && Running(w, Top(w)) && !w.tasks[Top(w)].prog.Await?
    ensures var w' := Forward(w);
            && Measure(w') < Measure(w) && Room(w') == Room(w) && Unfinished(w') <= Unfinished(w)
            && Good(w')
    ensures Stops(w.tasks[Top(w)].prog) ==> Forward(w).stack == Below(w.stack)
    ensures !Stops(w.tasks[Top(w)].prog) ==> Running(Forward(w), Top(w))
  {
    var task := w.tasks[Top(w)];
    match task.prog
    case Return(e) => FinishKeeps(w, EvalExpr(e, task.env));
    case Let(e, rest) => MoveOnKeeps(w, rest, [EvalExpr(e, task.env)] + task.env, []);
    case Poll(tries, rest) =>
      if tries > 0 {
        ParkKeeps(w);
      } else {
        MoveOnKeeps(w, rest, task.env, [Ready]);
      }
    case IfPositive(e, yes, no) =>
      var taken := EvalExpr(e, task.env) > 0;
      MoveOnKeeps(w, if taken then yes else no, task.env, [Took(taken)]);
  }

  lemma SpawnTells(w: World, child: Program, rest: Program)
    requires Told(w) && w.stack != [] && Running(w, Top(w)) && w.tasks[Top(w)].prog == Await(child, rest)
    requires Depth(child) < w.holds[Top(w)]
    ensures Told(Spawn(w, child, rest))
  {
    var w', n := Spawn(w, child, rest), |w.tasks|;
    assert [] + Trace(child, w.tasks[Top(w)].env) == Trace(child, w.tasks[Top(w)].env);
    forall t | 0 <= t < |w'.tasks|
      ensures TellOk(w', t)
    {
      assert t < n ==> TellOk(w, t);
    }
  }

  lemma CollectTells(w: World, t: nat, c: nat)
    requires Told(w) && Waiting(w, t, c) && w.tasks[c].promise.Complete?
    ensures Told(Collect(w, c))
  {
    var w' := Collect(w, c);
    assert TellOk(w, t) && TaskOk(w, c) && TaskOk(w, t);
    var got, rest := [Got(w.meant[c])], Trace(w.tasks[t].prog, [w.meant[c]] + w.tasks[t].env);
    assert w.told[t] + got + rest == w.told[t] + (got + rest);
    forall u | 0 <= u < |w'.tasks|
      ensures TellOk(w', u)
    {
      assert TellOk(w, u);
    }
  }

  lemma LaunchTells(w: World, p: Program)
    requires Told(w)
    ensures Told(Launch(w, p))
  {
    var w' := Launch(w, p);
    assert [] + Trace(p, []) == Trace(p, []);
    forall t | 0 <= t < |w'.tasks|
      ensures TellOk(w', t)
    {
      assert t < |w.tasks| ==> TellOk(w, t);
    }
  }
}
