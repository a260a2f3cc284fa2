/** The event loop and the coroutines that run on it (src/event_loop.cc, src/basic_task.cc,
    `parallel_expected` of src/executor.cc). An await runs the loop again on the stack, as
    the recursion of these methods does. */
module EventLoopClass {
  import opened Wrappers
  import opened Sums
  import opened TaskPrograms
  import opened Scheduler
  import opened RingbufQueueClass

  /** Whatever the tasks do is added to what they have done. */
  predicate Tells(w: World, w': World) {
    && |w.told| <= |w'.told| && w.plan <= w'.plan
    && forall t :: 0 <= t < |w.told| ==> w.told[t] <= w'.told[t]
  }

  /** From w to w' the frames s stay as they were, tasks keep their meanings and grants, and
      nothing is launched. */
  ghost predicate Carries(w: World, w': World, s: seq<nat>) {
    && Unfinished(w') <= Unfinished(w) && Room(w') == Room(w)
    && w.meant <= w'.meant && w.grant <= w'.grant && Tells(w, w')
    && |w.tasks| <= |w'.tasks|
    && (forall t :: 0 <= t < |w.tasks| ==> w'.tasks[t].launched == w.tasks[t].launched)
    && forall k :: 0 <= k < |s| ==> Untouched(w, w', s[k])
  }

  predicate Untouched(w: World, w': World, t: nat) {
    && t < |w.tasks| && t < |w'.tasks| && w'.tasks[t] == w.tasks[t]
    && t < |w.told| && t < |w'.told| && w'.told[t] == w.told[t]
  }

  /** Coroutine t has awaited the child it was about to, and runs on with its value. */
  ghost predicate Awaited(w: World, w': World, t: nat) {
    && t < |w.tasks| && t < |w'.tasks| && t < |w.told| && t < |w'.told|
    && var task := w.tasks[t];
       && task.prog.Await?
       && var v := Eval(task.prog.child, task.env);
          && w'.tasks[t] == task.(prog := task.prog.rest, env := [v] + task.env)
          && w'.told[t] == w.told[t] + [Got(v)]
  }

  /** A coroutine is on the stack only once. */
  lemma TopIsNotBelow(w: World, t: nat)
    requires Good(w) && w.stack != [] && Top(w) == t < |w.tasks|
    ensures t !in Below(w.stack)
  {
    assert Placed(w, t) == Live(w.tasks[t]) <= 1;
    forall k | 0 <= k < |w.stack| - 1
      ensures w.stack[k] != t
    {
      SumAtTwo(w.stack, k, |w.stack| - 1, FrameFn(t));
    }
  }

  /** Only the innermost coroutine has done something. */
  predicate TopOnly(w: World, w': World)
    requires w.stack != []
  {
    var t := Top(w);
    && t < |w.tasks| == |w'.tasks| && t < |w.told| == |w'.told|
    && w'.tasks == w.tasks[t := w'.tasks[t]] && w'.tasks[t].launched == w.tasks[t].launched
    && w'.told == w.told[t := w'.told[t]] && w.told[t] <= w'.told[t]
    && w'.meant == w.meant && w'.grant == w.grant && w'.plan == w.plan
  }

  lemma ForwardIsTop(w: World)
    requires w.stack != [] && Top(w) < |w.tasks| == |w.told| && !w.tasks[Top(w)].prog.Await?
    ensures TopOnly(w, Forward(w))
  {
  }

  /** A step of the innermost coroutine alone leaves the frames below it alone. */
  lemma CarriesTop(w: World, w': World)
    requires Good(w) && w.stack != [] && TopOnly(w, w')
    requires Unfinished(w') <= Unfinished(w) && Room(w') == Room(w)
    ensures Carries(w, w', Below(w.stack))
  {
    TopIsNotBelow(w, Top(w));
    assert Tells(w, w');
    forall k | 0 <= k < |w.stack| - 1
      ensures Untouched(w, w', Below(w.stack)[k])
    {
      assert Below(w.stack)[k] != Top(w);
    }
  }

  lemma CarriesForward(w: World)
    requires w.stack != [] && Running(w, Top(w)) && !w.tasks[Top(w)].prog.Await?
    ensures Carries(w, Forward(w), Below(w.stack)) && Measure(Forward(w)) < Measure(w)
  {
    ForwardKeeps(w);
    ForwardIsTop(w);
    CarriesTop(w, Forward(w));
  }

  lemma CarriesTake(w: World)
    requires Good(w) && w.entries != []
    ensures Carries(w, TakeEntry(w), w.stack)
  {
    TakeEntryKeeps(w);
  }

  lemma CarriesSpawn(w: World, child: Program, rest: Program)
    requires w.stack != [] && Running(w, Top(w)) && w.tasks[Top(w)].prog == Await(child, rest)
    requires Depth(child) < w.holds[Top(w)]
    ensures Carries(w, Spawn(w, child, rest), Below(w.stack))
  {
    SpawnKeeps(w, child, rest);
    TopIsNotBelow(w, Top(w));
  }

  lemma CarriesCollect(w: World, t: nat, c: nat)
    requires Waiting(w, t, c) && w.tasks[c].promise.Complete?
    ensures Carries(w, Collect(w, c), Below(w.stack))
  {
    var w' := Collect(w, c);
    CollectKeeps(w, t, c);
    TopIsNotBelow(w, t);
    assert Tells(w, w');
    forall k | 0 <= k < |w.stack| - 1
      ensures Untouched(w, w', Below(w.stack)[k])
    {
      assert Below(w.stack)[k] == w.stack[k] != c;
    }
  }

  lemma TellsThrough(w: World, mid: World, w': World)
    requires Tells(w, mid) && Tells(mid, w')
    ensures Tells(w, w')
  {
    forall t | 0 <= t < |w.told|
      ensures w.told[t] <= w'.told[t]
    {
      assert w.told[t] <= mid.told[t] && mid.told[t] <= w'.told[t];
    }
  }

  lemma CarriesThrough(w: World, mid: World, w': World, s: seq<nat>)
    requires Carries(w, mid, s) && Carries(mid, w', s)
    ensures Carries(w, w', s)
  {
    TellsThrough(w, mid, w');
  }

  lemma StillWaiting(w: World, w': World, t: nat, c: nat)
    requires Waiting(w, t, c) && Good(w') && w'.stack == w.stack && Carries(w, w', w.stack)
    ensures Waiting(w', t, c)
  {
    assert w.stack[|w.stack| - 1] == t;
  }

  lemma CarriesLess(w: World, w': World, stack: seq<nat>)
    requires stack != [] && Carries(w, w', stack)
    ensures Carries(w, w', Below(stack))
  {
  }

  lemma AwaitedValue(w: World, child: Program, rest: Program, ready: World, t: nat, c: nat)
    requires w.stack != [] && Top(w) == t && Running(w, t) && w.tasks[t].prog == Await(child, rest)
    requires Depth(child) < w.holds[t] && c == |w.tasks|
    requires Waiting(ready, t, c) && ready.tasks[c].promise.Complete?
    requires Carries(Spawn(w, child, rest), ready, w.stack)
    ensures Awaited(w, Collect(ready, c), t)
  {
    var spawned := Spawn(w, child, rest);
    assert Untouched(spawned, ready, w.stack[|w.stack| - 1]);
    assert TaskOk(ready, c);
    assert ready.meant[c] == spawned.meant[c];
  }

  class EventLoop {
    const q: RingbufQueue<Entry>
    var tasks: seq<Task>
    ghost var stack: seq<nat>
    ghost var meant: seq<nat>
    ghost var grant: seq<nat>
    ghost var holds: seq<nat>
    ghost var told: seq<seq<Event>>
    ghost var plan: seq<seq<Event>>

    ghost function State(): World
      reads this, q, q.slots
      requires q.Valid()
    {
      World(tasks, q.Contents(), stack, meant, grant, holds, told, plan)
    }

    /** The unfinished launched tasks fit the ring. */
    ghost predicate Valid()
      reads this, q, q.slots
    {
      q.Valid() && Good(State()) && Told(State()) && Unfinished(State()) < q.slots.Length
    }

    /** The coroutine t is in progress, innermost. */
    ghost predicate Runs(t: nat)
      reads this, q, q.slots
    {
      q.Valid() && Running(State(), t) && Told(State()) && Unfinished(State()) < q.slots.Length
    }

    constructor (capacity: nat)
      ensures fresh(q) && fresh(q.slots) && q.slots.Length == capacity
      ensures 2 <= capacity ==> Valid() && State() == World([], [], [], [], [], [], [], [])
    {
      q := new RingbufQueue(capacity);
      tasks, stack, meant, grant, holds, told, plan := [], [], [], [], [], [], [];
    }

    /** `push`: the ring has room, so it does not wait. */
    method Push(e: Entry)
      requires q.Valid() && |q.Contents()| + 1 < q.slots.Length
      modifies q, q.slots
      ensures q.Valid() && q.Contents() == old(q.Contents()) + [e]
    {
      q.Push(e, 0, 0);
    }

    /** `return_value` and the final suspension. */
    method ReturnValue(t: nat, v: nat)
      requires Runs(t) && tasks[t].prog.Return? && v == EvalExpr(tasks[t].prog.e, tasks[t].env)
      modifies this`tasks, this`stack, this`told
      ensures Valid() && State() == Finish(old(State()), v)
    {
      FinishKeeps(State(), v);
      FinishTells(State(), v);
      tasks := tasks[t := tasks[t].(promise := Complete(v))];
      told := told[t := told[t] + [Returned(v)]];
      stack := Below(stack);
      assert State() == Finish(old(State()), v);
    }

    /** The coroutine runs on without suspending. */
    method Continue(t: nat, p: Program, env: seq<nat>, ghost seen: seq<Event>)
      requires Runs(t)
      requires Eval(p, env) == Eval(tasks[t].prog, tasks[t].env)
      requires Depth(p) <= Depth(tasks[t].prog) && Work(p) < Work(tasks[t].prog)
      requires seen + Trace(p, env) == Trace(tasks[t].prog, tasks[t].env)
      modifies this`tasks, this`told
      ensures Runs(t) && State() == MoveOn(old(State()), p, env, seen)
    {
      MoveOnKeeps(State(), p, env, seen);
      MoveOnTells(State(), p, env, seen);
      tasks := tasks[t := tasks[t].(prog := p, env := env)];
      told := told[t := told[t] + seen];
      assert State() == MoveOn(old(State()), p, env, seen);
    }

    /** A poll that was not ready: a fresh waiter is queued and the coroutine suspends. */
    method Suspend(t: nat)
      requires Runs(t) && tasks[t].prog.Poll? && tasks[t].prog.tries > 0
      modifies this`tasks, this`stack, this`told, q, q.slots
      ensures Valid() && State() == Park(old(State()))
    {
      ParkKeeps(State());
      ParkTells(State());
      EntriesFit(Park(State()));
      tasks := tasks[t := tasks[t].(prog := Poll(tasks[t].prog.tries - 1, tasks[t].prog.rest))];
      told := told[t := told[t] + [Unready]];
      stack := Below(stack);
      Push(Waiter(t));
      assert State() == Park(old(State()));
    }

    /** `run_one`: takes the oldest entry and resumes it, if there is one. */
    method RunOne() returns (ran: bool)
      requires Valid()
      modifies this, q, q.slots
      ensures Valid() && stack == old(stack)
      ensures ran <==> old(State()).entries != []
      ensures Carries(old(State()), State(), stack)
      ensures if ran then Measure(State()) < old(Measure(State())) else State() == old(State())
      decreases Measure(State()), 0
    {
      var state := q.Pop(0);
      if state == None {
        return false;
      }
      ghost var w := old(State());
      TakeEntryKeeps(w);
      TakeEntryTells(w);
      CarriesTake(w);
      var e := state.value;
      stack := stack + [e.task];
      ghost var mid := State();
      assert mid == TakeEntry(w);
      assert Below(stack) == w.stack;
      match e {
        case Start(t) => Resume(t);
        case Waiter(t) => RecWait(t);
      }
      CarriesThrough(w, mid, State(), stack);
      return true;
    }

    /** `__rec_wait`: polls once. If the poller is not ready, the coroutine stays suspended, a
        fresh waiter is queued, and nothing else changes; if it is, the coroutine runs on. */
    method RecWait(t: nat)
      requires Runs(t) && tasks[t].prog.Poll?
      modifies this, q, q.slots
      ensures Valid() && stack == Below(old(stack)) && Carries(old(State()), State(), stack)
      ensures old(tasks[t].prog.tries) > 0 ==> State() == Park(old(State()))
      ensures old(tasks[t].prog.tries) == 0 ==> old(told[t]) + [Ready] <= told[t]
      ensures Measure(State()) < old(Measure(State()))
      decreases Measure(State()), 1
    {
      ghost var w := State();
      CarriesForward(w);
      if tasks[t].prog.tries == 0 {
        PassReady(t);
        ghost var ready := State();
        Resume(t);
        assert Tells(ready, State());
        CarriesThrough(w, ready, State(), Below(w.stack));
      } else {
        Suspend(t);
      }
    }

    /** The poller is ready: the coroutine runs on. */
    method PassReady(t: nat)
      requires Runs(t) && tasks[t].prog.Poll? && tasks[t].prog.tries == 0
      modifies this`tasks, this`told
      ensures Runs(t) && State() == Forward(old(State())) && told[t] == old(told[t]) + [Ready]
    {
      assert Polls(0) == [Ready];
      Continue(t, tasks[t].prog.rest, tasks[t].env, [Ready]);
    }

    /** Resumes coroutine t until it completes or suspends. */
    method Resume(t: nat)
      requires Runs(t)
      modifies this, q, q.slots
      ensures Valid() && stack == Below(old(stack)) && Carries(old(State()), State(), stack)
      ensures Measure(State()) < old(Measure(State()))
      decreases Measure(State()), 3
    {
      ghost var w := State();
      var stopped := RunOn(t);
      while !stopped
        invariant if stopped then Valid() && stack == Below(w.stack) else Runs(t) && stack == w.stack
        invariant Carries(w, State(), Below(w.stack)) && Measure(State()) < Measure(w)
        decreases !stopped, Measure(State())
      {
        ghost var mid := State();
        stopped := RunOn(t);
        CarriesThrough(w, mid, State(), Below(w.stack));
      }
    }

    /** One step of the coroutine's program; `stopped` if it completed or suspended. */
    method RunOn(t: nat) returns (stopped: bool)
      requires Runs(t)
      modifies this, q, q.slots
      ensures if stopped then Valid() && stack == Below(old(stack)) else Runs(t) && stack == old(stack)
      ensures !old(tasks[t].prog).Await? ==>
                State() == Forward(old(State())) && (stopped <==> Stops(old(tasks[t].prog)))
      ensures old(tasks[t].prog).Await? ==> !stopped && Awaited(old(State()), State(), t)
      ensures Carries(old(State()), State(), Below(old(stack)))
      ensures Measure(State()) < old(Measure(State()))
      decreases Measure(State()), 2
    {
      if tasks[t].prog.Await? {
        AwaitTask(t, tasks[t].prog.child, tasks[t].prog.rest);
        return false;
      }
      CarriesForward(State());
      stopped := StepForward(t);
    }

    /** One step that is not a co_await on a task. */
    method StepForward(t: nat) returns (stopped: bool)
      requires Runs(t) && !tasks[t].prog.Await?
      modifies this`tasks, this`stack, this`told, q, q.slots
      ensures q.Valid() && State() == Forward(old(State()))
      ensures stopped <==> Stops(old(tasks[t].prog))
      ensures if stopped then Valid() && stack == Below(old(stack)) else Runs(t) && stack == old(stack)
    {
      var env := tasks[t].env;
      match tasks[t].prog {
        case Return(e) =>
          ReturnValue(t, EvalExpr(e, env));
          return true;
        case Let(e, rest) =>
          Continue(t, rest, [EvalExpr(e, env)] + env, []);
        case Poll(tries, rest) =>
          if tries > 0 {
            Suspend(t);
            return true;
          }
          PassReady(t);
        case IfPositive(e, yes, no) =>
          var taken := EvalExpr(e, env) > 0;
          Continue(t, if taken then yes else no, env, [Took(taken)]);
      }
      return false;
    }

    /** `co_await child`: queue the child, run the loop until it is complete, take its value. */
    method AwaitTask(t: nat, child: Program, rest: Program)
      requires Runs(t) && tasks[t].prog == Await(child, rest)
      modifies this, q, q.slots
      ensures Runs(t) && stack == old(stack) && Carries(old(State()), State(), Below(stack))
      ensures Awaited(old(State()), State(), t)
      ensures Measure(State()) < old(Measure(State()))
      decreases Measure(State()), 1
    {
      ghost var w := State();
      var c := QueueChild(t, child, rest);
      ghost var spawned := State();
      assert spawned == Spawn(w, child, rest);
      AwaitSuspend(t, c);
      ghost var ready := State();
      AwaitedValue(w, child, rest, ready, t, c);
      CarriesLess(spawned, ready, stack);
      CarriesThrough(w, spawned, ready, Below(stack));
      CarriesCollect(ready, t, c);
      AwaitResume(t, c);
      CarriesThrough(w, ready, State(), Below(stack));
    }

    /** The child is created, suspended, and its handle pushed. */
    method QueueChild(t: nat, child: Program, rest: Program) returns (c: nat)
      requires Runs(t) && tasks[t].prog == Await(child, rest)
      modifies this, q, q.slots
      ensures Valid() && Waiting(State(), t, c) && stack == old(stack) && c == |old(tasks)|
      ensures Depth(child) < old(holds[t]) && State() == Spawn(old(State()), child, rest)
      ensures Carries(old(State()), State(), Below(stack))
      ensures Measure(State()) < old(Measure(State()))
    {
      ghost var w := State();
      SpawnKeeps(w, child, rest);
      SpawnTells(w, child, rest);
      EntriesFit(Spawn(w, child, rest));
      CarriesSpawn(w, child, rest);
      c := CreateChild(t, child, rest);
    }

    method CreateChild(t: nat, child: Program, rest: Program) returns (c: nat)
      requires q.Valid() && |q.Contents()| + 1 < q.slots.Length
      requires stack != [] && Top(State()) == t < |tasks| == |holds| && Depth(child) <= holds[t]
      modifies this, q, q.slots
      ensures q.Valid() && State() == Spawn(old(State()), child, rest) && c == |old(tasks)|
    {
      c := |tasks|;
      var env := tasks[t].env;
      tasks := tasks[t := tasks[t].(prog := rest, awaits := Some(c))] + [Task(child, env, Pending, None, false)];
      meant := meant + [Eval(child, env)];
      grant := grant + [Depth(child)];
      holds := holds[t := holds[t] - Depth(child)] + [Depth(child)];
      told := told + [[]];
      plan := plan + [Trace(child, env)];
      Push(Start(c));
    }

    /** The loop of `TaskAwaitable::await_suspend`: it stops only when the child is complete,
        for until then the queue is not empty. */
    method AwaitSuspend(t: nat, c: nat)
      requires Valid() && Waiting(State(), t, c)
      modifies this, q, q.slots
      ensures Valid() && Waiting(State(), t, c) && tasks[c].promise.Complete?
      ensures stack == old(stack) && Carries(old(State()), State(), stack)
      ensures Measure(State()) <= old(Measure(State()))
      decreases Measure(State()), 1
    {
      ghost var w := State();
      var ran := true;
      while !tasks[c].promise.Complete? && ran
        invariant Valid() && stack == w.stack && ran && Waiting(State(), t, c)
        invariant Carries(w, State(), stack) && Measure(State()) <= Measure(w)
        decreases Measure(State())
      {
        AwaitedIsQueued(State(), t, c);
        ghost var mid := State();
        ran := RunOne();
        StillWaiting(mid, State(), t, c);
        CarriesThrough(w, mid, State(), stack);
      }
    }

    /** `await_resume`: the child's value is there, and is moved out. */
    method AwaitResume(t: nat, c: nat)
      requires Valid() && Waiting(State(), t, c) && tasks[c].promise.Complete?
      modifies this`tasks, this`holds, this`told
      ensures Runs(t) && State() == Collect(old(State()), c)
      ensures Measure(State()) == old(Measure(State()))
    {
      CollectKeeps(State(), t, c);
      CollectTells(State(), t, c);
      MoveOut(t, c);
    }

    method MoveOut(t: nat, c: nat)
      requires q.Valid() && stack != [] && Top(State()) == t < |tasks| == |holds| == |told|
      requires c < |tasks| && tasks[c].promise.Complete?
      modifies this`tasks, this`holds, this`told
      ensures q.Valid() && State() == Collect(old(State()), c)
    {
      var value := tasks[c].promise.value;
      tasks := tasks[c := tasks[c].(promise := Moved)]
                    [t := tasks[t].(env := [value] + tasks[t].env, awaits := None)];
      holds := holds[c := 0][t := holds[t] + holds[c]];
      told := told[t := told[t] + [Got(value)]];
    }

    /** `run_forever`: until the queue is empty, which it is when every task is complete. */
    method RunForever()
      requires Valid() && stack == []
      modifies this, q, q.slots
      ensures Valid() && stack == [] && State().entries == []
      ensures old(meant) <= meant && old(plan) <= plan && |old(tasks)| <= |tasks|
      ensures forall t :: 0 <= t < |old(tasks)| ==> tasks[t].launched == old(tasks)[t].launched
    {
      ghost var w := State();
      var shouldRun := true;
      while shouldRun
        invariant Valid() && stack == [] && Carries(w, State(), [])
        invariant !shouldRun ==> State().entries == []
        decreases shouldRun, Measure(State())
      {
        ghost var mid := State();
        shouldRun := RunOne();
        CarriesThrough(w, mid, State(), []);
      }
    }

    /** Pushes the handle of a task from outside the loop, watched for a number of attempts.
        The push is done exactly if the ring has a free slot. */
    method Launch(p: Program, attempts: nat) returns (done: bool)
      requires Valid() && stack == [] && 2 <= attempts
      modifies this, q, q.slots
      ensures Valid()
      ensures done <==> |old(State()).entries| + 1 < q.slots.Length
      ensures State() == if done then Scheduler.Launch(old(State()), p) else old(State())
    {
      ghost var w := State();
      LaunchKeeps(w, p);
      LaunchTells(w, p);
      EntriesFit(w);
      done := q.PushWithin(Start(|tasks|), attempts, 0, 0);
      if done {
        AddTask(p);
        assert State() == Scheduler.Launch(w, p);
      }
    }

    method AddTask(p: Program)
      modifies this`tasks, this`meant, this`grant, this`holds, this`told, this`plan
      ensures tasks == old(tasks) + [Task(p, [], Pending, None, true)]
      ensures meant == old(meant) + [Eval(p, [])]
      ensures grant == old(grant) + [Depth(p)] && holds == old(holds) + [Depth(p)]
      ensures told == old(told) + [[]] && plan == old(plan) + [Trace(p, [])]
    {
      tasks := tasks + [Task(p, [], Pending, None, true)];
      meant := meant + [Eval(p, [])];
      grant := grant + [Depth(p)];
      holds := holds + [Depth(p)];
      told := told + [[]];
      plan := plan + [Trace(p, [])];
    }

    /** `expected_value` once the loop has run dry. */
    method ExpectedValue(t: nat) returns (v: nat)
      requires Valid() && stack == [] && State().entries == []
      requires t < |tasks| && tasks[t].launched
      ensures v == meant[t] && t < |told| && t < |plan| && told[t] == plan[t]
    {
      IdleMeansDone(State(), t);
      assert TellOk(State(), t);
      v := tasks[t].promise.value;
    }
  }

  /** The i-th program is the i-th task from base on. */
  predicate LaunchedAs(tasks: seq<Task>, meant: seq<nat>, plan: seq<seq<Event>>, base: nat,
                       programs: seq<Program>, i: nat) {
    && base + i < |tasks| && base + i < |meant| && base + i < |plan| && i < |programs|
    && tasks[base + i].launched
    && meant[base + i] == Eval(programs[i], []) && plan[base + i] == Trace(programs[i], [])
  }

  /** From w0 to w the first n programs have been launched. */
  ghost predicate Launched(w0: World, w: World, programs: seq<Program>, n: nat) {
    && n <= |programs| && w.stack == [] && |w.entries| == |w0.entries| + n
    && |w.tasks| == |w.meant| == |w.plan| == |w0.tasks| + n
    && forall i :: 0 <= i < n ==> LaunchedAs(w.tasks, w.meant, w.plan, |w0.tasks|, programs, i)
  }

  lemma LaunchedNext(w0: World, w: World, programs: seq<Program>, n: nat)
    requires Launched(w0, w, programs, n) && n < |programs|
    ensures Launched(w0, Launch(w, programs[n]), programs, n + 1)
  {
    var w' := Launch(w, programs[n]);
    forall i | 0 <= i < n + 1
      ensures LaunchedAs(w'.tasks, w'.meant, w'.plan, |w0.tasks|, programs, i)
    {
      assert i < n ==> LaunchedAs(w.tasks, w.meant, w.plan, |w0.tasks|, programs, i);
    }
  }

  /** Pushes every task, in order, until a push finds no free slot. */
  method LaunchAll(loop: EventLoop, programs: seq<Program>, attempts: nat) returns (n: nat)
    requires loop.Valid() && loop.stack == [] && 2 <= attempts
    modifies loop, loop.q, loop.q.slots
    ensures loop.Valid() && Launched(old(loop.State()), loop.State(), programs, n)
    ensures n == |programs| || |old(loop.State()).entries| + n + 1 == loop.q.slots.Length
  {
    ghost var w0 := loop.State();
    n := 0;
    while n < |programs|
      invariant loop.Valid() && Launched(w0, loop.State(), programs, n)
    {
      LaunchedNext(w0, loop.State(), programs, n);
      EntriesFit(loop.State());
      var done := loop.Launch(programs[n], attempts);
      if !done {
        return;
      }
      n := n + 1;
    }
  }

  method CollectAll(loop: EventLoop, base: nat, programs: seq<Program>)
    returns (results: seq<nat>, ghost histories: seq<seq<Event>>)
    requires loop.Valid() && loop.stack == [] && loop.State().entries == []
    requires forall i :: 0 <= i < |programs| ==>
               LaunchedAs(loop.tasks, loop.meant, loop.plan, base, programs, i)
    ensures |results| == |histories| == |programs|
    ensures forall i :: 0 <= i < |programs| ==> results[i] == Eval(programs[i], [])
    ensures forall i :: 0 <= i < |programs| ==>
              base + i < |loop.told| && histories[i] == loop.told[base + i] == Trace(programs[i], [])
  {
    results, histories := [], [];
    for n := 0 to |programs|
      invariant |results| == |histories| == n
      invariant forall i :: 0 <= i < n ==> results[i] == Eval(programs[i], [])
      invariant forall i :: 0 <= i < n ==>
                  base + i < |loop.told| && histories[i] == loop.told[base + i] == Trace(programs[i], [])
    {
      assert LaunchedAs(loop.tasks, loop.meant, loop.plan, base, programs, n);
      var v := loop.ExpectedValue(base + n);
      results := results + [v];
      histories := histories + [loop.told[base + n]];
    }
  }

  /** `parallel_expected` on a loop that may have tasks queued: pushes every task, runs the
      loop, collects the results. It comes to an end if and only if the ring has a free slot for
      each task, however deep they nest, and then every result is the program's direct
      evaluation, and every task has done, poll by poll, what its program says. `None` says that
      a push before the run was still trying after so many attempts. */
  method RunParallel(loop: EventLoop, programs: seq<Program>, attempts: nat)
    returns (results: Option<seq<nat>>, ghost histories: seq<seq<Event>>)
    requires loop.Valid() && loop.stack == [] && 2 <= attempts
    modifies loop, loop.q, loop.q.slots
    ensures loop.Valid() && loop.stack == []
    ensures results.Some? <==> |old(loop.State()).entries| + |programs| < loop.q.slots.Length
    ensures results.Some? ==>
              && loop.State().entries == [] && |results.value| == |histories| == |programs|
              && (forall i :: 0 <= i < |programs| ==> results.value[i] == Eval(programs[i], []))
              && (forall i :: 0 <= i < |programs| ==> histories[i] == Trace(programs[i], []))
  {
    histories := [];
    EntriesFit(loop.State());
    var base := |loop.tasks|;
    var n := LaunchAll(loop, programs, attempts);
    EntriesFit(loop.State());
    if n < |programs| {
      return None, [];
    }
    ghost var w := loop.State();
    loop.RunForever();
    forall i | 0 <= i < |programs|
      ensures LaunchedAs(loop.tasks, loop.meant, loop.plan, base, programs, i)
    {
      assert LaunchedAs(w.tasks, w.meant, w.plan, base, programs, i);
    }
    var values;
    values, histories := CollectAll(loop, base, programs);
    results := Some(values);
  }

  /** `parallel_expected` on a new loop: it comes to an end if and only if there are fewer tasks
      than slots, and then every result is the program's direct evaluation. */
  method ParallelExpected(programs: seq<Program>, capacity: nat, attempts: nat)
    returns (results: Option<seq<nat>>, ghost histories: seq<seq<Event>>)
    requires 2 <= capacity && 2 <= attempts
    ensures results.Some? <==> |programs| < capacity
    ensures results.Some? ==>
              && |results.value| == |histories| == |programs|
              && (forall i :: 0 <= i < |programs| ==> results.value[i] == Eval(programs[i], []))
              && (forall i :: 0 <= i < |programs| ==> histories[i] == Trace(programs[i], []))
  {
    var loop := new EventLoop(capacity);
    results, histories := RunParallel(loop, programs, attempts);
  }

  /** The worked example: `fib(n)` run by the loop computes the Fibonacci number, modulo 2^64,
      on every ring of two slots and more. */
  method RunFib(n: nat, capacity: nat) returns (r: nat)
    requires 2 <= capacity
    ensures r == Fib(n % UINT64) % UINT64
  {
    FibProgramComputesFib(n, []);
    var results, _ := ParallelExpected([FibProgram(n)], capacity, 2);
    r := results.value[0];
  }
}
