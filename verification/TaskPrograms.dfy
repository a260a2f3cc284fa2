/** Coroutines as finite programs: poll until ready, await a child task, branch, return
    (src/basic_task.cc). Values are the `uint64_t` of the worked example. */
module TaskPrograms {

  const UINT64: nat := 0x1_0000_0000_0000_0000

  /** Expressions over the parameters, local variables and awaited values, most recent first. */
  datatype Expr = Const(n: nat) | Local(i: nat) | Plus(l: Expr, r: Expr) | Minus(l: Expr, r: Expr)

  datatype Program =
    | Return(e: Expr)                              // co_return
    | Let(e: Expr, rest: Program)                  // a local variable, or an argument of the next call
    | Poll(tries: nat, rest: Program)              // co_await on a poller ready after `tries` polls
    | Await(child: Program, rest: Program)         // co_await child.as_awaitable()
    | IfPositive(e: Expr, yes: Program, no: Program)

  function EvalExpr(e: Expr, env: seq<nat>): nat {
    match e
    case Const(n) => n % UINT64
    case Local(i) => if i < |env| then env[i] else 0
    case Plus(l, r) => (EvalExpr(l, env) + EvalExpr(r, env)) % UINT64
    case Minus(l, r) => (EvalExpr(l, env) - EvalExpr(r, env)) % UINT64
  }

  /** Direct recursive evaluation: what the program means without any scheduler. A child
      starts with the values its parent had captured. */
  function Eval(p: Program, env: seq<nat>): nat {
    match p
    case Return(e) => EvalExpr(e, env)
    case Let(e, rest) => Eval(rest, [EvalExpr(e, env)] + env)
    case Poll(_, rest) => Eval(rest, env)
    case Await(child, rest) => Eval(rest, [Eval(child, env)] + env)
    case IfPositive(e, yes, no) => if EvalExpr(e, env) > 0 then Eval(yes, env) else Eval(no, env)
  }

  /** An upper bound on the steps the scheduler still makes for the program. */
  function Work(p: Program): (w: nat)
    ensures w > 0
  {
    match p
    case Return(_) => 1
    case Let(_, rest) => 1 + Work(rest)
    case Poll(tries, rest) => 2 * tries + 1 + Work(rest)
    case Await(child, rest) => Work(child) + Work(rest) + 2
    case IfPositive(_, yes, no) => 1 + Work(yes) + Work(no)
  }

  /** The longest chain of tasks that await each other. */
  function Depth(p: Program): (d: nat)
    ensures d > 0
  {
    match p
    case Return(_) => 1
    case Let(_, rest) => Depth(rest)
    case Poll(_, rest) => Depth(rest)
    case Await(child, rest) => Max(1 + Depth(child), Depth(rest))
    case IfPositive(_, yes, no) => Max(Depth(yes), Depth(no))
  }

  function Max(m: nat, n: nat): nat {
    if m < n then n else m
  }

  // ---- What a coroutine does, event by event ----

  datatype Event =
    | Unready            // a poll that found its poller not ready
    | Ready              // a poll that found it ready
    | Took(yes: bool)    // a branch
    | Got(v: nat)        // the value of an awaited child
    | Returned(v: nat)

  function Trace(p: Program, env: seq<nat>): seq<Event> {
    match p
    case Return(e) => [Returned(EvalExpr(e, env))]
    case Let(e, rest) => Trace(rest, [EvalExpr(e, env)] + env)
    case Poll(tries, rest) => Polls(tries) + Trace(rest, env)
    case Await(child, rest) => [Got(Eval(child, env))] + Trace(rest, [Eval(child, env)] + env)
    case IfPositive(e, yes, no) =>
      var taken := EvalExpr(e, env) > 0;
      [Took(taken)] + Trace(if taken then yes else no, env)
  }

  /** Exactly so many polls that are not ready, and then the one that is. */
  function Polls(tries: nat): seq<Event> {
    seq(tries, _ => Unready) + [Ready]
  }

  lemma OnePollLess(tries: nat)
    requires tries > 0
    ensures Polls(tries) == [Unready] + Polls(tries - 1)
  {
  }

  /** The last event is the return of the value that direct evaluation gives. */
  lemma {:induction false} TraceEndsInValue(p: Program, env: seq<nat>)
    ensures var h := Trace(p, env); |h| > 0 && h[|h| - 1] == Returned(Eval(p, env))
  {
    match p
    case Return(_) =>
    case Let(e, rest) => TraceEndsInValue(rest, [EvalExpr(e, env)] + env);
    case Poll(_, rest) => TraceEndsInValue(rest, env);
    case Await(child, rest) => TraceEndsInValue(rest, [Eval(child, env)] + env);
    case IfPositive(e, yes, no) => TraceEndsInValue(if EvalExpr(e, env) > 0 then yes else no, env);
  }

  // ---- The worked program ----

  function Fib(n: nat): nat {
    if n <= 1 then 1 else Fib(n - 1) + Fib(n - 2)
  }

  /** The body of `fib`, with its parameter as the latest value: it tests the parameter as it
      runs and passes the smaller ones on to its children. It is written out for nested calls
      up to a depth. */
  function FibBody(depth: nat): Program {
    IfPositive(Local(0),
               IfPositive(Minus(Local(0), Const(1)),
                          if depth == 0 then Return(Const(1)) else FibCalls(FibBody(depth - 1)),
                          Return(Const(1))),
               Return(Const(1)))
  }

  /** co_return co_await fib(beg - 1) + co_await fib(beg - 2) */
  function FibCalls(fib: Program): Program {
    Let(Minus(Local(0), Const(1)),
        Await(fib,
              Let(Minus(Local(2), Const(2)),
                  Await(fib,
                        Return(Plus(Local(2), Local(0)))))))
  }

  /** `fib(n)`, whose parameter is a `uint64_t`. */
  function FibProgram(n: nat): Program {
    Let(Const(n), FibBody(if n <= 1 then 0 else n - 1))
  }

  lemma LastSumEval(env: seq<nat>)
    requires |env| > 2
    ensures Eval(Return(Plus(Local(2), Local(0))), env) == (env[2] + env[0]) % UINT64
  {
    assert EvalExpr(Local(2), env) == env[2] && EvalExpr(Local(0), env) == env[0];
  }

  lemma LessEval(i: nat, k: nat, env: seq<nat>)
    requires i < |env| && k <= env[i] < UINT64 && k < UINT64
    ensures EvalExpr(Minus(Local(i), Const(k)), env) == env[i] - k
  {
    assert EvalExpr(Local(i), env) == env[i] && EvalExpr(Const(k), env) == k;
  }

  /** Where every value is, once the two children have returned theirs. */
  lemma FibCallsEval(fib: Program, env: seq<nat>, env1: seq<nat>, env3: seq<nat>)
    requires |env| > 0 && 2 <= env[0] < UINT64
    requires env1 == [(env[0] - 1) as nat] + env
    requires env3 == [(env[0] - 2) as nat] + ([Eval(fib, env1)] + env1)
    ensures Eval(FibCalls(fib), env) == (Eval(fib, env1) + Eval(fib, env3)) % UINT64
  {
    var first, second := Eval(fib, env1), Eval(fib, env3);
    var env2, env4 := [first] + env1, [second] + env3;
    var last := Return(Plus(Local(2), Local(0)));
    var later := Let(Minus(Local(2), Const(2)), Await(fib, last));
    LessEval(0, 1, env);
    LessEval(2, 2, env2);
    LastSumEval(env4);
    assert env4[2] == first && env4[0] == second;
    assert Eval(Await(fib, last), env3) == Eval(last, env4);
    assert Eval(later, env2) == Eval(Await(fib, last), env3);
    assert Eval(Await(fib, later), env1) == Eval(later, env2);
  }

  /** The two tests of the parameter. */
  lemma FibBodyEval(depth: nat, env: seq<nat>)
    requires |env| > 0 && env[0] < UINT64
    ensures Eval(FibBody(depth), env)
            == if env[0] > 1 && depth > 0 then Eval(FibCalls(FibBody(depth - 1)), env) else 1
  {
    var calls := if depth == 0 then Return(Const(1)) else FibCalls(FibBody(depth - 1));
    var inner := IfPositive(Minus(Local(0), Const(1)), calls, Return(Const(1)));
    assert FibBody(depth) == IfPositive(Local(0), inner, Return(Const(1)));
    assert Eval(Return(Const(1)), env) == 1;
    if env[0] > 0 {
      LessEval(0, 1, env);
      assert Eval(FibBody(depth), env) == Eval(inner, env);
    }
  }

  lemma {:induction false} FibBodyComputesFib(depth: nat, env: seq<nat>)
    requires |env| > 0 && env[0] < UINT64 && env[0] <= depth + 1
    ensures Eval(FibBody(depth), env) == Fib(env[0]) % UINT64
    decreases depth
  {
    var n := env[0];
    FibBodyEval(depth, env);
    if n > 1 {
      var fib := FibBody(depth - 1);
      var env1 := [(n - 1) as nat] + env;
      FibBodyComputesFib(depth - 1, env1);
      var env3 := [(n - 2) as nat] + ([Eval(fib, env1)] + env1);
      FibBodyComputesFib(depth - 1, env3);
      FibCallsEval(fib, env, env1, env3);
      SumOfRemainders(Fib(n - 1), Fib(n - 2));
    }
  }

  lemma FibProgramComputesFib(n: nat, env: seq<nat>)
    ensures Eval(FibProgram(n), env) == Fib(n % UINT64) % UINT64
  {
    FibBodyComputesFib(if n <= 1 then 0 else n - 1, [n % UINT64] + env);
  }

  lemma SumOfRemainders(m: nat, n: nat)
    ensures (m % UINT64 + n % UINT64) % UINT64 == (m + n) % UINT64
  {
  }

  lemma FibCallsDepth(fib: Program)
    ensures Depth(FibCalls(fib)) == 1 + Depth(fib)
  {
    var last := Return(Plus(Local(2), Local(0)));
    var later := Let(Minus(Local(2), Const(2)), Await(fib, last));
    assert Depth(last) == 1;
    assert Depth(Await(fib, last)) == 1 + Depth(fib);
    assert Depth(later) == 1 + Depth(fib);
    assert Depth(Await(fib, later)) == 1 + Depth(fib);
  }

  lemma {:induction false} FibBodyDepth(depth: nat)
    ensures Depth(FibBody(depth)) == depth + 1
  {
    if depth > 0 {
      FibBodyDepth(depth - 1);
      FibCallsDepth(FibBody(depth - 1));
    }
    var calls := if depth == 0 then Return(Const(1)) else FibCalls(FibBody(depth - 1));
    assert Depth(IfPositive(Minus(Local(0), Const(1)), calls, Return(Const(1)))) == depth + 1;
  }

  /** Only the first branch of the recursion nests deeply: fib(n) has n tasks live at once. */
  lemma FibDepth(n: nat)
    ensures Depth(FibProgram(n)) == if n <= 1 then 1 else n
  {
    FibBodyDepth(if n <= 1 then 0 else n - 1);
  }
}
