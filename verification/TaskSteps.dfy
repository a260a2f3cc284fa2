/** A step-by-step reference for coroutines: one machine with an explicit stack of callers and
    no scheduler, and a proof that direct evaluation agrees with it on every program. */
module TaskSteps {
  import opened Iteration
  import opened TaskPrograms

  /** A caller that waits for a value. */
  datatype Frame = Frame(rest: Program, env: seq<nat>)

  datatype Config =
    | Run(prog: Program, env: seq<nat>, callers: seq<Frame>)
    | Done(value: nat)

  /** A value goes to the latest caller, or out. */
  function GiveBack(v: nat, callers: seq<Frame>): Config {
    if callers == [] then Done(v)
    else
      var f := callers[|callers| - 1];
      Run(f.rest, [v] + f.env, callers[..|callers| - 1])
  }

  function Step(c: Config): Config {
    if c.Done? then c
    else
      match c.prog
      case Return(e) => GiveBack(EvalExpr(e, c.env), c.callers)
      case Let(e, rest) => Run(rest, [EvalExpr(e, c.env)] + c.env, c.callers)
      case Poll(tries, rest) =>
        if tries > 0 then Run(Poll(tries - 1, rest), c.env, c.callers) else Run(rest, c.env, c.callers)
      case Await(child, rest) => Run(child, c.env, c.callers + [Frame(rest, c.env)])
      case IfPositive(e, yes, no) =>
        if EvalExpr(e, c.env) == 0 then Run(no, c.env, c.callers) else Run(yes, c.env, c.callers)
  }

  lemma {:induction false} PollsPass(tries: nat, rest: Program, env: seq<nat>, callers: seq<Frame>)
    ensures Path(Step, Run(Poll(tries, rest), env, callers), Run(rest, env, callers), tries + 1)
    decreases tries
  {
    PathOfOne(Step, Run(Poll(tries, rest), env, callers));
    if tries > 0 {
      PollsPass(tries - 1, rest, env, callers);
      PathJoin(Step, Run(Poll(tries, rest), env, callers), Run(Poll(tries - 1, rest), env, callers),
               Run(rest, env, callers), 1, tries);
    }
  }

  /** The machine gives back the value of direct evaluation. */
  lemma {:induction false} RunsToValue(p: Program, env: seq<nat>, callers: seq<Frame>) returns (n: nat)
    ensures Path(Step, Run(p, env, callers), GiveBack(Eval(p, env), callers), n)
    decreases p
  {
    var s, goal := Run(p, env, callers), GiveBack(Eval(p, env), callers);
    PathOfOne(Step, s);
    match p {
      case Return(_) => n := 1;
      case Let(e, rest) =>
        var m := RunsToValue(rest, [EvalExpr(e, env)] + env, callers);
        PathJoin(Step, s, Step(s), goal, 1, m);
        n := 1 + m;
      case Poll(tries, rest) =>
        PollsPass(tries, rest, env, callers);
        var m := RunsToValue(rest, env, callers);
        PathJoin(Step, s, Run(rest, env, callers), goal, tries + 1, m);
        n := tries + 1 + m;
      case Await(child, rest) =>
        var k := RunsToValue(child, env, callers + [Frame(rest, env)]);
        var back := Run(rest, [Eval(child, env)] + env, callers);
        assert (callers + [Frame(rest, env)])[..|callers|] == callers;
        PathJoin(Step, s, Step(s), back, 1, k);
        var m := RunsToValue(rest, [Eval(child, env)] + env, callers);
        PathJoin(Step, s, back, goal, 1 + k, m);
        n := 1 + k + m;
      case IfPositive(e, yes, no) =>
        var m := RunsToValue(if EvalExpr(e, env) > 0 then yes else no, env, callers);
        PathJoin(Step, s, Step(s), goal, 1, m);
        n := 1 + m;
    }
  }

  /** Every program, run step by step, ends, and with the value of its direct evaluation. */
  lemma EvalIsStepwise(p: Program, env: seq<nat>)
    ensures exists n: nat :: Iterate(Step, Run(p, env, []), n) == Done(Eval(p, env))
  {
    var n := RunsToValue(p, env, []);
    PathIterates(Step, Run(p, env, []), Done(Eval(p, env)), n);
  }
}
