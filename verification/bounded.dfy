// With bounded stacks a run may give up: it traps because a stack is full, or it leaves a buffer. In every other case
// it has the specification's outcome.
module Bounded {
  import opened Bytecode
  import opened Runtime
  import opened Structured

  predicate GivesUp(out: Outcome)
  {
    out == Trapping(StackOverflow) || out == Trapping(LabelStackOverflow) || out.Breached?
  }

  predicate CallGivesUp(out: CallOutcome)
  {
    out == CallTraps(StackOverflow) || out == CallTraps(LabelStackOverflow) || out.CallBreaches?
  }

  predicate Agrees(bounded: Outcome, spec: Outcome) { GivesUp(bounded) || bounded == spec }

  predicate CallAgrees(bounded: CallOutcome, spec: CallOutcome) { CallGivesUp(bounded) || bounded == spec }

  lemma {:induction false} EvalAgrees(pr: Program, results: nat, room: Room, fuel: nat, c: Code, labels: seq<nat>, st: Store)
    ensures Agrees(Eval(pr, results, room, fuel, c, labels, st), Eval(pr, results, Unbounded, fuel, c, labels, st))
    decreases fuel, 0, c, 4
  {
    hide U, S, EvalOp, EvalBlock, EvalIf, EvalLoop, EvalCall, EvalBrIf, EvalBrTable, Jump;
    match c
    case Plain(op, next) => ThenAgrees(pr, results, room, fuel, next, c, labels, EvalOp(op, st), EvalOp(op, st));
    case Block(_, _, next) =>
      BlockAgrees(pr, results, room, fuel, c, labels, st);
      ThenAgrees(pr, results, room, fuel, next, c, labels, EvalBlock(pr, results, room, fuel, c, labels, st),
                 EvalBlock(pr, results, Unbounded, fuel, c, labels, st));
    case Loop(_, _, next) =>
      LoopAgrees(pr, results, room, fuel, c, labels, st);
      ThenAgrees(pr, results, room, fuel, next, c, labels, EvalLoop(pr, results, room, fuel, c, labels, st),
                 EvalLoop(pr, results, Unbounded, fuel, c, labels, st));
    case If(_, _, next) =>
      IfAgrees(pr, results, room, fuel, c, labels, st);
      ThenAgrees(pr, results, room, fuel, next, c, labels, EvalIf(pr, results, room, fuel, c, labels, st),
                 EvalIf(pr, results, Unbounded, fuel, c, labels, st));
    case IfElse(_, _, _, next) =>
      IfAgrees(pr, results, room, fuel, c, labels, st);
      ThenAgrees(pr, results, room, fuel, next, c, labels, EvalIf(pr, results, room, fuel, c, labels, st),
                 EvalIf(pr, results, Unbounded, fuel, c, labels, st));
    case BrIf(l, next) =>
      ThenAgrees(pr, results, room, fuel, next, c, labels, EvalBrIf(labels, U(l), st), EvalBrIf(labels, U(l), st));
    case Call(_, next) =>
      CallAgreesWithSpec(pr, results, room, fuel, c, st);
      ThenAgrees(pr, results, room, fuel, next, c, labels, EvalCall(pr, results, room, fuel, c, st),
                 EvalCall(pr, results, Unbounded, fuel, c, st));
    case _ =>
  }

  lemma {:induction false} ThenAgrees(pr: Program, results: nat, room: Room, fuel: nat, next: Code, c: Code, labels: seq<nat>, b: Outcome, u: Outcome)
    requires next < c && Agrees(b, u)
    ensures Agrees(Then(pr, results, room, fuel, next, c, labels, b), Then(pr, results, Unbounded, fuel, next, c, labels, u))
    decreases fuel, 0, c, 0
  {
    hide Eval;
    if b.Normal? { EvalAgrees(pr, results, room, fuel, next, labels, b.st); }
  }

  lemma LeaveAgrees(b: Outcome, u: Outcome, under: seq<Value>)
    requires Agrees(b, u)
    ensures Agrees(Leave(b, under), Leave(u, under))
  {
  }

  lemma {:induction false} BlockAgrees(pr: Program, results: nat, room: Room, fuel: nat, c: Code, labels: seq<nat>, st: Store)
    requires c.Block?
    ensures Agrees(EvalBlock(pr, results, room, fuel, c, labels, st), EvalBlock(pr, results, Unbounded, fuel, c, labels, st))
    decreases fuel, 0, c, 2
  {
    hide S, Eval, Leave;
    var t := BlockArity(pr.env.types, S(c.bt));
    if t.params <= |st.ops| {
      var under, inner := Under(st.ops, t.params), st.(ops := Top(st.ops, t.params));
      EvalAgrees(pr, results, Above(room, |under|), fuel, c.body, labels + [t.results], inner);
      LeaveAgrees(Eval(pr, results, Above(room, |under|), fuel, c.body, labels + [t.results], inner),
                  Eval(pr, results, Unbounded, fuel, c.body, labels + [t.results], inner), under);
    }
  }

  lemma {:induction false} IfAgrees(pr: Program, results: nat, room: Room, fuel: nat, c: Code, labels: seq<nat>, st: Store)
    requires c.If? || c.IfElse?
    ensures Agrees(EvalIf(pr, results, room, fuel, c, labels, st), EvalIf(pr, results, Unbounded, fuel, c, labels, st))
    decreases fuel, 0, c, 2
  {
    hide S, Eval, Leave;
    var t := BlockArity(pr.env.types, S(c.bt));
    if |st.ops| >= 1 && !(st.ops[|st.ops| - 1] == 0 && c.If?) {
      var under, inner := Under(st.ops, 1), st.(ops := []);
      var branch := if st.ops[|st.ops| - 1] != 0 then c.thn else c.els;
      EvalAgrees(pr, results, Above(room, |under|), fuel, branch, labels + [t.results], inner);
      LeaveAgrees(Eval(pr, results, Above(room, |under|), fuel, branch, labels + [t.results], inner),
                  Eval(pr, results, Unbounded, fuel, branch, labels + [t.results], inner), under);
    }
  }

  lemma {:induction false} LoopAgrees(pr: Program, results: nat, room: Room, fuel: nat, c: Code, labels: seq<nat>, st: Store)
    requires c.Loop?
    ensures Agrees(EvalLoop(pr, results, room, fuel, c, labels, st), EvalLoop(pr, results, Unbounded, fuel, c, labels, st))
    decreases fuel, 0, c, 2
  {
    hide S, Iterate, Leave;
    var t := BlockArity(pr.env.types, S(c.bt));
    if t.params <= |st.ops| {
      var under, inner := Under(st.ops, t.params), st.(ops := Top(st.ops, t.params));
      IterateAgrees(pr, results, Above(room, |under|), fuel, c, labels, inner);
      LeaveAgrees(Iterate(pr, results, Above(room, |under|), fuel, c, labels, inner),
                  Iterate(pr, results, Unbounded, fuel, c, labels, inner), under);
    }
  }

  lemma {:induction false} IterateAgrees(pr: Program, results: nat, room: Room, fuel: nat, c: Code, labels: seq<nat>, st: Store)
    requires c.Loop?
    ensures Agrees(Iterate(pr, results, room, fuel, c, labels, st), Iterate(pr, results, Unbounded, fuel, c, labels, st))
    decreases fuel, 0, c, 1
  {
    hide S, Eval;
    var ar := labels + [BlockArity(pr.env.types, S(c.bt)).params];
    EvalAgrees(pr, results, room, fuel, c.body, ar, st);
    var out := Eval(pr, results, room, fuel, c.body, ar, st);
    if out.Branching? && out.depth == 0 && fuel > 0 {
      IterateAgrees(pr, results, room, fuel - 1, c, labels, Store(out.locals, out.vals, out.world));
    }
  }

  lemma {:induction false} CallAgreesWithSpec(pr: Program, results: nat, room: Room, fuel: nat, c: Code, st: Store)
    requires c.Call?
    ensures Agrees(EvalCall(pr, results, room, fuel, c, st), EvalCall(pr, results, Unbounded, fuel, c, st))
    decreases fuel, 0, c, 2
  {
    hide U, Invoke, EvalHost;
    var f := U(c.func);
    if f < |pr.env.funcs| && pr.env.funcs[f].typ.params <= |st.ops| && !pr.env.funcs[f].Host? && fuel > 0 {
      var n := pr.env.funcs[f].typ.params;
      InvokeAgrees(pr, Above(room, |Under(st.ops, n)|), fuel - 1, f, Top(st.ops, n), st.world);
    }
  }

  /** An invocation in the interpreter's bounded stacks gives up or has the specification's outcome. */
  lemma {:induction false} InvokeAgrees(pr: Program, room: Room, fuel: nat, f: nat, args: seq<Value>, w: World)
    requires f < |pr.env.funcs|
    ensures CallAgrees(Invoke(pr, room, fuel, f, args, w), Invoke(pr, Unbounded, fuel, f, args, w))
    decreases fuel, 1, End, 0
  {
    hide Eval;
    var fn := pr.env.funcs[f];
    if fn.Local? && f < |pr.bodies| {
      EvalAgrees(pr, fn.typ.results, CalleeRoom(room, fn), fuel, pr.bodies[f], [fn.typ.results],
                 Store(args + Zeros(fn.localCount), [], w));
    }
  }
}
