// Height-level validity: section 3.3 of the WebAssembly Core Specification 2.0 with every value type identified.
// Only code that can be reached is constrained; what follows an unconditional branch may be anything.
module Validity {
  import opened Leb128
  import opened Bytecode
  import opened Runtime
  import opened Structured

  /** What a body may refer to. */
  datatype Context = Context(types: seq<FuncType>, funcs: seq<FuncType>, globals: nat, locals: nat, results: nat)

  function FuncTypes(funcs: seq<Func>): (t: seq<FuncType>)
    ensures |t| == |funcs| && forall i :: 0 <= i < |funcs| ==> t[i] == funcs[i].typ
  {
    seq(|funcs|, i requires 0 <= i < |funcs| => funcs[i].typ)
  }

  function ContextOf(e: Env, globals: nat, f: nat): Context
    requires f < |e.funcs| && e.funcs[f].Local?
  {
    Context(e.types, FuncTypes(e.funcs), globals, TotalLocals(e.funcs[f]), e.funcs[f].typ.results)
  }

  /** `depth` names a label and that label's values are on the stack. */
  predicate CanBranch(labels: seq<nat>, depth: nat, h: int)
  {
    depth < |labels| && labels[|labels| - 1 - depth] <= h
  }

  predicate CanBranchAll(labels: seq<nat>, targets: seq<Imm>, h: int)
  {
    targets == [] || (CanBranch(labels, U(targets[0]), h) && CanBranchAll(labels, targets[1..], h))
  }

  /** From `h` operands on the block's own stack, `c` can only fall through with exactly `need` of them. */
  predicate Valid(cx: Context, c: Code, labels: seq<nat>, need: nat, h: nat)
    decreases c
  {
    match c
    case End => h == need
    case Plain(op, next) =>
      var t := OpArity(op);
      && OpInScope(op, cx.locals, cx.globals) && t.params <= h
      && Valid(cx, next, labels, need, h - t.params + t.results)
    case Unreachable(_) => true
    case Block(bt, body, next) =>
      var t := BlockArity(cx.types, S(bt));
      && t.params <= h && Valid(cx, body, labels + [t.results], t.results, t.params)
      && Valid(cx, next, labels, need, h - t.params + t.results)
    case Loop(bt, body, next) =>
      var t := BlockArity(cx.types, S(bt));
      && t.params <= h && Valid(cx, body, labels + [t.params], t.results, t.params)
      && Valid(cx, next, labels, need, h - t.params + t.results)
    case If(bt, thn, next) =>
      var t := BlockArity(cx.types, S(bt));
      && h >= 1 && t == FuncType(0, 0) && Valid(cx, thn, labels + [0], 0, 0)
      && Valid(cx, next, labels, need, h - 1)
    case IfElse(bt, thn, els, next) =>
      var t := BlockArity(cx.types, S(bt));
      && h >= 1 && t.params == 0
      && Valid(cx, thn, labels + [t.results], t.results, 0) && Valid(cx, els, labels + [t.results], t.results, 0)
      && Valid(cx, next, labels, need, h - 1 + t.results)
    case Br(l, _) => CanBranch(labels, U(l), h)
    case BrIf(l, next) => h >= 1 && CanBranch(labels, U(l), h - 1) && Valid(cx, next, labels, need, h - 1)
    case BrTable(_, ts, d, _) => h >= 1 && CanBranchAll(labels, ts, h - 1) && CanBranch(labels, U(d), h - 1)
    case Return(_) => cx.results <= h
    case Call(f, next) =>
      && U(f) < |cx.funcs| && cx.funcs[U(f)].params <= h
      && Valid(cx, next, labels, need, h - cx.funcs[U(f)].params + cx.funcs[U(f)].results)
  }

  predicate ReplyFits(reply: HostReply, results: nat)
  {
    match reply
    case Answer(vals) => |vals| == results
    case Yield => results == 0
    case Fail(_) => true
  }

  /** Host functions answer with as many values as their type says, and only result-less ones yield. */
  ghost predicate HostFits(e: Env)
  {
    forall f: nat, log: seq<HostCall> ::
      f < |e.funcs| && e.funcs[f].Host? && log != [] && log[|log| - 1].id == e.funcs[f].id
      ==> ReplyFits(e.host(log), e.funcs[f].typ.results)
  }

  predicate BodyValid(pr: Program, globals: nat, f: nat)
    requires f < |pr.env.funcs| && pr.env.funcs[f].Local?
  {
    var results := pr.env.funcs[f].typ.results;
    f < |pr.bodies| && Valid(ContextOf(pr.env, globals, f), pr.bodies[f], [results], results, 0)
  }

  ghost predicate ProgramValid(pr: Program, globals: nat)
  {
    && HostFits(pr.env)
    && forall f: nat :: f < |pr.env.funcs| && pr.env.funcs[f].Local? ==> BodyValid(pr, globals, f)
  }

  // ----- validity is preserved by evaluation -----

  predicate WorldFits(w: World, globals: nat) { |w.globals| == globals }

  predicate StoreFits(cx: Context, st: Store, h: int)
  {
    |st.locals| == cx.locals && |st.ops| == h && WorldFits(st.world, cx.globals)
  }

  /** The outcomes a valid sequence may have. */
  predicate OutcomeFits(cx: Context, labels: seq<nat>, need: nat, out: Outcome)
  {
    match out
    case Normal(st) => StoreFits(cx, st, need)
    case Branching(d, vals, locals, w) =>
      && d < |labels| && |vals| == labels[|labels| - 1 - d]
      && |locals| == cx.locals && WorldFits(w, cx.globals)
    case Returning(vals, w) => |vals| == cx.results && WorldFits(w, cx.globals)
    case Stuck => false
    case _ => true
  }

  predicate CallFits(results: nat, globals: nat, out: CallOutcome)
  {
    match out
    case Results(vals, w) => |vals| == results && WorldFits(w, globals)
    case CallStuck => false
    case _ => true
  }

  /** The context of a body of `pr`. */
  predicate ContextFits(pr: Program, cx: Context)
  {
    cx.types == pr.env.types && cx.funcs == FuncTypes(pr.env.funcs)
  }

  lemma OpSound(cx: Context, op: PlainOp, st: Store, h: nat)
    requires OpInScope(op, cx.locals, cx.globals) && OpArity(op).params <= h && StoreFits(cx, st, h)
    ensures EvalOp(op, st).Normal? || EvalOp(op, st).Trapping?
    ensures EvalOp(op, st).Normal? ==> StoreFits(cx, EvalOp(op, st).st, h - OpArity(op).params + OpArity(op).results)
  {
  }

  lemma LeaveFits(cx: Context, labels: seq<nat>, arity: nat, results: nat, out: Outcome, under: seq<Value>)
    requires OutcomeFits(cx, labels + [arity], results, out)
    requires arity == results || (out.Branching? ==> out.depth > 0)
    ensures OutcomeFits(cx, labels, |under| + results, Leave(out, under))
  {
  }

  /** A valid sequence never gets stuck and leaves what its type says: no operand, local, label or function is missing. */
  lemma {:induction false} EvalSound(pr: Program, cx: Context, room: Room, fuel: nat, c: Code, labels: seq<nat>, need: nat, st: Store)
    requires ProgramValid(pr, cx.globals) && ContextFits(pr, cx)
    requires StoreFits(cx, st, |st.ops|) && Valid(cx, c, labels, need, |st.ops|)
    ensures OutcomeFits(cx, labels, need, Eval(pr, cx.results, room, fuel, c, labels, st))
    decreases fuel, 0, c, 4
  {
    hide U, S, BlockArity, EvalOp, EvalBlock, EvalIf, EvalLoop, EvalCall, Jump;
    match c
    case End =>
    case Plain(op, next) =>
      OpSound(cx, op, st, |st.ops|);
      ThenSound(pr, cx, room, fuel, next, c, labels, |st.ops| - OpArity(op).params + OpArity(op).results, need, EvalOp(op, st));
    case Unreachable(_) =>
    case Block(bt, _, next) =>
      var t := BlockArity(cx.types, S(bt));
      BlockSound(pr, cx, room, fuel, c, labels, need, st);
      ThenSound(pr, cx, room, fuel, next, c, labels, |st.ops| - t.params + t.results, need, EvalBlock(pr, cx.results, room, fuel, c, labels, st));
    case Loop(bt, _, next) =>
      var t := BlockArity(cx.types, S(bt));
      LoopSound(pr, cx, room, fuel, c, labels, need, st);
      ThenSound(pr, cx, room, fuel, next, c, labels, |st.ops| - t.params + t.results, need, EvalLoop(pr, cx.results, room, fuel, c, labels, st));
    case If(bt, _, next) =>
      IfSound(pr, cx, room, fuel, c, labels, need, st);
      ThenSound(pr, cx, room, fuel, next, c, labels, |st.ops| - 1, need, EvalIf(pr, cx.results, room, fuel, c, labels, st));
    case IfElse(bt, _, _, next) =>
      var t := BlockArity(cx.types, S(bt));
      IfSound(pr, cx, room, fuel, c, labels, need, st);
      ThenSound(pr, cx, room, fuel, next, c, labels, |st.ops| - 1 + t.results, need, EvalIf(pr, cx.results, room, fuel, c, labels, st));
    case Br(l, _) => JumpFits(cx, labels, U(l), need, st);
    case BrIf(l, next) =>
      BrIfSound(cx, labels, U(l), need, st);
      ThenSound(pr, cx, room, fuel, next, c, labels, |st.ops| - 1, need, EvalBrIf(labels, U(l), st));
    case BrTable(_, ts, d, _) =>
      var i := st.ops[|st.ops| - 1] % TWO_32;
      BranchAllAt(labels, ts, |st.ops| - 1, i);
      JumpFits(cx, labels, U(if i < |ts| then ts[i] else d), need, st.(ops := Under(st.ops, 1)));
    case Return(_) =>
    case Call(f, next) =>
      CallSound(pr, cx, room, fuel, c, labels, need, st);
      ThenSound(pr, cx, room, fuel, next, c, labels, |st.ops| - cx.funcs[U(f)].params + cx.funcs[U(f)].results, need,
                EvalCall(pr, cx.results, room, fuel, c, st));
  }

  lemma {:induction false} ThenSound(pr: Program, cx: Context, room: Room, fuel: nat, next: Code, c: Code, labels: seq<nat>, mid: nat, need: nat, out: Outcome)
    requires ProgramValid(pr, cx.globals) && ContextFits(pr, cx) && next < c
    requires OutcomeFits(cx, labels, mid, out) && Valid(cx, next, labels, need, mid)
    ensures OutcomeFits(cx, labels, need, Then(pr, cx.results, room, fuel, next, c, labels, out))
    decreases fuel, 0, c, 0
  {
    hide Eval, Valid;
    if out.Normal? { EvalSound(pr, cx, room, fuel, next, labels, need, out.st); }
  }

  lemma JumpFits(cx: Context, labels: seq<nat>, depth: nat, need: nat, st: Store)
    requires StoreFits(cx, st, |st.ops|) && CanBranch(labels, depth, |st.ops|)
    ensures OutcomeFits(cx, labels, need, Jump(labels, depth, st))
  {
  }

  lemma BrIfSound(cx: Context, labels: seq<nat>, depth: nat, need: nat, st: Store)
    requires StoreFits(cx, st, |st.ops|) && |st.ops| >= 1 && CanBranch(labels, depth, |st.ops| - 1)
    ensures OutcomeFits(cx, labels, |st.ops| - 1, EvalBrIf(labels, depth, st))
  {
    hide Jump;
    JumpFits(cx, labels, depth, |st.ops| - 1, st.(ops := Under(st.ops, 1)));
  }

  lemma {:induction false} BranchAllAt(labels: seq<nat>, targets: seq<Imm>, h: int, i: nat)
    requires CanBranchAll(labels, targets, h)
    ensures i < |targets| ==> CanBranch(labels, U(targets[i]), h)
    decreases i
  {
    hide U;
    if 0 < i < |targets| { BranchAllAt(labels, targets[1..], h, i - 1); }
  }

  lemma {:induction false} BlockSound(pr: Program, cx: Context, room: Room, fuel: nat, c: Code, labels: seq<nat>, need: nat, st: Store)
    requires ProgramValid(pr, cx.globals) && ContextFits(pr, cx) && c.Block?
    requires StoreFits(cx, st, |st.ops|) && Valid(cx, c, labels, need, |st.ops|)
    ensures var t := BlockArity(cx.types, S(c.bt));
            OutcomeFits(cx, labels, |st.ops| - t.params + t.results, EvalBlock(pr, cx.results, room, fuel, c, labels, st))
    decreases fuel, 0, c, 2
  {
    hide U, S, BlockArity, Eval, Leave;
    var t := BlockArity(cx.types, S(c.bt));
    var under := Under(st.ops, t.params);
    var inner := st.(ops := Top(st.ops, t.params));
    EvalSound(pr, cx, Above(room, |under|), fuel, c.body, labels + [t.results], t.results, inner);
    var out := Eval(pr, cx.results, Above(room, |under|), fuel, c.body, labels + [t.results], inner);
    LeaveFits(cx, labels, t.results, t.results, out, under);
  }

  lemma {:induction false} IfSound(pr: Program, cx: Context, room: Room, fuel: nat, c: Code, labels: seq<nat>, need: nat, st: Store)
    requires ProgramValid(pr, cx.globals) && ContextFits(pr, cx) && (c.If? || c.IfElse?)
    requires StoreFits(cx, st, |st.ops|) && Valid(cx, c, labels, need, |st.ops|)
    ensures var t := BlockArity(cx.types, S(c.bt));
            OutcomeFits(cx, labels, |st.ops| - 1 + t.results, EvalIf(pr, cx.results, room, fuel, c, labels, st))
    decreases fuel, 0, c, 2
  {
    hide U, S, BlockArity, Eval, Leave;
    var t := BlockArity(cx.types, S(c.bt));
    var under := Under(st.ops, 1);
    var inner := st.(ops := []);
    if st.ops[|st.ops| - 1] != 0 || c.IfElse? {
      var branch := if st.ops[|st.ops| - 1] != 0 then c.thn else c.els;
      EvalSound(pr, cx, Above(room, |under|), fuel, branch, labels + [t.results], t.results, inner);
      var out := Eval(pr, cx.results, Above(room, |under|), fuel, branch, labels + [t.results], inner);
      LeaveFits(cx, labels, t.results, t.results, out, under);
    }
  }

  lemma {:induction false} LoopSound(pr: Program, cx: Context, room: Room, fuel: nat, c: Code, labels: seq<nat>, need: nat, st: Store)
    requires ProgramValid(pr, cx.globals) && ContextFits(pr, cx) && c.Loop?
    requires StoreFits(cx, st, |st.ops|) && Valid(cx, c, labels, need, |st.ops|)
    ensures var t := BlockArity(cx.types, S(c.bt));
            OutcomeFits(cx, labels, |st.ops| - t.params + t.results, EvalLoop(pr, cx.results, room, fuel, c, labels, st))
    decreases fuel, 0, c, 2
  {
    hide U, S, BlockArity, Iterate, Leave;
    var t := BlockArity(cx.types, S(c.bt));
    var under := Under(st.ops, t.params);
    var inner := st.(ops := Top(st.ops, t.params));
    IterateSound(pr, cx, Above(room, |under|), fuel, c, labels, inner);
    LeaveFits(cx, labels, t.params, t.results, Iterate(pr, cx.results, Above(room, |under|), fuel, c, labels, inner), under);
  }

  /** All iterations of a loop: no branch to the loop itself is left over. */
  lemma {:induction false} IterateSound(pr: Program, cx: Context, room: Room, fuel: nat, c: Code, labels: seq<nat>, st: Store)
    requires ProgramValid(pr, cx.globals) && ContextFits(pr, cx) && c.Loop?
    requires var t := BlockArity(cx.types, S(c.bt));
             StoreFits(cx, st, t.params) && Valid(cx, c.body, labels + [t.params], t.results, t.params)
    ensures var t := BlockArity(cx.types, S(c.bt));
            var out := Iterate(pr, cx.results, room, fuel, c, labels, st);
            OutcomeFits(cx, labels + [t.params], t.results, out) && (out.Branching? ==> out.depth > 0)
    decreases fuel, 0, c, 1
  {
    hide U, S, BlockArity, Eval, Valid;
    var t := BlockArity(cx.types, S(c.bt));
    EvalSound(pr, cx, room, fuel, c.body, labels + [t.params], t.results, st);
    var out := Eval(pr, cx.results, room, fuel, c.body, labels + [t.params], st);
    if out.Branching? && out.depth == 0 && fuel > 0 {
      IterateSound(pr, cx, room, fuel - 1, c, labels, Store(out.locals, out.vals, out.world));
    }
  }

  lemma {:induction false} CallSound(pr: Program, cx: Context, room: Room, fuel: nat, c: Code, labels: seq<nat>, need: nat, st: Store)
    requires ProgramValid(pr, cx.globals) && ContextFits(pr, cx) && c.Call?
    requires StoreFits(cx, st, |st.ops|) && Valid(cx, c, labels, need, |st.ops|)
    ensures var t := cx.funcs[U(c.func)];
            OutcomeFits(cx, labels, |st.ops| - t.params + t.results, EvalCall(pr, cx.results, room, fuel, c, st))
    decreases fuel, 0, c, 2
  {
    hide U, S, Invoke, EvalHost;
    var f := U(c.func);
    var fn := pr.env.funcs[f];
    var under, args := Under(st.ops, fn.typ.params), Top(st.ops, fn.typ.params);
    if fn.Host? {
      HostSound(pr.env, f, args, st.world);
    } else if fuel > 0 {
      InvokeSound(pr, Above(room, |under|), fuel - 1, f, args, st.world);
    }
  }

  lemma HostSound(e: Env, f: nat, args: seq<Value>, w: World)
    requires HostFits(e) && f < |e.funcs| && e.funcs[f].Host?
    ensures CallFits(e.funcs[f].typ.results, |w.globals|, EvalHost(e, e.funcs[f], args, w))
  {
    var log := w.log + [HostCall(e.funcs[f].id, args)];
    assert ReplyFits(e.host(log), e.funcs[f].typ.results);
  }

  /** A call with as many arguments as the type says never gets stuck and returns as many results. */
  lemma {:induction false} InvokeSound(pr: Program, room: Room, fuel: nat, f: nat, args: seq<Value>, w: World)
    requires ProgramValid(pr, |w.globals|) && f < |pr.env.funcs| && pr.env.funcs[f].Local?
    requires |args| == pr.env.funcs[f].typ.params
    ensures CallFits(pr.env.funcs[f].typ.results, |w.globals|, Invoke(pr, room, fuel, f, args, w))
    decreases fuel, 1, End, 0
  {
    hide Eval, Valid;
    var fn := pr.env.funcs[f];
    assert BodyValid(pr, |w.globals|, f);
    EvalSound(pr, ContextOf(pr.env, |w.globals|, f), CalleeRoom(room, fn), fuel, pr.bodies[f], [fn.typ.results],
              fn.typ.results, Store(args + Zeros(fn.localCount), [], w));
  }
}
