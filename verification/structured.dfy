// Reference semantics of function bodies, in the style of section 4.4.8 of the WebAssembly Core Specification 2.0:
// every block runs on an operand stack of its own, a branch carries only the values its target label takes, and
// nothing is known of bytes, offsets, label slots or stack heights.
module Structured {
  import opened Leb128
  import opened Bytecode
  import opened Runtime

  /** A loaded module together with the syntax of its function bodies. */
  datatype Program = Program(env: Env, bodies: seq<Code>)

  /** Locals, the operands of the innermost block (top last), and the world. */
  datatype Store = Store(locals: seq<Value>, ops: seq<Value>, world: World)

  /** How much of the thread's stacks is left: `Unbounded` is the specification's view; otherwise frames, value slots
      from the bottom of the current block's operands, and label slots. */
  datatype Room = Unbounded | Room(frames: int, slots: int, labels: int)

  /** Room as seen from a block that starts `n` operands higher. */
  function Above(room: Room, n: nat): Room
  {
    if room.Unbounded? then room else room.(slots := room.slots - n)
  }

  /** Ways in which running the interpreter on an accepted body still leaves its buffers. */
  datatype Breach = FunctionLabelBranch | LocalsOverrun

  datatype Outcome =
    | Normal(st: Store)                                        // fell through to the end of the sequence
    | Branching(depth: nat, vals: seq<Value>, locals: seq<Value>, world: World)
    | Returning(vals: seq<Value>, world: World)
    | Trapping(code: TrapCode)
    | Breached(breach: Breach)
    | Stuck                                                    // operands or indices missing: excluded by validity
    | OutOfFuel

  datatype CallOutcome =
    | Results(vals: seq<Value>, world: World)
    | CallTraps(code: TrapCode)
    | CallBreaches(breach: Breach)
    | CallStuck
    | CallOutOfFuel

  function Top(ops: seq<Value>, n: nat): seq<Value>
    requires n <= |ops|
  {
    ops[|ops| - n..]
  }

  function Under(ops: seq<Value>, n: nat): seq<Value>
    requires n <= |ops|
  {
    ops[..|ops| - n]
  }

  // ----- instructions without control flow -----

  function EvalOp(op: PlainOp, st: Store): Outcome
  {
    var n := |st.ops|;
    if n < OpArity(op).params || !OpInScope(op, |st.locals|, |st.world.globals|) then Stuck
    else
      var rest := Under(st.ops, OpArity(op).params);
      match op
      case Nop => Normal(st)
      case Drop => Normal(st.(ops := rest))
      case Select => Normal(st.(ops := rest + [if st.ops[n - 1] != 0 then st.ops[n - 3] else st.ops[n - 2]]))
      case LocalGet(i) => Normal(st.(ops := st.ops + [st.locals[U(i)]]))
      case LocalSet(i) => Normal(st.(ops := rest, locals := st.locals[U(i) := st.ops[n - 1]]))
      case LocalTee(i) => Normal(st.(locals := st.locals[U(i) := st.ops[n - 1]]))
      case GlobalGet(i) => Normal(st.(ops := st.ops + [st.world.globals[U(i)]]))
      case GlobalSet(i) =>
        Normal(st.(ops := rest, world := st.world.(globals := st.world.globals[U(i) := st.ops[n - 1]])))
      case Const(i) => Normal(st.(ops := st.ops + [S(i)]))
      case Eqz => Normal(st.(ops := rest + [Truth(st.ops[n - 1] == 0)]))
      case Binary(b) =>
        match BinaryOp(b, st.ops[n - 2], st.ops[n - 1])
        case Val(v) => Normal(st.(ops := rest + [v]))
        case Traps(code) => Trapping(code)
  }

  // ----- control flow -----

  /** A taken branch: `labels` holds the arity of every enclosing label, innermost last. */
  function Jump(labels: seq<nat>, depth: nat, st: Store): Outcome
  {
    if depth >= |labels| || |st.ops| < labels[|labels| - 1 - depth] then Stuck
    else Branching(depth, Top(st.ops, labels[|labels| - 1 - depth]), st.locals, st.world)
  }

  /** What a block or if makes of its body's outcome; `under` are the operands below the block. */
  function Leave(out: Outcome, under: seq<Value>): Outcome
  {
    match out
    case Normal(st) => Normal(st.(ops := under + st.ops))
    case Branching(d, vals, locals, w) =>
      if d == 0 then Normal(Store(locals, under + vals, w)) else Branching(d - 1, vals, locals, w)
    case _ => out
  }

  /** `results` is the number of values the function returns. Fuel bounds loop iterations and call depth. */
  function Eval(pr: Program, results: nat, room: Room, fuel: nat, c: Code, labels: seq<nat>, st: Store): Outcome
    decreases fuel, 0, c, 2
  {
    match c
    case End => Normal(st)
    case Plain(op, next) => Then(pr, results, room, fuel, next, c, labels, EvalOp(op, st))
    case Unreachable(_) => Trapping(TrapUnreachable)
    case Block(_, _, next) => Then(pr, results, room, fuel, next, c, labels, EvalBlock(pr, results, room, fuel, c, labels, st))
    case Loop(_, _, next) => Then(pr, results, room, fuel, next, c, labels, EvalLoop(pr, results, room, fuel, c, labels, st))
    case If(_, _, next) => Then(pr, results, room, fuel, next, c, labels, EvalIf(pr, results, room, fuel, c, labels, st))
    case IfElse(_, _, _, next) => Then(pr, results, room, fuel, next, c, labels, EvalIf(pr, results, room, fuel, c, labels, st))
    case Br(l, _) => Jump(labels, U(l), st)
    case BrIf(l, next) => Then(pr, results, room, fuel, next, c, labels, EvalBrIf(labels, U(l), st))
    case BrTable(_, ts, d, _) => EvalBrTable(labels, ts, d, st)
    case Return(_) => if |st.ops| < results then Stuck else Returning(Top(st.ops, results), st.world)
    case Call(_, next) => Then(pr, results, room, fuel, next, c, labels, EvalCall(pr, results, room, fuel, c, st))
  }

  /** Continues with the rest of the sequence `c` after a normal outcome. */
  function Then(pr: Program, results: nat, room: Room, fuel: nat, next: Code, c: Code, labels: seq<nat>, out: Outcome): Outcome
    requires next < c
    decreases fuel, 0, c, 0
  {
    if out.Normal? then Eval(pr, results, room, fuel, next, labels, out.st) else out
  }

  function EvalBrIf(labels: seq<nat>, depth: nat, st: Store): Outcome
  {
    var n := |st.ops|;
    if n < 1 then Stuck
    else
      var st' := st.(ops := Under(st.ops, 1));
      if st.ops[n - 1] != 0 then Jump(labels, depth, st') else Normal(st')
  }

  function EvalBrTable(labels: seq<nat>, targets: seq<Imm>, dflt: Imm, st: Store): Outcome
  {
    var n := |st.ops|;
    if n < 1 then Stuck
    else
      var i := st.ops[n - 1] % TWO_32;
      Jump(labels, U(if i < |targets| then targets[i] else dflt), st.(ops := Under(st.ops, 1)))
  }

  /** A block's body runs on its parameters alone. */
  function EvalBlock(pr: Program, results: nat, room: Room, fuel: nat, c: Code, labels: seq<nat>, st: Store): Outcome
    requires c.Block?
    decreases fuel, 0, c, 1
  {
    var t := BlockArity(pr.env.types, S(c.bt));
    if |st.ops| < t.params then Stuck
    else
      var under := Under(st.ops, t.params);
      Leave(Eval(pr, results, Above(room, |under|), fuel, c.body, labels + [t.results], st.(ops := Top(st.ops, t.params))), under)
  }

  /** An if takes its condition and runs one branch on no operands; without else the other branch is empty. */
  function EvalIf(pr: Program, results: nat, room: Room, fuel: nat, c: Code, labels: seq<nat>, st: Store): Outcome
    requires c.If? || c.IfElse?
    decreases fuel, 0, c, 1
  {
    var n := |st.ops|;
    if n < 1 then Stuck
    else
      var t := BlockArity(pr.env.types, S(c.bt));
      if st.ops[n - 1] == 0 && c.If? then Normal(st.(ops := Under(st.ops, 1)))
      else
        var branch := if st.ops[n - 1] != 0 then c.thn else c.els;
        Leave(Eval(pr, results, Above(room, n - 1), fuel, branch, labels + [t.results], st.(ops := [])), Under(st.ops, 1))
  }

  function EvalLoop(pr: Program, results: nat, room: Room, fuel: nat, c: Code, labels: seq<nat>, st: Store): Outcome
    requires c.Loop?
    decreases fuel, 0, c, 1
  {
    var t := BlockArity(pr.env.types, S(c.bt));
    if |st.ops| < t.params then Stuck
    else
      var under := Under(st.ops, t.params);
      Leave(Iterate(pr, results, Above(room, |under|), fuel, c, labels, st.(ops := Top(st.ops, t.params))), under)
  }

  /** Runs a loop body on its parameters until it is left other than by a branch to the loop. */
  function Iterate(pr: Program, results: nat, room: Room, fuel: nat, c: Code, labels: seq<nat>, st: Store): Outcome
    requires c.Loop?
    decreases fuel, 0, c, 0
  {
    var out := Eval(pr, results, room, fuel, c.body, labels + [BlockArity(pr.env.types, S(c.bt)).params], st);
    if out.Branching? && out.depth == 0 then
      if fuel == 0 then OutOfFuel
      else Iterate(pr, results, room, fuel - 1, c, labels, Store(out.locals, out.vals, out.world))
    else out
  }

  function EvalCall(pr: Program, results: nat, room: Room, fuel: nat, c: Code, st: Store): Outcome
    requires c.Call?
    decreases fuel, 0, c, 1
  {
    var f := U(c.func);
    if f >= |pr.env.funcs| || |st.ops| < pr.env.funcs[f].typ.params then Stuck
    else
      var fn := pr.env.funcs[f];
      var under, args := Under(st.ops, fn.typ.params), Top(st.ops, fn.typ.params);
      if fn.Host? then Resume(EvalHost(pr.env, fn, args, st.world), st.locals, under)
      else if fuel == 0 then OutOfFuel
      else Resume(Invoke(pr, Above(room, |under|), fuel - 1, f, args, st.world), st.locals, under)
  }

  /** The caller after a call: its own operands with the results on top. */
  function Resume(out: CallOutcome, locals: seq<Value>, under: seq<Value>): Outcome
  {
    match out
    case Results(vals, w) => Normal(Store(locals, under + vals, w))
    case CallTraps(code) => Trapping(code)
    case CallBreaches(b) => Breached(b)
    case CallStuck => Stuck
    case CallOutOfFuel => OutOfFuel
  }

  /** The host's answer; a yield is invisible to the caller. */
  function EvalHost(e: Env, fn: Func, args: seq<Value>, w: World): CallOutcome
    requires fn.Host?
  {
    var log := w.log + [HostCall(fn.id, args)];
    match e.host(log)
    case Answer(results) => Results(results, w.(log := log))
    case Yield => Results([], w.(log := log))
    case Fail(code) => CallTraps(HostError(code))
  }

  /** Calls a local function. With bounded room the frame, value and label budgets are tested in the interpreter's
      order, and a branch to the function's own label is a breach; without, that branch returns. */
  function Invoke(pr: Program, room: Room, fuel: nat, f: nat, args: seq<Value>, w: World): CallOutcome
    requires f < |pr.env.funcs|
    decreases fuel, 2, End, 0
  {
    var fn := pr.env.funcs[f];
    if !fn.Local? || f >= |pr.bodies| || |args| != fn.typ.params then CallStuck
    else if room.Room? && room.frames < 1 then CallTraps(StackOverflow)
    else if room.Room? && TotalLocals(fn) > room.slots then CallBreaches(LocalsOverrun)
    else if room.Room? && TotalLocals(fn) + fn.maxStack > room.slots then CallTraps(StackOverflow)
    else if room.Room? && fn.maxLabels > room.labels then CallTraps(LabelStackOverflow)
    else InvokeBody(pr, room, fuel, f, args, w)
  }

  /** The room a callee's own operands have. */
  function CalleeRoom(room: Room, fn: Func): Room
    requires fn.Local?
  {
    if room.Unbounded? then room
    else Room(room.frames - 1, room.slots - TotalLocals(fn), room.labels - fn.maxLabels)
  }

  function InvokeBody(pr: Program, room: Room, fuel: nat, f: nat, args: seq<Value>, w: World): CallOutcome
    requires f < |pr.env.funcs| && pr.env.funcs[f].Local? && f < |pr.bodies|
    decreases fuel, 1, End, 0
  {
    var fn := pr.env.funcs[f];
    FinishCall(room, Eval(pr, fn.typ.results, CalleeRoom(room, fn), fuel, pr.bodies[f], [fn.typ.results],
                          Store(args + Zeros(fn.localCount), [], w)))
  }

  function FinishCall(room: Room, out: Outcome): CallOutcome
  {
    match out
    case Normal(st) => Results(st.ops, st.world)
    case Branching(d, vals, _, w) =>
      if d != 0 then CallStuck
      else if room.Unbounded? then Results(vals, w)
      else CallBreaches(FunctionLabelBranch)
    case Returning(vals, w) => Results(vals, w)
    case Trapping(code) => CallTraps(code)
    case Breached(b) => CallBreaches(b)
    case Stuck => CallStuck
    case OutOfFuel => CallOutOfFuel
  }
}
