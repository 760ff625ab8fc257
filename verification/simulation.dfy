// The flat interpreter simulates the structured semantics.
//
// For a loaded, valid program every evaluation of the reference semantics is matched step by step: a fall-through, a
// branch, a return or a trap of the structured body is reached by the byte machine with the same locals, operands and
// world; running out of fuel is matched by that many machine steps; and in every state passed on the way the operand
// height and label depth are the ones the loader's scan recorded for that byte offset.
module Simulation {
  import opened Leb128
  import opened Bytecode
  import opened Runtime
  import opened Structured
  import opened Validity
  import opened Flat

  // ----- what the loader promises about a body -----

  /** Offsets of reachable instructions carry the marks of their height; the recorded maxima cover them; every block and
      if finds its jump entry. `a` is the operand height in the frame, `k` the number of open labels. */
  ghost predicate Laid(types: seq<FuncType>, funcs: seq<FuncType>, fn: Func, marks: map<nat, Mark>, c: Code, p: nat, a: int, k: nat)
    requires fn.Local?
    decreases c
  {
    && p in marks && marks[p] == Mark(a, k) && a <= fn.maxStack && k <= fn.maxLabels
    && match c
       case End => true
       case Plain(op, next) =>
         Laid(types, funcs, fn, marks, next, p + |OpBytes(op)|, a - OpArity(op).params + OpArity(op).results, k)
       case Unreachable(_) => true
       case Block(bt, body, next) =>
         var t, p1 := BlockArity(types, S(bt)), p + 1 + |bt|;
         && Lookup(fn.jumps, p1) == Entry(JumpEntry(p1, p1 + Size(body) + 1, 0))
         && Laid(types, funcs, fn, marks, body, p1, a, k + 1)
         && Laid(types, funcs, fn, marks, next, p1 + Size(body) + 1, a - t.params + t.results, k)
       case Loop(bt, body, next) =>
         var t, p1 := BlockArity(types, S(bt)), p + 1 + |bt|;
         && Laid(types, funcs, fn, marks, body, p1, a, k + 1)
         && Laid(types, funcs, fn, marks, next, p1 + Size(body) + 1, a - t.params + t.results, k)
       case If(bt, thn, next) =>
         var t, p1 := BlockArity(types, S(bt)), p + 1 + |bt|;
         && Lookup(fn.jumps, p1) == Entry(JumpEntry(p1, p1 + Size(thn) + 1, 0))
         && Laid(types, funcs, fn, marks, thn, p1, a - 1, k + 1)
         && Laid(types, funcs, fn, marks, next, p1 + Size(thn) + 1, a - 1 + t.results, k)
       case IfElse(bt, thn, els, next) =>
         var t, p1 := BlockArity(types, S(bt)), p + 1 + |bt|;
         var p2 := p1 + Size(thn) + 1;
         && Lookup(fn.jumps, p1) == Entry(JumpEntry(p1, p2 + Size(els) + 1, p2))
         && Laid(types, funcs, fn, marks, thn, p1, a - 1, k + 1)
         && Laid(types, funcs, fn, marks, els, p2, a - 1, k + 1)
         && Laid(types, funcs, fn, marks, next, p2 + Size(els) + 1, a - 1 + t.results, k)
       case Br(_, _) => true
       case BrIf(l, next) => Laid(types, funcs, fn, marks, next, p + 1 + |l|, a - 1, k)
       case BrTable(_, _, _, _) => true
       case Return(_) => true
       case Call(f, next) =>
         U(f) < |funcs| ==> Laid(types, funcs, fn, marks, next, p + 1 + |f|, a - funcs[U(f)].params + funcs[U(f)].results, k)
  }

  /** A program, the number of its globals, and the marks of each function. */
  datatype Image = Image(pr: Program, globals: nat, marks: seq<map<nat, Mark>>)

  predicate IsLocal(im: Image, f: nat)
  {
    f < |im.pr.env.funcs| && im.pr.env.funcs[f].Local? && f < |im.pr.bodies| && f < |im.marks|
  }

  ghost predicate BodyLoaded(im: Image, f: nat)
    requires IsLocal(im, f)
  {
    var fn := im.pr.env.funcs[f];
    && Encodes(fn.code, im.pr.bodies[f])
    && Laid(im.pr.env.types, FuncTypes(im.pr.env.funcs), fn, im.marks[f], im.pr.bodies[f], 0, 0, 1)
  }

  /** Every body is valid and loaded. */
  ghost predicate Loaded(im: Image)
  {
    && ProgramValid(im.pr, im.globals)
    && |im.marks| == |im.pr.env.funcs| == |im.pr.bodies|
    && forall f: nat :: f < |im.pr.env.funcs| && im.pr.env.funcs[f].Local? ==> BodyLoaded(im, f)
  }

  // ----- machine runs -----

  /** Label slots owned by a list of frames. */
  function Owned(e: Env, frames: seq<Frame>): int
  {
    if frames == [] then 0
    else
      var fr := frames[|frames| - 1];
      Owned(e, frames[..|frames| - 1]) +
      (if fr.func < |e.funcs| && e.funcs[fr.func].Local? then e.funcs[fr.func].maxLabels else 0)
  }

  /** The running frame agrees with the scan, and all stacks are within their buffers. */
  ghost predicate Good(im: Image, s: State)
  {
    && s.frames != []
    && var e, fr := im.pr.env, s.frames[|s.frames| - 1];
    && IsLocal(im, fr.func)
    && var fn := e.funcs[fr.func];
    && fr.ip in im.marks[fr.func]
    && im.marks[fr.func][fr.ip] == Mark(|s.stack| - fr.base - TotalLocals(fn), |fr.labels|)
    && |s.stack| <= fr.base + TotalLocals(fn) + fn.maxStack <= e.stackSize
    && |fr.labels| <= fn.maxLabels
    && |s.frames| <= e.callStackSize
    && Owned(e, s.frames) == s.labelsTop <= e.labelPoolSize
  }

  /** `n` steps through good states, resuming after every yield. */
  ghost predicate Runs(im: Image, s: State, n: nat, t: State)
    decreases n
  {
    if n == 0 then s == t
    else
      && Good(im, s)
      && match Step(im.pr.env, s)
         case Next(s1) => Runs(im, s1, n - 1, t)
         case Yielded(s1) => Runs(im, s1, n - 1, t)
         case _ => false
  }

  ghost predicate Reaches(im: Image, s: State, t: State)
  {
    exists n: nat :: Runs(im, s, n, t)
  }

  /** At least one step. */
  ghost predicate Progresses(im: Image, s: State, t: State)
  {
    exists n: nat :: n > 0 && Runs(im, s, n, t)
  }

  /** The run stops with an error code or leaves a buffer. */
  ghost predicate StopsWith(im: Image, s: State, r: StepResult)
  {
    exists t: State ::
      Reaches(im, s, t) && t.frames != [] && Step(im.pr.env, t) == r && (r.Trapped? ==> Good(im, t))
  }

  /** The run takes `n` steps and is still going. */
  ghost predicate RunsFor(im: Image, s: State, n: nat)
  {
    exists m: nat, t: State :: m >= n && Runs(im, s, m, t)
  }

  lemma {:induction false} RunsTrans(im: Image, s: State, m: nat, t: State, n: nat, u: State)
    requires Runs(im, s, m, t) && Runs(im, t, n, u)
    ensures Runs(im, s, m + n, u)
    decreases m
  {
    hide Step;
    if m > 0 {
      var s1 := Step(im.pr.env, s).s;
      RunsTrans(im, s1, m - 1, t, n, u);
    }
  }

  lemma OneStep(im: Image, s: State, t: State)
    requires Good(im, s) && (Step(im.pr.env, s) == Next(t) || Step(im.pr.env, s) == Yielded(t))
    ensures Runs(im, s, 1, t)
  {
    hide Good, Step;
    assert Runs(im, t, 0, t);
  }

  lemma ReachesTrans(im: Image, s: State, t: State, u: State)
    requires Reaches(im, s, t)
    ensures Reaches(im, t, u) ==> Reaches(im, s, u)
    ensures Progresses(im, t, u) ==> Progresses(im, s, u)
  {
    hide Runs;
    var m: nat :| Runs(im, s, m, t);
    if Reaches(im, t, u) {
      var n: nat :| Runs(im, t, n, u);
      RunsTrans(im, s, m, t, n, u);
    }
    if Progresses(im, t, u) {
      var n: nat :| n > 0 && Runs(im, t, n, u);
      RunsTrans(im, s, m, t, n, u);
    }
  }

  lemma ReachesSelf(im: Image, s: State)
    ensures Reaches(im, s, s)
  {
    assert Runs(im, s, 0, s);
  }

  lemma StopsTrans(im: Image, s: State, t: State, r: StepResult)
    requires Reaches(im, s, t) && StopsWith(im, t, r)
    ensures StopsWith(im, s, r)
  {
    hide Reaches, Step, Good;
    var u: State :| Reaches(im, t, u) && u.frames != [] && Step(im.pr.env, u) == r && (r.Trapped? ==> Good(im, u));
    ReachesTrans(im, s, t, u);
  }

  lemma RunsForTrans(im: Image, s: State, m: nat, t: State, n: nat)
    requires Runs(im, s, m, t) && RunsFor(im, t, n)
    ensures RunsFor(im, s, m + n)
  {
    hide Runs;
    var k: nat, u: State :| k >= n && Runs(im, t, k, u);
    RunsTrans(im, s, m, t, k, u);
  }

  // ----- the machine state of a point in a structured run -----

  /** Everything about the running activation that a nested sequence does not change: the frames below, the slots under
      the frame's locals, the operands under the current block, the open labels, and the room. */
  datatype Spot = Spot(
    callers: seq<Frame>,
    func: nat,
    under: seq<Value>,
    below: seq<Value>,
    labels: seq<Label>,
    labelsTop: nat,
    room: Room)

  function StackOf(sp: Spot, locals: seq<Value>, ops: seq<Value>): seq<Value>
  {
    sp.under + locals + sp.below + ops
  }

  function StateAt(sp: Spot, p: nat, st: Store): State
  {
    State(sp.callers + [Frame(sp.func, p, |sp.under|, sp.labels)], StackOf(sp, st.locals, st.ops), sp.labelsTop, st.world)
  }

  function TargetLabel(sp: Spot, depth: nat): Label
    requires depth < |sp.labels|
  {
    sp.labels[|sp.labels| - 1 - depth]
  }

  /** The label stack after a branch: a loop keeps its label. */
  function CutLabels(labels: seq<Label>, depth: nat): seq<Label>
    requires depth < |labels|
  {
    if labels[|labels| - 1 - depth].op == 0x03 then labels[..|labels| - depth] else labels[..|labels| - depth - 1]
  }

  function JumpState(sp: Spot, depth: nat, vals: seq<Value>, locals: seq<Value>, w: World): State
    requires depth < |sp.labels| && TargetLabel(sp, depth).stackTop <= |sp.under| + |locals| + |sp.below|
  {
    State(sp.callers + [Frame(sp.func, TargetLabel(sp, depth).pc, |sp.under|, CutLabels(sp.labels, depth))],
          StackOf(sp, locals, [])[..TargetLabel(sp, depth).stackTop] + vals, sp.labelsTop, w)
  }

  function ReturnState(sp: Spot, owned: nat, vals: seq<Value>, w: World): State
    requires owned <= sp.labelsTop
  {
    State(sp.callers, sp.under + vals, sp.labelsTop - owned, w)
  }

  function BreachFault(b: Breach): FaultKind
  {
    match b
    case FunctionLabelBranch => RanOffEnd
    case LocalsOverrun => StackOverrun
  }

  /** The machine, started in `s`, does what the structured outcome says; `q` is where the sequence ends. */
  ghost predicate Simulates(im: Image, s: State, sp: Spot, q: nat, fuel: nat, out: Outcome)
  {
    match out
    case Normal(st) => Reaches(im, s, StateAt(sp, q, st)) && Good(im, StateAt(sp, q, st))
    case Branching(d, vals, locals, w) =>
      && d < |sp.labels| && TargetLabel(sp, d).stackTop <= |sp.under| + |locals| + |sp.below|
      && Progresses(im, s, JumpState(sp, d, vals, locals, w))
    case Returning(vals, w) =>
      && sp.func < |im.pr.env.funcs| && im.pr.env.funcs[sp.func].Local?
      && im.pr.env.funcs[sp.func].maxLabels <= sp.labelsTop
      && Reaches(im, s, ReturnState(sp, im.pr.env.funcs[sp.func].maxLabels, vals, w))
    case Trapping(code) => StopsWith(im, s, StepResult.Trapped(code))
    case Breached(b) => StopsWith(im, s, Fault(BreachFault(b)))
    case Stuck => false
    case OutOfFuel => RunsFor(im, s, fuel)
  }

  /** Steps taken before do not matter. */
  lemma After(im: Image, s: State, t: State, sp: Spot, q: nat, fuel: nat, out: Outcome)
    requires Reaches(im, s, t) && Simulates(im, t, sp, q, fuel, out)
    ensures Simulates(im, s, sp, q, fuel, out)
  {
    hide Runs, Good, Step, StateAt, JumpState, ReturnState;
    match out
    case Normal(st) => ReachesTrans(im, s, t, StateAt(sp, q, st));
    case Branching(d, vals, locals, w) => ReachesTrans(im, s, t, JumpState(sp, d, vals, locals, w));
    case Returning(vals, w) =>
      ReachesTrans(im, s, t, ReturnState(sp, im.pr.env.funcs[sp.func].maxLabels, vals, w));
    case Trapping(code) => StopsTrans(im, s, t, StepResult.Trapped(code));
    case Breached(b) => StopsTrans(im, s, t, Fault(BreachFault(b)));
    case OutOfFuel =>
      var m: nat :| Runs(im, s, m, t);
      RunsForTrans(im, s, m, t, fuel);
      var k: nat, u: State :| k >= m + fuel && Runs(im, s, k, u);
  }

  // ----- well-placed spots -----

  predicate LabelsOk(labels: seq<Label>, base: nat, bound: nat, results: nat, codeSize: nat)
  {
    && labels != [] && labels[0] == Label(0x02, base, 0, results, codeSize)
    && forall i :: 0 <= i < |labels| ==> labels[i].stackTop <= bound
  }

  ghost predicate SpotOk(im: Image, cx: Context, sp: Spot)
  {
    && IsLocal(im, sp.func) && cx == ContextOf(im.pr.env, im.globals, sp.func)
    && var e, fn := im.pr.env, im.pr.env.funcs[sp.func];
    && LabelsOk(sp.labels, |sp.under|, |sp.under| + cx.locals + |sp.below|, cx.results, |fn.code|)
    && |sp.under| + cx.locals + fn.maxStack <= e.stackSize
    && |sp.callers| + 1 <= e.callStackSize
    && Owned(e, sp.callers) + fn.maxLabels == sp.labelsTop <= e.labelPoolSize
    && sp.room == Room(e.callStackSize - |sp.callers| - 1,
                       e.stackSize - |sp.under| - cx.locals - |sp.below|, e.labelPoolSize - sp.labelsTop)
  }

  /** `Laid` for the function running at `sp`. */
  ghost predicate LaidAt(im: Image, cx: Context, sp: Spot, c: Code, p: nat, h: nat)
    requires IsLocal(im, sp.func)
  {
    Laid(cx.types, cx.funcs, im.pr.env.funcs[sp.func], im.marks[sp.func], c, p, |sp.below| + h, |sp.labels|)
  }

  lemma OwnedSnoc(e: Env, frames: seq<Frame>, fr: Frame)
    requires fr.func < |e.funcs| && e.funcs[fr.func].Local?
    ensures Owned(e, frames + [fr]) == Owned(e, frames) + e.funcs[fr.func].maxLabels
  {
    assert (frames + [fr])[..|frames|] == frames;
  }

  lemma LaidBound(cx: Context, fn: Func, marks: map<nat, Mark>, c: Code, p: nat, a: int, k: nat)
    requires fn.Local? && Laid(cx.types, cx.funcs, fn, marks, c, p, a, k)
    ensures a <= fn.maxStack && k <= fn.maxLabels
  {
  }

  /** A state reached at an instruction that the scan marked is good. */
  lemma GoodAt(im: Image, cx: Context, sp: Spot, c: Code, p: nat, st: Store)
    requires SpotOk(im, cx, sp) && StoreFits(cx, st, |st.ops|) && LaidAt(im, cx, sp, c, p, |st.ops|)
    ensures Good(im, StateAt(sp, p, st))
  {
    OwnedSnoc(im.pr.env, sp.callers, Frame(sp.func, p, |sp.under|, sp.labels));
    hide Owned;
  }

  function RegsAt(sp: Spot, p: nat, st: Store): Regs
  {
    Regs(p, sp.labels, StackOf(sp, st.locals, st.ops), st.world)
  }

  lemma StepAt(im: Image, sp: Spot, p: nat, st: Store)
    requires IsLocal(im, sp.func)
    ensures var e := im.pr.env;
            Step(e, StateAt(sp, p, st)) ==
            Apply(e, sp.callers, sp.func, |sp.under|, sp.labelsTop,
                  Exec(e, e.funcs[sp.func], |sp.under|, RegsAt(sp, p, st)))
  {
    hide Exec, Apply, StackOf;
    var s := StateAt(sp, p, st);
    assert s.frames[..|s.frames| - 1] == sp.callers;
  }

  // ----- instructions without control flow -----

  /** The argument the interpreter decodes for a plain instruction. */
  function OpArg(op: PlainOp): int
  {
    match op
    case LocalGet(i) => U(i)
    case LocalSet(i) => U(i)
    case LocalTee(i) => U(i)
    case GlobalGet(i) => U(i)
    case GlobalSet(i) => U(i)
    case Const(i) => S(i)
    case _ => 0
  }

  lemma OpDecoded(e: Env, fn: Func, base: nat, op: PlainOp, r: Regs)
    requires fn.Local? && OpAt(fn.code, r.ip, op)
    ensures Exec(e, fn, base, r) == DoOp(e, base, OpBytes(op)[0], OpArg(op), r.(ip := r.ip + |OpBytes(op)|))
  {
    hide U, S, ReadU32, ReadS32, DoOp, ImmAt, DoBlock, DoIf, DoElse, DoEnd, DoBr, DoBrTable, DoReturn, DoCall;
    match op
    case LocalGet(i) => ImmRead(fn.code, r.ip + 1, i);
    case LocalSet(i) => ImmRead(fn.code, r.ip + 1, i);
    case LocalTee(i) => ImmRead(fn.code, r.ip + 1, i);
    case GlobalGet(i) => ImmRead(fn.code, r.ip + 1, i);
    case GlobalSet(i) => ImmRead(fn.code, r.ip + 1, i);
    case Const(i) => ImmRead(fn.code, r.ip + 1, i);
    case _ =>
  }

  /** Where locals and operands sit on the value stack. */
  lemma StackShape(sp: Spot, locals: seq<Value>, ops: seq<Value>, n: nat)
    requires n <= |ops|
    ensures var s := StackOf(sp, locals, ops);
            && |s| == |sp.under| + |locals| + |sp.below| + |ops|
            && (forall i :: 0 <= i < |locals| ==> s[|sp.under| + i] == locals[i])
            && (forall i :: 0 <= i < |ops| ==> s[|s| - |ops| + i] == ops[i])
            && s[..|s| - n] == StackOf(sp, locals, Under(ops, n))
            && s[|s| - n..] == Top(ops, n)
  {
    var s := StackOf(sp, locals, ops);
    var front := sp.under + locals + sp.below;
    assert s == front + ops;
    assert s[..|s| - n] == front + ops[..|ops| - n];
    assert s[|s| - n..] == ops[|ops| - n..];
  }

  lemma StackPush(sp: Spot, locals: seq<Value>, ops: seq<Value>, v: seq<Value>)
    ensures StackOf(sp, locals, ops) + v == StackOf(sp, locals, ops + v)
  {
    var front := sp.under + locals + sp.below;
    assert front + ops + v == front + (ops + v);
  }

  lemma StackSetLocal(sp: Spot, locals: seq<Value>, ops: seq<Value>, i: nat, v: Value)
    requires i < |locals|
    ensures |sp.under| + i < |StackOf(sp, locals, ops)|
    ensures StackOf(sp, locals, ops)[|sp.under| + i := v] == StackOf(sp, locals[i := v], ops)
  {
    var u, rest := sp.under, sp.below + ops;
    assert StackOf(sp, locals, ops) == u + locals + rest;
    assert StackOf(sp, locals[i := v], ops) == u + locals[i := v] + rest;
    assert (u + locals + rest)[|u| + i := v] == u + locals[i := v] + rest;
  }

  /** What `DoOp` must do for the structured outcome of a plain instruction. */
  predicate OpMatches(sp: Spot, r: Regs, out: Outcome, eff: Effect)
  {
    match out
    case Normal(st) => eff == Go(Regs(r.ip, r.labels, StackOf(sp, st.locals, st.ops), st.world))
    case Trapping(code) => eff == Raise(code)
    case _ => false
  }

  lemma OperandOp(e: Env, sp: Spot, op: PlainOp, st: Store, r: Regs)
    requires op.Nop? || op.Drop? || op.Select?
    requires OpArity(op).params <= |st.ops|
    requires r.stack == StackOf(sp, st.locals, st.ops) && r.world == st.world
    ensures OpMatches(sp, r, EvalOp(op, st), DoOp(e, |sp.under|, OpBytes(op)[0], OpArg(op), r))
  {
    hide BinaryOp, Truth, StackOf, U, S;
    StackShape(sp, st.locals, st.ops, OpArity(op).params);
    if op.Select? {
      var k := |st.ops|;
      StackPush(sp, st.locals, Under(st.ops, 3), [if st.ops[k - 1] != 0 then st.ops[k - 3] else st.ops[k - 2]]);
    }
  }

  lemma EqzMatches(e: Env, sp: Spot, st: Store, r: Regs)
    requires |st.ops| >= 1
    requires r.stack == StackOf(sp, st.locals, st.ops) && r.world == st.world
    ensures OpMatches(sp, r, EvalOp(Eqz, st), DoOp(e, |sp.under|, 0x45, 0, r))
  {
    hide BinaryOp, Truth, StackOf, U, S;
    StackShape(sp, st.locals, st.ops, 1);
    var v := Truth(st.ops[|st.ops| - 1] == 0);
    StackPush(sp, st.locals, Under(st.ops, 1), [v]);
    assert r.stack[|r.stack| - 1 := v] == r.stack[..|r.stack| - 1] + [v];
  }

  lemma BinaryMatches(e: Env, sp: Spot, op: PlainOp, st: Store, r: Regs)
    requires op.Binary? && IsBinary(op.op) && |st.ops| >= 2
    requires r.stack == StackOf(sp, st.locals, st.ops) && r.world == st.world
    ensures OpMatches(sp, r, EvalOp(op, st), DoOp(e, |sp.under|, OpBytes(op)[0], OpArg(op), r))
  {
    hide BinaryOp, Truth, StackOf, U, S;
    StackShape(sp, st.locals, st.ops, 2);
    var k := |st.ops|;
    var v := BinaryOp(op.op, st.ops[k - 2], st.ops[k - 1]);
    if v.Val? { StackPush(sp, st.locals, Under(st.ops, 2), [v.v]); }
  }

  lemma LocalGetOp(e: Env, sp: Spot, op: PlainOp, st: Store, r: Regs)
    requires op.LocalGet? && OpInScope(op, |st.locals|, |st.world.globals|)
    requires r.stack == StackOf(sp, st.locals, st.ops) && r.world == st.world && |r.stack| < e.stackSize
    ensures OpMatches(sp, r, EvalOp(op, st), DoOp(e, |sp.under|, OpBytes(op)[0], OpArg(op), r))
  {
    hide BinaryOp, Truth, StackOf, U, S;
    StackShape(sp, st.locals, st.ops, 0);
    StackPush(sp, st.locals, st.ops, [st.locals[U(op.idx)]]);
  }

  lemma LocalSetOp(e: Env, sp: Spot, op: PlainOp, st: Store, r: Regs)
    requires (op.LocalSet? || op.LocalTee?) && |st.ops| >= 1 && OpInScope(op, |st.locals|, |st.world.globals|)
    requires r.stack == StackOf(sp, st.locals, st.ops) && r.world == st.world
    ensures OpMatches(sp, r, EvalOp(op, st), DoOp(e, |sp.under|, OpBytes(op)[0], OpArg(op), r))
  {
    hide BinaryOp, Truth, StackOf, U, S;
    var v := st.ops[|st.ops| - 1];
    StackTop(sp, st.locals, st.ops);
    if op.LocalSet? {
      StackSetLocal(sp, st.locals, Under(st.ops, 1), U(op.idx), v);
    } else {
      StackSetLocal(sp, st.locals, st.ops, U(op.idx), v);
    }
  }

  lemma StackTop(sp: Spot, locals: seq<Value>, ops: seq<Value>)
    requires ops != []
    ensures var s := StackOf(sp, locals, ops);
            s != [] && s[|s| - 1] == ops[|ops| - 1] && s[..|s| - 1] == StackOf(sp, locals, Under(ops, 1))
  {
    hide StackOf;
    StackShape(sp, locals, ops, 1);
  }

  lemma LocalOp(e: Env, sp: Spot, op: PlainOp, st: Store, r: Regs)
    requires op.LocalGet? || op.LocalSet? || op.LocalTee?
    requires OpArity(op).params <= |st.ops| && OpInScope(op, |st.locals|, |st.world.globals|)
    requires r.stack == StackOf(sp, st.locals, st.ops) && r.world == st.world
    requires op.LocalGet? ==> |r.stack| < e.stackSize
    ensures OpMatches(sp, r, EvalOp(op, st), DoOp(e, |sp.under|, OpBytes(op)[0], OpArg(op), r))
  {
    hide DoOp, EvalOp, StackOf, U, S, OpMatches;
    if op.LocalGet? { LocalGetOp(e, sp, op, st, r); } else { LocalSetOp(e, sp, op, st, r); }
  }

  lemma VariableOp(e: Env, sp: Spot, op: PlainOp, st: Store, r: Regs)
    requires op.GlobalGet? || op.GlobalSet? || op.Const?
    requires OpArity(op).params <= |st.ops| && OpInScope(op, |st.locals|, |st.world.globals|)
    requires r.stack == StackOf(sp, st.locals, st.ops) && r.world == st.world
    requires OpArity(op) == FuncType(0, 1) ==> |r.stack| < e.stackSize
    ensures OpMatches(sp, r, EvalOp(op, st), DoOp(e, |sp.under|, OpBytes(op)[0], OpArg(op), r))
  {
    hide BinaryOp, Truth, StackOf, U, S;
    StackShape(sp, st.locals, st.ops, OpArity(op).params);
    match op
    case GlobalGet(i) => StackPush(sp, st.locals, st.ops, [st.world.globals[U(i)]]);
    case GlobalSet(i) =>
    case Const(i) => StackPush(sp, st.locals, st.ops, [S(i)]);
  }

  // ----- one machine step as an outcome -----

  lemma StepsTo(im: Image, s: State, t: State)
    requires Good(im, s) && (Step(im.pr.env, s) == Next(t) || Step(im.pr.env, s) == Yielded(t))
    ensures Reaches(im, s, t) && Progresses(im, s, t)
  {
    OneStep(im, s, t);
    hide Runs, Good, Step;
    var n: nat := 1;
    assert n > 0 && Runs(im, s, n, t);
  }

  lemma StopsHere(im: Image, s: State)
    requires s.frames != [] && (Step(im.pr.env, s).Trapped? ==> Good(im, s))
    ensures StopsWith(im, s, Step(im.pr.env, s))
  {
    ReachesSelf(im, s);
    hide Reaches, Step, Good;
  }

  function Arities(labels: seq<Label>): (a: seq<nat>)
    ensures |a| == |labels| && forall i :: 0 <= i < |labels| ==> a[i] == BranchArity(labels[i])
  {
    seq(|labels|, i requires 0 <= i < |labels| => BranchArity(labels[i]))
  }

  lemma AritiesSnoc(labels: seq<Label>, l: Label)
    ensures Arities(labels + [l]) == Arities(labels) + [BranchArity(l)]
  {
  }

  /** The hypotheses under which a sequence is simulated. */
  ghost predicate Ready(im: Image, cx: Context, sp: Spot, c: Code, p: nat, need: nat, st: Store)
  {
    && SpotOk(im, cx, sp) && StoreFits(cx, st, |st.ops|)
    && CodeAt(im.pr.env.funcs[sp.func].code, p, c)
    && Valid(cx, c, Arities(sp.labels), need, |st.ops|)
    && LaidAt(im, cx, sp, c, p, |st.ops|)
  }

  lemma ReadyLocal(im: Image, cx: Context, sp: Spot, c: Code, p: nat, need: nat, st: Store)
    requires Ready(im, cx, sp, c, p, need, st)
    ensures IsLocal(im, sp.func) && SpotOk(im, cx, sp) && ContextFits(im.pr, cx) && cx.globals == im.globals
  {
    hide CodeAt, Valid, Laid, Owned, LabelsOk;
  }

  lemma SimPlain(im: Image, cx: Context, sp: Spot, c: Code, p: nat, need: nat, st: Store, fuel: nat)
    requires c.Plain? && Ready(im, cx, sp, c, p, need, st)
    ensures Simulates(im, StateAt(sp, p, st), sp, p + |OpBytes(c.op)|, fuel, EvalOp(c.op, st))
  {
    hide U, S, OpAt, OpBytes, Exec, DoOp, EvalOp, Reaches, StopsWith, Good, OpInScope, BlockArity;
    var e, fn := im.pr.env, im.pr.env.funcs[sp.func];
    var s, r := StateAt(sp, p, st), RegsAt(sp, p, st);
    var op, p1 := c.op, p + |OpBytes(c.op)|;
    GoodAt(im, cx, sp, c, p, st);
    StepAt(im, sp, p, st);
    OpDecoded(e, fn, |sp.under|, op, r);
    PlainMatches(e, sp, op, st, r.(ip := p1), cx, c.next, im, p1);
    OpSound(cx, op, st, |st.ops|);
    match EvalOp(op, st)
    case Normal(st') =>
      StepsTo(im, s, StateAt(sp, p1, st'));
      GoodAt(im, cx, sp, c.next, p1, st');
    case Trapping(code) => StopsHere(im, s);
  }

  /** The next instruction's mark bounds the stack a push leaves. */
  lemma PlainMatches(e: Env, sp: Spot, op: PlainOp, st: Store, r: Regs, cx: Context, next: Code, im: Image, p1: nat)
    requires SpotOk(im, cx, sp) && e == im.pr.env && StoreFits(cx, st, |st.ops|)
    requires OpInScope(op, cx.locals, cx.globals) && OpArity(op).params <= |st.ops|
    requires LaidAt(im, cx, sp, next, p1, |st.ops| - OpArity(op).params + OpArity(op).results)
    requires r.stack == StackOf(sp, st.locals, st.ops) && r.world == st.world
    ensures OpMatches(sp, r, EvalOp(op, st), DoOp(e, |sp.under|, OpBytes(op)[0], OpArg(op), r))
  {
    hide U, S, DoOp, EvalOp, OpMatches;
    StackShape(sp, st.locals, st.ops, 0);
    if op.Nop? || op.Drop? || op.Select? {
      OperandOp(e, sp, op, st, r);
    } else if op.Eqz? {
      EqzMatches(e, sp, st, r);
      assert OpBytes(op)[0] == 0x45;
    } else if op.Binary? {
      BinaryMatches(e, sp, op, st, r);
    } else if op.LocalGet? || op.LocalSet? || op.LocalTee? {
      LocalOp(e, sp, op, st, r);
    } else {
      VariableOp(e, sp, op, st, r);
    }
  }

  // ----- branches -----

  lemma PrefixOfPrefix(s: seq<Value>, i: nat, j: nat)
    requires i <= j <= |s|
    ensures s[..j][..i] == s[..i]
  {
  }

  /** What unwinding makes of a frame's part of the stack. */
  lemma Unwound(sp: Spot, locals: seq<Value>, ops: seq<Value>, top: nat, n: nat)
    requires top <= |sp.under| + |locals| + |sp.below| && n <= |ops|
    ensures top <= |StackOf(sp, locals, [])| && top + n <= |StackOf(sp, locals, ops)|
    ensures Unwind(StackOf(sp, locals, ops), top, n) == StackOf(sp, locals, [])[..top] + Top(ops, n)
  {
    hide StackOf;
    StackShape(sp, locals, ops, n);
    StackShape(sp, locals, ops, |ops|);
    StackShape(sp, locals, [], 0);
    var s := StackOf(sp, locals, ops);
    assert Under(ops, |ops|) == [];
    PrefixOfPrefix(s, top, |s| - |ops|);
  }

  /** Unwinding in place keeps what lies under the target and moves the branch values down. */
  lemma BranchEffect(sp: Spot, locals: seq<Value>, ops: seq<Value>, r: Regs, depth: nat)
    requires r.labels == sp.labels && r.stack == StackOf(sp, locals, ops) && depth < |sp.labels|
    requires TargetLabel(sp, depth).stackTop <= |sp.under| + |locals| + |sp.below|
    requires BranchArity(TargetLabel(sp, depth)) <= |ops|
    ensures var l := TargetLabel(sp, depth);
            DoBranch(r, depth) == Go(Regs(l.pc, CutLabels(sp.labels, depth),
                                          StackOf(sp, locals, [])[..l.stackTop] + Top(ops, BranchArity(l)), r.world))
  {
    hide StackOf, Unwind, Top;
    var l := TargetLabel(sp, depth);
    Unwound(sp, locals, ops, l.stackTop, BranchArity(l));
  }

  /** A machine state whose opcode takes a branch simulates `Jump`. */
  lemma SimJump(im: Image, cx: Context, sp: Spot, s: State, q: nat, fuel: nat, depth: nat, st: Store, ip: nat)
    requires SpotOk(im, cx, sp) && StoreFits(cx, st, |st.ops|) && Good(im, s)
    requires CanBranch(Arities(sp.labels), depth, |st.ops|)
    requires Step(im.pr.env, s) == Apply(im.pr.env, sp.callers, sp.func, |sp.under|, sp.labelsTop,
                                         DoBranch(Regs(ip, sp.labels, StackOf(sp, st.locals, st.ops), st.world), depth))
    ensures Simulates(im, s, sp, q, fuel, Jump(Arities(sp.labels), depth, st))
  {
    hide Good, Step, StackOf, DoBranch, Progresses, Reaches;
    var r := Regs(ip, sp.labels, StackOf(sp, st.locals, st.ops), st.world);
    BranchEffect(sp, st.locals, st.ops, r, depth);
    StepsTo(im, s, JumpState(sp, depth, Top(st.ops, BranchArity(TargetLabel(sp, depth))), st.locals, st.world));
  }

  lemma SimBr(im: Image, cx: Context, sp: Spot, c: Code, p: nat, need: nat, st: Store, q: nat, fuel: nat)
    requires c.Br? && Ready(im, cx, sp, c, p, need, st)
    ensures Simulates(im, StateAt(sp, p, st), sp, q, fuel, Jump(Arities(sp.labels), U(c.depth), st))
  {
    hide U, S, Good, ReadU32, DoBranch, Simulates, Jump, StackOf, Apply;
    GoodAt(im, cx, sp, c, p, st);
    StepAt(im, sp, p, st);
    ImmRead(im.pr.env.funcs[sp.func].code, p + 1, c.depth);
    SimJump(im, cx, sp, StateAt(sp, p, st), q, fuel, U(c.depth), st, p + 1 + |c.depth|);
  }

  lemma SimBrIf(im: Image, cx: Context, sp: Spot, c: Code, p: nat, need: nat, st: Store, fuel: nat)
    requires c.BrIf? && Ready(im, cx, sp, c, p, need, st)
    ensures Simulates(im, StateAt(sp, p, st), sp, p + 1 + |c.depth|, fuel, EvalBrIf(Arities(sp.labels), U(c.depth), st))
  {
    hide U, S, Good, ReadU32, DoBranch, Jump, StackOf, Reaches;
    var s, p1, st' := StateAt(sp, p, st), p + 1 + |c.depth|, st.(ops := Under(st.ops, 1));
    GoodAt(im, cx, sp, c, p, st);
    StepAt(im, sp, p, st);
    ImmRead(im.pr.env.funcs[sp.func].code, p + 1, c.depth);
    StackShape(sp, st.locals, st.ops, 1);
    if st.ops[|st.ops| - 1] != 0 {
      SimJump(im, cx, sp, s, p1, fuel, U(c.depth), st', p1);
    } else {
      StepsTo(im, s, StateAt(sp, p1, st'));
      GoodAt(im, cx, sp, c.next, p1, st');
    }
  }

  lemma BrTableDecoded(im: Image, cx: Context, sp: Spot, c: Code, p: nat, need: nat, st: Store) returns (ip: nat)
    requires c.BrTable? && Ready(im, cx, sp, c, p, need, st)
    ensures |st.ops| > 0 && Good(im, StateAt(sp, p, st))
    ensures var i := st.ops[|st.ops| - 1] % TWO_32;
            var target := if i < |c.targets| then c.targets[i] else c.dflt;
            && CanBranch(Arities(sp.labels), U(target), |st.ops| - 1)
            && Step(im.pr.env, StateAt(sp, p, st)) ==
               Apply(im.pr.env, sp.callers, sp.func, |sp.under|, sp.labelsTop,
                     DoBranch(Regs(ip, sp.labels, StackOf(sp, st.locals, Under(st.ops, 1)), st.world), U(target)))
  {
    hide U, S, Good, ReadU32, ReadTarget, DoBranch, StackOf, Apply, ContextOf, LabelsOk, Owned;
    var code, p1 := im.pr.env.funcs[sp.func].code, p + 1 + |c.count|;
    var i := st.ops[|st.ops| - 1] % TWO_32;
    GoodAt(im, cx, sp, c, p, st);
    StepAt(im, sp, p, st);
    StackShape(sp, st.locals, st.ops, 1);
    ImmRead(code, p + 1, c.count);
    TargetRead(code, p1, c.targets, c.dflt, i);
    BranchAllAt(Arities(sp.labels), c.targets, |st.ops| - 1, i);
    ip := ReadTarget(code, p1, |c.targets|, i).next;
  }

  lemma SimBrTable(im: Image, cx: Context, sp: Spot, c: Code, p: nat, need: nat, st: Store, q: nat, fuel: nat)
    requires c.BrTable? && Ready(im, cx, sp, c, p, need, st)
    ensures Simulates(im, StateAt(sp, p, st), sp, q, fuel, EvalBrTable(Arities(sp.labels), c.targets, c.dflt, st))
  {
    hide U, S, Good, DoBranch, Simulates, Jump, StackOf, Apply, CodeAt, Valid, Laid, SpotOk, Step, StateAt;
    ReadyLocal(im, cx, sp, c, p, need, st);
    var ip := BrTableDecoded(im, cx, sp, c, p, need, st);
    var i := st.ops[|st.ops| - 1] % TWO_32;
    SimJump(im, cx, sp, StateAt(sp, p, st), q, fuel, U(if i < |c.targets| then c.targets[i] else c.dflt),
            st.(ops := Under(st.ops, 1)), ip);
  }

  lemma SimReturn(im: Image, cx: Context, sp: Spot, c: Code, p: nat, need: nat, st: Store, q: nat, fuel: nat)
    requires c.Return? && Ready(im, cx, sp, c, p, need, st)
    ensures Simulates(im, StateAt(sp, p, st), sp, q, fuel, Returning(Top(st.ops, cx.results), st.world))
  {
    hide Good, Reaches, StackOf, Owned;
    GoodAt(im, cx, sp, c, p, st);
    StepAt(im, sp, p, st);
    OwnedNonNegative(im.pr.env, sp.callers);
    FrameBottom(sp, st.locals, st.ops, cx.results);
    var fn := im.pr.env.funcs[sp.func];
    StepsTo(im, StateAt(sp, p, st), ReturnState(sp, fn.maxLabels, Top(st.ops, cx.results), st.world));
  }

  lemma {:induction false} OwnedNonNegative(e: Env, frames: seq<Frame>)
    ensures Owned(e, frames) >= 0
  {
    if frames != [] { OwnedNonNegative(e, frames[..|frames| - 1]); }
  }

  /** Returning leaves the slots under the frame and the results. */
  lemma FrameBottom(sp: Spot, locals: seq<Value>, ops: seq<Value>, n: nat)
    requires n <= |ops|
    ensures var s := StackOf(sp, locals, ops);
            |sp.under| + n <= |s| && Unwind(s, |sp.under|, n) == sp.under + Top(ops, n)
  {
    hide StackOf;
    StackShape(sp, locals, ops, n);
    StackBottom(sp, locals, ops);
  }

  lemma StackBottom(sp: Spot, locals: seq<Value>, ops: seq<Value>)
    ensures |sp.under| <= |StackOf(sp, locals, ops)| && StackOf(sp, locals, ops)[..|sp.under|] == sp.under
  {
  }

  lemma SimUnreachable(im: Image, cx: Context, sp: Spot, c: Code, p: nat, need: nat, st: Store, q: nat, fuel: nat)
    requires c.Unreachable? && Ready(im, cx, sp, c, p, need, st)
    ensures Simulates(im, StateAt(sp, p, st), sp, q, fuel, Trapping(TrapUnreachable))
  {
    hide StopsWith, StackOf, Good;
    GoodAt(im, cx, sp, c, p, st);
    StepAt(im, sp, p, st);
    StopsHere(im, StateAt(sp, p, st));
  }

  // ----- nested sequences -----

  /** The spot inside a block entered at `sp` that leaves `under` below it and opens label `l`. */
  function Inside(sp: Spot, under: seq<Value>, l: Label): Spot
  {
    sp.(below := sp.below + under, labels := sp.labels + [l], room := Above(sp.room, |under|))
  }

  lemma InsideOk(im: Image, cx: Context, sp: Spot, under: seq<Value>, l: Label)
    requires SpotOk(im, cx, sp) && l.stackTop == |sp.under| + cx.locals + |sp.below| + |under|
    ensures SpotOk(im, cx, Inside(sp, under, l))
    ensures Arities(Inside(sp, under, l).labels) == Arities(sp.labels) + [BranchArity(l)]
  {
    hide Owned, ContextOf;
    AritiesSnoc(sp.labels, l);
    var labels := sp.labels + [l];
    assert labels[0] == sp.labels[0];
  }

  lemma InsideStack(sp: Spot, under: seq<Value>, l: Label, locals: seq<Value>, ops: seq<Value>)
    ensures StackOf(Inside(sp, under, l), locals, ops) == StackOf(sp, locals, under + ops)
  {
    var front := sp.under + locals;
    assert front + (sp.below + under) + ops == front + sp.below + (under + ops);
  }

  /** `end` (or `else`) of a nested sequence: the label is dropped and the results stay on what lies under the block. */
  lemma CloseNest(im: Image, cx: Context, sp: Spot, under: seq<Value>, l: Label, q: nat, q1: nat, st: Store)
    requires SpotOk(im, cx, sp) && IsLocal(im, sp.func)
    requires StoreFits(cx, st, l.results) && l.stackTop == |sp.under| + cx.locals + |sp.below| + |under|
    requires var code := im.pr.env.funcs[sp.func].code;
             (ByteAt(code, q, 0x0B) && q1 == q + 1) || (ByteAt(code, q, 0x05) && q1 == l.pc)
    ensures Step(im.pr.env, StateAt(Inside(sp, under, l), q, st)) == Next(StateAt(sp, q1, st.(ops := under + st.ops)))
  {
    hide Owned, StackOf;
    var inner := Inside(sp, under, l);
    StepAt(im, inner, q, st);
    InsideStack(sp, under, l, st.locals, st.ops);
    StackShape(sp, st.locals, under + st.ops, l.results);
    StackShape(sp, st.locals, under, 0);
    StackPush(sp, st.locals, under, st.ops);
    assert Top(under + st.ops, l.results) == st.ops && Under(under + st.ops, l.results) == under;
    assert inner.labels[..|sp.labels|] == sp.labels;
  }

  /** A branch out of a nested sequence, seen from outside. */
  lemma JumpOut(sp: Spot, under: seq<Value>, l: Label, depth: nat, vals: seq<Value>, locals: seq<Value>, w: World)
    requires depth < |sp.labels| + 1 && l.stackTop == |sp.under| + |locals| + |sp.below| + |under|
    requires forall i :: 0 <= i < |sp.labels| ==> sp.labels[i].stackTop <= |sp.under| + |locals| + |sp.below|
    ensures TargetLabel(Inside(sp, under, l), depth).stackTop <= |sp.under| + |locals| + |sp.below + under|
    ensures depth > 0 ==> JumpState(Inside(sp, under, l), depth, vals, locals, w) == JumpState(sp, depth - 1, vals, locals, w)
    ensures depth == 0 && l.op != 0x03 ==>
              JumpState(Inside(sp, under, l), 0, vals, locals, w) == StateAt(sp, l.pc, Store(locals, under + vals, w))
    ensures depth == 0 && l.op == 0x03 ==>
              JumpState(Inside(sp, under, l), 0, vals, locals, w) ==
              StateAt(Inside(sp, under, l), l.pc, Store(locals, vals, w))
  {
    var inner := Inside(sp, under, l);
    InsideStack(sp, under, l, locals, []);
    InsideStack(sp, under, l, locals, vals);
    StackPush(sp, locals, under, vals);
    StackShape(sp, locals, under, 0);
    StackShape(sp, locals, under, |under|);
    assert under + [] == under && Under(under, |under|) == [];
    hide StackOf;
    var whole := StackOf(inner, locals, []);
    assert whole == StackOf(sp, locals, under);
    if depth > 0 {
      var t := TargetLabel(sp, depth - 1);
      assert TargetLabel(inner, depth) == t;
      var front := StackOf(sp, locals, []);
      StackShape(sp, locals, [], 0);
      assert whole[..|front|] == front;
      assert whole[..t.stackTop] == front[..t.stackTop];
      assert CutLabels(inner.labels, depth) == CutLabels(sp.labels, depth - 1);
    } else {
      assert TargetLabel(inner, 0) == l;
      assert whole[..|whole|] == whole;
      assert l.op == 0x03 ==> CutLabels(inner.labels, 0) == inner.labels;
      assert l.op != 0x03 ==> CutLabels(inner.labels, 0) == sp.labels;
    }
  }

  /** From the outcome of a nested sequence to the outcome of its block, which ends at `q1`. */
  lemma SimLeave(im: Image, cx: Context, sp: Spot, under: seq<Value>, l: Label, s: State, q: nat, q1: nat, next: Code, fuel: nat, out: Outcome)
    requires SpotOk(im, cx, sp) && l.stackTop == |sp.under| + cx.locals + |sp.below| + |under|
    requires var code := im.pr.env.funcs[sp.func].code;
             (ByteAt(code, q, 0x0B) && q1 == q + 1) || (ByteAt(code, q, 0x05) && q1 == l.pc)
    requires Simulates(im, s, Inside(sp, under, l), q, fuel, out)
    requires OutcomeFits(cx, Arities(sp.labels) + [BranchArity(l)], l.results, out)
    requires out.Branching? && out.depth == 0 ==> l.op != 0x03 && l.pc == q1
    requires LaidAt(im, cx, sp, next, q1, |under| + l.results)
    ensures Simulates(im, s, sp, q1, fuel, Leave(out, under))
  {
    hide Good, Step, Reaches, Progresses, StopsWith, RunsFor, StackOf, Owned, ContextOf, Laid, LaidAt, StateAt, JumpState;
    var inner := Inside(sp, under, l);
    match out
    case Normal(st) =>
      var t := st.(ops := under + st.ops);
      CloseNest(im, cx, sp, under, l, q, q1, st);
      StepsTo(im, StateAt(inner, q, st), StateAt(sp, q1, t));
      ReachesTrans(im, s, StateAt(inner, q, st), StateAt(sp, q1, t));
      GoodAt(im, cx, sp, next, q1, t);
    case Branching(d, vals, locals, w) =>
      JumpOut(sp, under, l, d, vals, locals, w);
      if d == 0 {
        var t := Store(locals, under + vals, w);
        ProgressReaches(im, s, StateAt(sp, q1, t));
        GoodAt(im, cx, sp, next, q1, t);
      }
    case Returning(vals, w) => assert ReturnState(inner, im.pr.env.funcs[sp.func].maxLabels, vals, w)
                                   == ReturnState(sp, im.pr.env.funcs[sp.func].maxLabels, vals, w);
    case _ =>
  }

  lemma ProgressReaches(im: Image, s: State, t: State)
    requires Progresses(im, s, t)
    ensures Reaches(im, s, t)
  {
  }

  function BlockLabel(sp: Spot, cx: Context, c: Code, p: nat, n: int): Label
    requires (c.Block? || c.Loop?) && n >= BlockArity(cx.types, S(c.bt)).params
  {
    var t, p1 := BlockArity(cx.types, S(c.bt)), p + 1 + |c.bt|;
    Label(if c.Loop? then 0x03 else 0x02, |sp.under| + cx.locals + |sp.below| + n - t.params, t.params, t.results,
          if c.Loop? then p1 else p1 + Size(c.body) + 1)
  }

  /** The machine at a block or loop: it pushes a label and goes on behind the block type. */
  lemma BlockDecoded(im: Image, cx: Context, sp: Spot, c: Code, p: nat, need: nat, st: Store)
    requires (c.Block? || c.Loop?) && Ready(im, cx, sp, c, p, need, st)
    ensures BlockArity(cx.types, S(c.bt)).params <= |st.ops| && Good(im, StateAt(sp, p, st))
    ensures var e, p1 := im.pr.env, p + 1 + |c.bt|;
            Step(e, StateAt(sp, p, st)) ==
            Apply(e, sp.callers, sp.func, |sp.under|, sp.labelsTop,
                  Go(RegsAt(sp, p1, st).(labels := sp.labels + [BlockLabel(sp, cx, c, p, |st.ops|)])))
  {
    hide U, S, ReadS32, BlockArity, StackOf, Owned, Good, FuncTypes, LabelsOk, Arities, Apply;
    GoodAt(im, cx, sp, c, p, st);
    StepAt(im, sp, p, st);
    ImmRead(im.pr.env.funcs[sp.func].code, p + 1, c.bt);
    StackShape(sp, st.locals, st.ops, 0);
    LaidBound(cx, im.pr.env.funcs[sp.func], im.marks[sp.func], c.body, p + 1 + |c.bt|, |sp.below| + |st.ops|, |sp.labels| + 1);
  }

  /** Entering a block or loop: the machine pushes a label and stays on the same stack. */
  lemma EnterBlock(im: Image, cx: Context, sp: Spot, c: Code, p: nat, need: nat, st: Store) returns (l: Label)
    requires (c.Block? || c.Loop?) && Ready(im, cx, sp, c, p, need, st)
    ensures BlockArity(cx.types, S(c.bt)).params <= |st.ops|
    ensures var t, p1 := BlockArity(cx.types, S(c.bt)), p + 1 + |c.bt|;
            var under, inner := Under(st.ops, t.params), st.(ops := Top(st.ops, t.params));
            && l == Label(if c.Loop? then 0x03 else 0x02, |sp.under| + cx.locals + |sp.below| + |under|, t.params, t.results,
                          if c.Loop? then p1 else p1 + Size(c.body) + 1)
            && Good(im, StateAt(sp, p, st))
            && Step(im.pr.env, StateAt(sp, p, st)) == Next(StateAt(Inside(sp, under, l), p1, inner))
            && Ready(im, cx, Inside(sp, under, l), c.body, p1, t.results, inner)
            && ByteAt(im.pr.env.funcs[sp.func].code, p1 + Size(c.body), 0x0B)
            && LaidAt(im, cx, sp, c.next, p1 + Size(c.body) + 1, |under| + t.results)
  {
    hide U, S, BlockArity, StackOf, Owned, Good, FuncTypes, ImmAt, Step, ContextOf, LabelsOk, Arities;
    BlockDecoded(im, cx, sp, c, p, need, st);
    var t := BlockArity(cx.types, S(c.bt));
    var under, inner := Under(st.ops, t.params), st.(ops := Top(st.ops, t.params));
    l := BlockLabel(sp, cx, c, p, |st.ops|);
    InsideStack(sp, under, l, st.locals, inner.ops);
    assert under + inner.ops == st.ops;
    InsideOk(im, cx, sp, under, l);
  }

  lemma {:induction false} SimBlock(im: Image, cx: Context, sp: Spot, fuel: nat, c: Code, p: nat, need: nat, st: Store)
    requires Loaded(im) && c.Block? && Ready(im, cx, sp, c, p, need, st)
    ensures Simulates(im, StateAt(sp, p, st), sp, p + 1 + |c.bt| + Size(c.body) + 1, fuel,
                      EvalBlock(im.pr, cx.results, sp.room, fuel, c, Arities(sp.labels), st))
    decreases fuel, 0, c, 2
  {
    hide U, S, BlockArity, StackOf, Owned, Good, FuncTypes, Eval, Step, Simulates, StateAt, Leave, ProgramValid, CodeAt, Valid, Laid, Size;
    var l := EnterBlock(im, cx, sp, c, p, need, st);
    var t, p1 := BlockArity(cx.types, S(c.bt)), p + 1 + |c.bt|;
    var under, inner := Under(st.ops, t.params), st.(ops := Top(st.ops, t.params));
    var sp1, s1 := Inside(sp, under, l), StateAt(Inside(sp, under, l), p1, inner);
    InsideOk(im, cx, sp, under, l);
    Sim(im, cx, sp1, fuel, c.body, p1, t.results, inner);
    var out := Eval(im.pr, cx.results, sp1.room, fuel, c.body, Arities(sp1.labels), inner);
    EvalSound(im.pr, cx, sp1.room, fuel, c.body, Arities(sp1.labels), t.results, inner);
    SimLeave(im, cx, sp, under, l, s1, p1 + Size(c.body), p1 + Size(c.body) + 1, c.next, fuel, out);
    StepsTo(im, StateAt(sp, p, st), s1);
    After(im, StateAt(sp, p, st), s1, sp, p1 + Size(c.body) + 1, fuel, Leave(out, under));
  }

  lemma {:induction false} SimLoop(im: Image, cx: Context, sp: Spot, fuel: nat, c: Code, p: nat, need: nat, st: Store)
    requires Loaded(im) && c.Loop? && Ready(im, cx, sp, c, p, need, st)
    ensures Simulates(im, StateAt(sp, p, st), sp, p + 1 + |c.bt| + Size(c.body) + 1, fuel,
                      EvalLoop(im.pr, cx.results, sp.room, fuel, c, Arities(sp.labels), st))
    decreases fuel, 0, c, 2
  {
    hide U, S, BlockArity, StackOf, Owned, Good, FuncTypes, Iterate, Eval, Step, Simulates, StateAt, Leave, ProgramValid, CodeAt, Valid, Laid, Size;
    var l := EnterBlock(im, cx, sp, c, p, need, st);
    var t, p1 := BlockArity(cx.types, S(c.bt)), p + 1 + |c.bt|;
    var under, inner := Under(st.ops, t.params), st.(ops := Top(st.ops, t.params));
    var sp1, s1 := Inside(sp, under, l), StateAt(Inside(sp, under, l), p1, inner);
    InsideOk(im, cx, sp, under, l);
    SimIterate(im, cx, sp, under, l, fuel, c, p, inner);
    var out := Iterate(im.pr, cx.results, sp1.room, fuel, c, Arities(sp.labels), inner);
    IterateSound(im.pr, cx, sp1.room, fuel, c, Arities(sp.labels), inner);
    SimLeave(im, cx, sp, under, l, s1, p1 + Size(c.body), p1 + Size(c.body) + 1, c.next, fuel, out);
    StepsTo(im, StateAt(sp, p, st), s1);
    After(im, StateAt(sp, p, st), s1, sp, p1 + Size(c.body) + 1, fuel, Leave(out, under));
  }

  /** All iterations of a loop body, started behind the loop opcode with the loop's label open. */
  lemma {:induction false} SimIterate(im: Image, cx: Context, sp: Spot, under: seq<Value>, l: Label, fuel: nat, c: Code, p: nat, st: Store)
    requires Loaded(im) && c.Loop? && SpotOk(im, cx, sp)
    requires var t, p1 := BlockArity(cx.types, S(c.bt)), p + 1 + |c.bt|;
             && l == Label(0x03, |sp.under| + cx.locals + |sp.below| + |under|, t.params, t.results, p1)
             && Ready(im, cx, Inside(sp, under, l), c.body, p1, t.results, st) && |st.ops| == t.params
    ensures var p1, sp1 := p + 1 + |c.bt|, Inside(sp, under, l);
            Simulates(im, StateAt(sp1, p1, st), sp1, p1 + Size(c.body), fuel,
                      Iterate(im.pr, cx.results, sp1.room, fuel, c, Arities(sp.labels), st))
    decreases fuel, 0, c, 1
  {
    hide U, S, BlockArity, StackOf, Owned, Good, FuncTypes, Eval, Step, StateAt, CodeAt, Valid, Laid, Runs, JumpState;
    var p1, sp1 := p + 1 + |c.bt|, Inside(sp, under, l);
    var s, q := StateAt(sp1, p1, st), p1 + Size(c.body);
    var t := BlockArity(cx.types, S(c.bt));
    AritiesSnoc(sp.labels, l);
    Sim(im, cx, sp1, fuel, c.body, p1, t.results, st);
    var out := Eval(im.pr, cx.results, sp1.room, fuel, c.body, Arities(sp1.labels), st);
    EvalSound(im.pr, cx, sp1.room, fuel, c.body, Arities(sp1.labels), t.results, st);
    if out.Branching? && out.depth == 0 {
      var st' := Store(out.locals, out.vals, out.world);
      JumpOut(sp, under, l, 0, out.vals, out.locals, out.world);
      var s' := StateAt(sp1, p1, st');
      if fuel == 0 {
        NoFuel(im, s);
      } else {
        SimIterate(im, cx, sp, under, l, fuel - 1, c, p, st');
        OneMoreFuel(im, s, s', sp1, q, fuel, Iterate(im.pr, cx.results, sp1.room, fuel - 1, c, Arities(sp.labels), st'));
      }
    }
  }

  /** A step pays for a unit of fuel. */
  lemma OneMoreFuel(im: Image, s: State, t: State, sp: Spot, q: nat, fuel: nat, out: Outcome)
    requires fuel > 0 && Progresses(im, s, t) && Simulates(im, t, sp, q, fuel - 1, out)
    ensures Simulates(im, s, sp, q, fuel, out)
  {
    hide Runs, Good, Step, StateAt, JumpState, ReturnState;
    ProgressReaches(im, s, t);
    if out.OutOfFuel? {
      var n: nat :| n > 0 && Runs(im, s, n, t);
      RunsForTrans(im, s, n, t, fuel - 1);
      var m: nat, u: State :| m >= n + (fuel - 1) && Runs(im, s, m, u);
    } else {
      After(im, s, t, sp, q, fuel, out);
    }
  }

  lemma NoFuel(im: Image, s: State)
    ensures RunsFor(im, s, 0)
  {
    var m: nat := 0;
    assert m >= 0 && Runs(im, s, m, s);
  }

  function IfEnd(c: Code, p: nat): nat
    requires c.If? || c.IfElse?
  {
    var p1 := p + 1 + |c.bt|;
    if c.If? then p1 + Size(c.thn) + 1 else p1 + Size(c.thn) + 1 + Size(c.els) + 1
  }

  function IfLabel(sp: Spot, cx: Context, c: Code, p: nat, n: nat): Label
    requires (c.If? || c.IfElse?) && n > 0
  {
    Label(0x04, |sp.under| + cx.locals + |sp.below| + n - 1, 0, BlockArity(cx.types, S(c.bt)).results, IfEnd(c, p))
  }

  /** The machine at an if: the condition is popped; the jump entry gives both targets. */
  lemma IfDecoded(im: Image, cx: Context, sp: Spot, c: Code, p: nat, need: nat, st: Store)
    requires (c.If? || c.IfElse?) && Ready(im, cx, sp, c, p, need, st)
    ensures |st.ops| > 0 && Good(im, StateAt(sp, p, st))
    ensures var e, p1, zero := im.pr.env, p + 1 + |c.bt|, st.ops[|st.ops| - 1] == 0;
            var popped := RegsAt(sp, if zero then p1 + Size(c.thn) + 1 else p1, st.(ops := Under(st.ops, 1)));
            Step(e, StateAt(sp, p, st)) == Apply(e, sp.callers, sp.func, |sp.under|, sp.labelsTop,
              if zero && c.If? then Go(popped)
              else Go(popped.(labels := sp.labels + [IfLabel(sp, cx, c, p, |st.ops|)])))
  {
    hide U, S, ReadS32, BlockArity, StackOf, Owned, Good, FuncTypes, Apply, LabelsOk, Arities, Lookup;
    GoodAt(im, cx, sp, c, p, st);
    StepAt(im, sp, p, st);
    ImmRead(im.pr.env.funcs[sp.func].code, p + 1, c.bt);
    StackShape(sp, st.locals, st.ops, 1);
    LaidBound(cx, im.pr.env.funcs[sp.func], im.marks[sp.func], c.thn, p + 1 + |c.bt|, |sp.below| + |st.ops| - 1, |sp.labels| + 1);
  }

  /** Entering an arm of an if: the machine is inside the if's label with no operands of its own. */
  lemma EnterArm(im: Image, cx: Context, sp: Spot, c: Code, p: nat, need: nat, st: Store)
    requires (c.If? || c.IfElse?) && Ready(im, cx, sp, c, p, need, st)
    requires c.If? ==> st.ops[|st.ops| - 1] != 0
    ensures |st.ops| > 0 && Good(im, StateAt(sp, p, st))
    ensures var under, inner, taken := Under(st.ops, 1), st.(ops := []), st.ops[|st.ops| - 1] != 0;
            var sp1 := Inside(sp, under, IfLabel(sp, cx, c, p, |st.ops|));
            var arm, pa := if taken then c.thn else c.els, p + 1 + |c.bt| + (if taken then 0 else Size(c.thn) + 1);
            && Step(im.pr.env, StateAt(sp, p, st)) == Next(StateAt(sp1, pa, inner))
            && Ready(im, cx, sp1, arm, pa, BlockArity(cx.types, S(c.bt)).results, inner)
    ensures var t, taken := BlockArity(cx.types, S(c.bt)), st.ops[|st.ops| - 1] != 0;
            var arm, pa := if taken then c.thn else c.els, p + 1 + |c.bt| + (if taken then 0 else Size(c.thn) + 1);
            var q, code := pa + Size(arm), im.pr.env.funcs[sp.func].code;
            && ((ByteAt(code, q, 0x0B) && IfEnd(c, p) == q + 1) || ByteAt(code, q, 0x05))
            && LaidAt(im, cx, sp, c.next, IfEnd(c, p), |st.ops| - 1 + t.results)
  {
    hide U, S, BlockArity, StackOf, Owned, Good, FuncTypes, ImmAt, Step, ContextOf, LabelsOk, Arities, Size;
    IfDecoded(im, cx, sp, c, p, need, st);
    var under, l := Under(st.ops, 1), IfLabel(sp, cx, c, p, |st.ops|);
    InsideStack(sp, under, l, st.locals, []);
    assert under + [] == under;
    InsideOk(im, cx, sp, under, l);
  }

  lemma {:induction false} SimIf(im: Image, cx: Context, sp: Spot, fuel: nat, c: Code, p: nat, need: nat, st: Store)
    requires Loaded(im) && (c.If? || c.IfElse?) && Ready(im, cx, sp, c, p, need, st)
    ensures Simulates(im, StateAt(sp, p, st), sp, IfEnd(c, p), fuel,
                      EvalIf(im.pr, cx.results, sp.room, fuel, c, Arities(sp.labels), st))
    decreases fuel, 0, c, 2
  {
    hide U, S, BlockArity, StackOf, Owned, Good, FuncTypes, Eval, Step, Simulates, StateAt, Leave, ProgramValid, Laid, CodeAt, SpotOk;
    if st.ops[|st.ops| - 1] == 0 && c.If? {
      SkipIf(im, cx, sp, fuel, c, p, need, st);
    } else {
      SimArm(im, cx, sp, fuel, c, p, need, st);
    }
  }

  /** A false condition without else continues behind the if. */
  lemma SkipIf(im: Image, cx: Context, sp: Spot, fuel: nat, c: Code, p: nat, need: nat, st: Store)
    requires c.If? && Ready(im, cx, sp, c, p, need, st) && st.ops[|st.ops| - 1] == 0
    ensures Simulates(im, StateAt(sp, p, st), sp, IfEnd(c, p), fuel, Normal(st.(ops := Under(st.ops, 1))))
  {
    hide U, S, StackOf, Owned, Good, Step, Reaches, ImmAt;
    IfDecoded(im, cx, sp, c, p, need, st);
    StepsTo(im, StateAt(sp, p, st), StateAt(sp, IfEnd(c, p), st.(ops := Under(st.ops, 1))));
    GoodAt(im, cx, sp, c.next, IfEnd(c, p), st.(ops := Under(st.ops, 1)));
  }

  /** One arm of an if, from the if to its end. */
  lemma {:induction false} SimArm(im: Image, cx: Context, sp: Spot, fuel: nat, c: Code, p: nat, need: nat, st: Store)
    requires Loaded(im) && (c.If? || c.IfElse?) && Ready(im, cx, sp, c, p, need, st)
    requires c.If? ==> st.ops[|st.ops| - 1] != 0
    ensures Simulates(im, StateAt(sp, p, st), sp, IfEnd(c, p), fuel,
                      EvalIf(im.pr, cx.results, sp.room, fuel, c, Arities(sp.labels), st))
    decreases fuel, 0, c, 1
  {
    hide U, S, BlockArity, StackOf, Owned, Good, FuncTypes, Eval, Step, Simulates, StateAt, Leave, ProgramValid, CodeAt, Laid, Valid, Size, SpotOk, ContextOf;
    ReadyLocal(im, cx, sp, c, p, need, st);
    EnterArm(im, cx, sp, c, p, need, st);
    var t, inner, under := BlockArity(cx.types, S(c.bt)), st.(ops := []), Under(st.ops, 1);
    var l, taken := IfLabel(sp, cx, c, p, |st.ops|), st.ops[|st.ops| - 1] != 0;
    var arm, pa := if taken then c.thn else c.els, p + 1 + |c.bt| + (if taken then 0 else Size(c.thn) + 1);
    var sp1, s1 := Inside(sp, under, l), StateAt(Inside(sp, under, l), pa, inner);
    AritiesSnoc(sp.labels, l);
    Sim(im, cx, sp1, fuel, arm, pa, t.results, inner);
    var out := Eval(im.pr, cx.results, sp1.room, fuel, arm, Arities(sp1.labels), inner);
    EvalSound(im.pr, cx, sp1.room, fuel, arm, Arities(sp1.labels), t.results, inner);
    SimLeave(im, cx, sp, under, l, s1, pa + Size(arm), IfEnd(c, p), c.next, fuel, out);
    StepsTo(im, StateAt(sp, p, st), s1);
    After(im, StateAt(sp, p, st), s1, sp, IfEnd(c, p), fuel, Leave(out, under));
  }

  // ----- calls -----

  /** The machine at a call instruction. */
  lemma CallDecoded(im: Image, cx: Context, sp: Spot, c: Code, p: nat, need: nat, st: Store)
    requires c.Call? && Ready(im, cx, sp, c, p, need, st)
    ensures Good(im, StateAt(sp, p, st)) && U(c.func) < |im.pr.env.funcs| && im.pr.env.funcs[U(c.func)].typ.params <= |st.ops|
    ensures var e, fn, r := im.pr.env, im.pr.env.funcs[U(c.func)], RegsAt(sp, p + 1 + |c.func|, st);
            && |r.stack| >= fn.typ.params
            && Step(e, StateAt(sp, p, st)) == Apply(e, sp.callers, sp.func, |sp.under|, sp.labelsTop,
                                                    if fn.Host? then DoHost(e, fn, r) else Enter(r, U(c.func)))
  {
    hide U, S, ReadU32, StackOf, Owned, Good, FuncTypes, DoHost, Apply;
    GoodAt(im, cx, sp, c, p, st);
    StepAt(im, sp, p, st);
    ImmRead(im.pr.env.funcs[sp.func].code, p + 1, c.func);
    StackShape(sp, st.locals, st.ops, 0);
  }

  /** A host call pops its arguments, is logged, and pushes the answer, or suspends the run behind the call. */
  lemma HostEffect(e: Env, cx: Context, sp: Spot, fn: Func, p1: nat, st: Store)
    requires fn.Host? && fn.typ.params <= |st.ops| && |StackOf(sp, st.locals, st.ops)| >= fn.typ.params
    requires |sp.under| + |st.locals| + |sp.below| + |st.ops| - fn.typ.params + fn.typ.results <= e.stackSize
    requires ReplyFits(e.host(st.world.log + [HostCall(fn.id, Top(st.ops, fn.typ.params))]), fn.typ.results)
    ensures var under := Under(st.ops, fn.typ.params);
            var eff := DoHost(e, fn, RegsAt(sp, p1, st));
            match EvalHost(e, fn, Top(st.ops, fn.typ.params), st.world)
            case Results(vals, w) =>
              var r := RegsAt(sp, p1, Store(st.locals, under + vals, w));
              eff == Go(r) || eff == Suspend(r)
            case CallTraps(code) => eff == Raise(code)
            case _ => false
  {
    hide StackOf;
    var under := Under(st.ops, fn.typ.params);
    StackShape(sp, st.locals, st.ops, fn.typ.params);
    StackShape(sp, st.locals, under, 0);
    var w := st.world.(log := st.world.log + [HostCall(fn.id, Top(st.ops, fn.typ.params))]);
    match e.host(w.log)
    case Answer(vals) => StackPush(sp, st.locals, under, vals);
    case Yield => assert under + [] == under;
    case Fail(code) =>
  }

  lemma SimHost(im: Image, cx: Context, sp: Spot, c: Code, p: nat, need: nat, st: Store, fuel: nat)
    requires Loaded(im) && c.Call? && Ready(im, cx, sp, c, p, need, st) && im.pr.env.funcs[U(c.func)].Host?
    ensures var fn := im.pr.env.funcs[U(c.func)];
            var under, args := Under(st.ops, fn.typ.params), Top(st.ops, fn.typ.params);
            Simulates(im, StateAt(sp, p, st), sp, p + 1 + |c.func|, fuel,
                      Resume(EvalHost(im.pr.env, fn, args, st.world), st.locals, under))
  {
    hide U, S, StackOf, Owned, Good, FuncTypes, Reaches, StopsWith, DoHost, EvalHost, CodeAt, Step, Laid, Valid, LabelsOk, Simulates, Resume, StateAt, Apply, RegsAt, HostFits, ReplyFits;
    ReadyLocal(im, cx, sp, c, p, need, st);
    var e, f, p1 := im.pr.env, U(c.func), p + 1 + |c.func|;
    CallDecoded(im, cx, sp, c, p, need, st);
    var fn, s := e.funcs[f], StateAt(sp, p, st);
    var under, args := Under(st.ops, fn.typ.params), Top(st.ops, fn.typ.params);
    HostSound(e, f, args, st.world);
    HostReplyFits(e, f, args, st.world);
    StackShape(sp, st.locals, st.ops, 0);
    NextLaid(im, cx, sp, c, p, need, st);
    LaidBound(cx, e.funcs[sp.func], im.marks[sp.func], c.next, p1, |sp.below| + |st.ops| - fn.typ.params + fn.typ.results, |sp.labels|);
    HostEffect(e, cx, sp, fn, p1, st);
    HostApplied(e, sp, p1, st.locals, under, DoHost(e, fn, RegsAt(sp, p1, st)), EvalHost(e, fn, args, st.world));
    HasFrames(sp, p, st);
    HostOutcome(im, cx, sp, s, c.next, p1, fuel, EvalHost(e, fn, args, st.world), st.locals, under);
  }

  lemma HasFrames(sp: Spot, p: nat, st: Store)
    ensures StateAt(sp, p, st).frames != []
  {
  }

  /** The effect of a host call in the calling frame. */
  lemma HostApplied(e: Env, sp: Spot, p1: nat, locals: seq<Value>, under: seq<Value>, eff: Effect, out: CallOutcome)
    requires sp.func < |e.funcs| && e.funcs[sp.func].Local?
    requires match out
             case Results(vals, w) =>
               var r := RegsAt(sp, p1, Store(locals, under + vals, w));
               eff == Go(r) || eff == Suspend(r)
             case CallTraps(code) => eff == Raise(code)
             case _ => false
    ensures var step := Apply(e, sp.callers, sp.func, |sp.under|, sp.labelsTop, eff);
            match out
            case Results(vals, w) =>
              var t := StateAt(sp, p1, Store(locals, under + vals, w));
              step == Next(t) || step == Yielded(t)
            case CallTraps(code) => step == StepResult.Trapped(code)
            case _ => false
  {
    hide StackOf;
  }

  /** From one machine step to the caller's outcome of a host call. */
  lemma HostOutcome(im: Image, cx: Context, sp: Spot, s: State, next: Code, p1: nat, fuel: nat, out: CallOutcome, locals: seq<Value>, under: seq<Value>)
    requires SpotOk(im, cx, sp) && s.frames != [] && Good(im, s)
    requires match out
             case Results(vals, w) =>
               && (var t := StateAt(sp, p1, Store(locals, under + vals, w)); Step(im.pr.env, s) == Next(t) || Step(im.pr.env, s) == Yielded(t))
               && StoreFits(cx, Store(locals, under + vals, w), |under + vals|) && LaidAt(im, cx, sp, next, p1, |under + vals|)
             case CallTraps(code) => Step(im.pr.env, s) == StepResult.Trapped(code)
             case _ => false
    ensures Simulates(im, s, sp, p1, fuel, Resume(out, locals, under))
  {
    hide StackOf, Owned, Good, FuncTypes, Reaches, StopsWith, Step, Laid, SpotOk, StateAt;
    match out
    case Results(vals, w) =>
      var st' := Store(locals, under + vals, w);
      StepsTo(im, s, StateAt(sp, p1, st'));
      GoodAt(im, cx, sp, next, p1, st');
    case CallTraps(code) => StopsHere(im, s);
  }

  lemma HostReplyFits(e: Env, f: nat, args: seq<Value>, w: World)
    requires HostFits(e) && f < |e.funcs| && e.funcs[f].Host?
    ensures ReplyFits(e.host(w.log + [HostCall(e.funcs[f].id, args)]), e.funcs[f].typ.results)
  {
    var log := w.log + [HostCall(e.funcs[f].id, args)];
    assert log[|log| - 1].id == e.funcs[f].id;
  }

  /** The spot of a callee's body. */
  function CalleeSpot(sp: Spot, p1: nat, locals: seq<Value>, under: seq<Value>, fn: Func, f: nat): Spot
    requires fn.Local?
  {
    var base := StackOf(sp, locals, under);
    Spot(sp.callers + [Frame(sp.func, p1, |sp.under|, sp.labels)], f, base, [],
         [Label(0x02, |base|, 0, fn.typ.results, |fn.code|)], sp.labelsTop + fn.maxLabels,
         CalleeRoom(Above(sp.room, |under|), fn))
  }

  /** The four tests of a call, in order: frames, locals, operands, labels. */
  lemma CallEffect(im: Image, cx: Context, sp: Spot, f: nat, p1: nat, st: Store)
    requires SpotOk(im, cx, sp) && StoreFits(cx, st, |st.ops|)
    requires IsLocal(im, f) && im.pr.env.funcs[f].typ.params <= |st.ops| && im.pr.env.funcs[f].maxLabels >= 1
    ensures var e, fn := im.pr.env, im.pr.env.funcs[f];
            var under, args := Under(st.ops, fn.typ.params), Top(st.ops, fn.typ.params);
            var room := Above(sp.room, |under|);
            Apply(e, sp.callers, sp.func, |sp.under|, sp.labelsTop, Enter(RegsAt(sp, p1, st), f)) ==
            if room.frames < 1 then StepResult.Trapped(StackOverflow)
            else if TotalLocals(fn) > room.slots then Fault(StackOverrun)
            else if TotalLocals(fn) + fn.maxStack > room.slots then StepResult.Trapped(StackOverflow)
            else if fn.maxLabels > room.labels then StepResult.Trapped(LabelStackOverflow)
            else Next(StateAt(CalleeSpot(sp, p1, st.locals, under, fn, f), 0, Store(args + Zeros(fn.localCount), [], st.world)))
  {
    hide StackOf, Owned, ContextOf, LabelsOk, Zeros;
    var fn := im.pr.env.funcs[f];
    var under, args := Under(st.ops, fn.typ.params), Top(st.ops, fn.typ.params);
    StackShape(sp, st.locals, st.ops, fn.typ.params);
    StackShape(sp, st.locals, under, 0);
    StackPush(sp, st.locals, under, args);
    assert under + args == st.ops;
    CalleeStack(CalleeSpot(sp, p1, st.locals, under, fn, f), args, Zeros(fn.localCount));
  }

  lemma CalleeStack(sp: Spot, args: seq<Value>, zeros: seq<Value>)
    requires sp.below == []
    ensures StackOf(sp, args + zeros, []) == sp.under + args + zeros
  {
  }

  lemma CalleeReady(im: Image, cx: Context, sp: Spot, f: nat, p1: nat, st: Store)
    requires Loaded(im) && SpotOk(im, cx, sp) && StoreFits(cx, st, |st.ops|)
    requires IsLocal(im, f) && im.pr.env.funcs[f].typ.params <= |st.ops|
    requires var fn := im.pr.env.funcs[f];
             var room := Above(sp.room, |Under(st.ops, fn.typ.params)|);
             room.frames >= 1 && TotalLocals(fn) + fn.maxStack <= room.slots && fn.maxLabels <= room.labels
    ensures var fn := im.pr.env.funcs[f];
            var under, args := Under(st.ops, fn.typ.params), Top(st.ops, fn.typ.params);
            Ready(im, ContextOf(im.pr.env, im.globals, f), CalleeSpot(sp, p1, st.locals, under, fn, f), im.pr.bodies[f], 0,
                  fn.typ.results, Store(args + Zeros(fn.localCount), [], st.world))
    ensures im.pr.env.funcs[f].maxLabels >= 1
    ensures Arities(CalleeSpot(sp, p1, st.locals, Under(st.ops, im.pr.env.funcs[f].typ.params), im.pr.env.funcs[f], f).labels)
         == [im.pr.env.funcs[f].typ.results]
  {
    hide StackOf, Owned, CodeAt, Valid, HostFits;
    var fn := im.pr.env.funcs[f];
    var under := Under(st.ops, fn.typ.params);
    assert BodyLoaded(im, f) && BodyValid(im.pr, im.globals, f);
    StackShape(sp, st.locals, under, 0);
    OwnedSnoc(im.pr.env, sp.callers, Frame(sp.func, p1, |sp.under|, sp.labels));
    var sp1 := CalleeSpot(sp, p1, st.locals, under, fn, f);
    assert Arities(sp1.labels) == [fn.typ.results];
    var cx1 := ContextOf(im.pr.env, im.globals, f);
    assert SpotOk(im, cx1, sp1);
    assert LaidAt(im, cx1, sp1, im.pr.bodies[f], 0, 0);
  }

  /** The body of a callee, from its first opcode back to the caller. */
  lemma {:induction false} SimBody(im: Image, cx: Context, sp: Spot, next: Code, f: nat, p1: nat, st: Store, fuel: nat, calling: Code)
    requires Loaded(im) && SpotOk(im, cx, sp) && StoreFits(cx, st, |st.ops|)
    requires IsLocal(im, f) && im.pr.env.funcs[f].typ.params <= |st.ops|
    requires var fn := im.pr.env.funcs[f];
             var room := Above(sp.room, |Under(st.ops, fn.typ.params)|);
             room.frames >= 1 && TotalLocals(fn) + fn.maxStack <= room.slots && fn.maxLabels <= room.labels
    requires var t := im.pr.env.funcs[f].typ; LaidAt(im, cx, sp, next, p1, |st.ops| - t.params + t.results)
    ensures var fn := im.pr.env.funcs[f];
            var under, args := Under(st.ops, fn.typ.params), Top(st.ops, fn.typ.params);
            Simulates(im, StateAt(CalleeSpot(sp, p1, st.locals, under, fn, f), 0, Store(args + Zeros(fn.localCount), [], st.world)),
                      sp, p1, fuel, Resume(InvokeBody(im.pr, Above(sp.room, |under|), fuel, f, args, st.world), st.locals, under))
    decreases fuel, 1, calling, 0
  {
    hide StackOf, Owned, CodeAt, Valid, HostFits, Laid, Simulates, Step, Good, Eval, Zeros;
    var fn := im.pr.env.funcs[f];
    var under, args := Under(st.ops, fn.typ.params), Top(st.ops, fn.typ.params);
    var sp1, cx1 := CalleeSpot(sp, p1, st.locals, under, fn, f), ContextOf(im.pr.env, im.globals, f);
    var st1, body := Store(args + Zeros(fn.localCount), [], st.world), im.pr.bodies[f];
    CalleeReady(im, cx, sp, f, p1, st);
    Sim(im, cx1, sp1, fuel, body, 0, fn.typ.results, st1);
    var out := Eval(im.pr, fn.typ.results, sp1.room, fuel, body, [fn.typ.results], st1);
    EvalSound(im.pr, cx1, sp1.room, fuel, body, [fn.typ.results], fn.typ.results, st1);
    assert BodyLoaded(im, f);
    FinishBody(im, cx, sp, next, under, f, p1, st.locals, StateAt(sp1, 0, st1), fuel, out);
  }

  /** From the outcome of a body to the state of its caller. */
  lemma FinishBody(im: Image, cx: Context, sp: Spot, next: Code, under: seq<Value>, f: nat, p1: nat, locals: seq<Value>, s: State, fuel: nat, out: Outcome)
    requires SpotOk(im, cx, sp) && |locals| == cx.locals && IsLocal(im, f) && im.pr.env.funcs[f].maxLabels >= 1
    requires Encodes(im.pr.env.funcs[f].code, im.pr.bodies[f])
    requires var fn := im.pr.env.funcs[f];
             && Simulates(im, s, CalleeSpot(sp, p1, locals, under, fn, f), Size(im.pr.bodies[f]), fuel, out)
             && OutcomeFits(ContextOf(im.pr.env, im.globals, f), [fn.typ.results], fn.typ.results, out)
             && LaidAt(im, cx, sp, next, p1, |under| + fn.typ.results)
    requires sp.room.Room?
    ensures Simulates(im, s, sp, p1, fuel, Resume(FinishCall(sp.room, out), locals, under))
  {
    hide StackOf, Owned, CodeAt, Laid, Good, Reaches, Progresses, StopsWith, RunsFor, LabelsOk;
    var fn := im.pr.env.funcs[f];
    var sp1 := CalleeSpot(sp, p1, locals, under, fn, f);
    match out
    case Normal(st) =>
      var t := Store(locals, under + st.ops, st.world);
      BodyEnds(im, sp, under, f, p1, locals, st);
      StepsTo(im, StateAt(sp1, Size(im.pr.bodies[f]), st), StateAt(sp, p1, t));
      ReachesTrans(im, s, StateAt(sp1, Size(im.pr.bodies[f]), st), StateAt(sp, p1, t));
      GoodAt(im, cx, sp, next, p1, t);
    case Branching(d, vals, bl, w) =>
      OffTheEnd(im, sp1, f, vals, bl, w);
      ProgressReaches(im, s, JumpState(sp1, 0, vals, bl, w));
      StopsHere(im, JumpState(sp1, 0, vals, bl, w));
      StopsTrans(im, s, JumpState(sp1, 0, vals, bl, w), Fault(RanOffEnd));
    case Returning(vals, w) =>
      var t := Store(locals, under + vals, w);
      StackPush(sp, locals, under, vals);
      assert ReturnState(sp1, fn.maxLabels, vals, w) == StateAt(sp, p1, t);
      GoodAt(im, cx, sp, next, p1, t);
    case _ =>
  }

  /** The `end` that closes a frame's only label drops the frame and leaves its results. */
  lemma LastEnd(im: Image, sp: Spot, q: nat, st: Store)
    requires IsLocal(im, sp.func) && im.pr.env.funcs[sp.func].maxLabels <= sp.labelsTop
    requires |sp.labels| == 1 && sp.labels[0].stackTop == |sp.under| && sp.labels[0].results == |st.ops|
    requires ByteAt(im.pr.env.funcs[sp.func].code, q, 0x0B)
    ensures Step(im.pr.env, StateAt(sp, q, st)) ==
            Next(State(sp.callers, sp.under + st.ops, sp.labelsTop - im.pr.env.funcs[sp.func].maxLabels, st.world))
  {
    hide StackOf, Unwind, Top, DoPlain, DoBlock, DoIf, DoElse, DoBr, DoBrTable, DoReturn, DoCall;
    StepAt(im, sp, q, st);
    FrameBottom(sp, st.locals, st.ops, |st.ops|);
    WholeTop(st.ops);
  }

  lemma WholeTop(ops: seq<Value>)
    ensures Top(ops, |ops|) == ops
  {
  }

  /** The final `end` of a body pops the frame. */
  lemma BodyEnds(im: Image, sp: Spot, under: seq<Value>, f: nat, p1: nat, locals: seq<Value>, st: Store)
    requires IsLocal(im, f) && im.pr.env.funcs[f].maxLabels >= 1 && Encodes(im.pr.env.funcs[f].code, im.pr.bodies[f])
    requires |st.ops| == im.pr.env.funcs[f].typ.results
    ensures var sp1 := CalleeSpot(sp, p1, locals, under, im.pr.env.funcs[f], f);
            Step(im.pr.env, StateAt(sp1, Size(im.pr.bodies[f]), st)) ==
            Next(StateAt(sp, p1, Store(locals, under + st.ops, st.world)))
  {
    hide StackOf, CodeAt, Step;
    LastEnd(im, CalleeSpot(sp, p1, locals, under, im.pr.env.funcs[f], f), Size(im.pr.bodies[f]), st);
    StackPush(sp, locals, under, st.ops);
  }

  /** A branch to the function's own label lands behind the last byte of the body. */
  lemma OffTheEnd(im: Image, sp: Spot, f: nat, vals: seq<Value>, locals: seq<Value>, w: World)
    requires IsLocal(im, f) && sp.func == f && |sp.labels| == 1 && sp.labels[0].op == 0x02
    requires sp.labels[0].pc == |im.pr.env.funcs[f].code| && sp.labels[0].stackTop <= |sp.under| + |locals| + |sp.below|
    ensures Step(im.pr.env, JumpState(sp, 0, vals, locals, w)) == Fault(RanOffEnd)
  {
    hide StackOf;
    var t := JumpState(sp, 0, vals, locals, w);
    assert t.frames[..|t.frames| - 1] == sp.callers;
  }

  lemma {:induction false} SimCall(im: Image, cx: Context, sp: Spot, fuel: nat, c: Code, p: nat, need: nat, st: Store)
    requires Loaded(im) && c.Call? && Ready(im, cx, sp, c, p, need, st)
    ensures Simulates(im, StateAt(sp, p, st), sp, p + 1 + |c.func|, fuel,
                      EvalCall(im.pr, cx.results, sp.room, fuel, c, st))
    decreases fuel, 0, c, 2
  {
    hide U, S, StackOf, Owned, Good, FuncTypes, CodeAt, Step, Simulates, StateAt, Apply, InvokeBody, EvalHost, HostFits, BodyValid, BodyLoaded;
    var e, f, p1 := im.pr.env, U(c.func), p + 1 + |c.func|;
    CallDecoded(im, cx, sp, c, p, need, st);
    var fn, s := e.funcs[f], StateAt(sp, p, st);
    if fn.Host? {
      SimHost(im, cx, sp, c, p, need, st, fuel);
    } else if fuel == 0 {
      NoFuel(im, s);
      assert Simulates(im, s, sp, p1, fuel, OutOfFuel) by { OutOfFuelSimulates(im, s, sp, p1); }
    } else {
      SimInvoke(im, cx, sp, fuel, c, p, p1, need, st);
    }
  }

  lemma OutOfFuelSimulates(im: Image, s: State, sp: Spot, q: nat)
    ensures Simulates(im, s, sp, q, 0, OutOfFuel)
  {
    NoFuel(im, s);
  }

  lemma StopSimulates(im: Image, s: State, sp: Spot, q: nat, fuel: nat)
    requires s.frames != [] && Good(im, s)
    ensures Step(im.pr.env, s).Trapped? ==> Simulates(im, s, sp, q, fuel, Trapping(Step(im.pr.env, s).code))
    ensures Step(im.pr.env, s) == Fault(StackOverrun) ==> Simulates(im, s, sp, q, fuel, Breached(LocalsOverrun))
  {
    hide Step, StopsWith, Good;
    StopsHere(im, s);
  }

  lemma {:induction false} SimInvoke(im: Image, cx: Context, sp: Spot, fuel: nat, c: Code, p: nat, p1: nat, need: nat, st: Store)
    requires Loaded(im) && c.Call? && Ready(im, cx, sp, c, p, need, st) && p1 == p + 1 + |c.func|
    requires fuel > 0 && U(c.func) < |im.pr.env.funcs| && im.pr.env.funcs[U(c.func)].Local?
    requires im.pr.env.funcs[U(c.func)].typ.params <= |st.ops|
    ensures var f := U(c.func);
            var fn := im.pr.env.funcs[f];
            var under, args := Under(st.ops, fn.typ.params), Top(st.ops, fn.typ.params);
            Simulates(im, StateAt(sp, p, st), sp, p1, fuel,
                      Resume(Invoke(im.pr, Above(sp.room, |under|), fuel - 1, f, args, st.world), st.locals, under))
    decreases fuel, 0, c, 1
  {
    hide U, S, StackOf, Owned, Good, CodeAt, Step, Simulates, Apply, InvokeBody, Valid, HostFits, BodyValid, ContextOf, StateAt, CalleeSpot, CalleeRoom;
    var e, f, s := im.pr.env, U(c.func), StateAt(sp, p, st);
    var fn := e.funcs[f];
    var under, args := Under(st.ops, fn.typ.params), Top(st.ops, fn.typ.params);
    var room := Above(sp.room, |under|);
    CallDecoded(im, cx, sp, c, p, need, st);
    RootMark(im, f);
    CallEffect(im, cx, sp, f, p1, st);
    StopSimulates(im, s, sp, p1, fuel) by { assert StateAt(sp, p, st).frames != [] by { StateHasFrame(sp, p, st); } }
    if room.frames >= 1 && TotalLocals(fn) + fn.maxStack <= room.slots && fn.maxLabels <= room.labels {
      var st1 := Store(args + Zeros(fn.localCount), [], st.world);
      var s1 := StateAt(CalleeSpot(sp, p1, st.locals, under, fn, f), 0, st1);
      NextLaid(im, cx, sp, c, p, need, st);
      SimBody(im, cx, sp, c.next, f, p1, st, fuel - 1, c);
      StepsTo(im, s, s1);
      OneMoreFuel(im, s, s1, sp, p1, fuel, Resume(InvokeBody(im.pr, room, fuel - 1, f, args, st.world), st.locals, under));
    }
  }

  lemma StateHasFrame(sp: Spot, p: nat, st: Store)
    ensures StateAt(sp, p, st).frames != []
  {
  }

  /** A loaded body owns at least the label slot of its function. */
  lemma RootMark(im: Image, f: nat)
    requires Loaded(im) && f < |im.pr.env.funcs| && im.pr.env.funcs[f].Local?
    ensures IsLocal(im, f) && im.pr.env.funcs[f].maxLabels >= 1
  {
    assert BodyLoaded(im, f);
  }

  lemma NextLaid(im: Image, cx: Context, sp: Spot, c: Code, p: nat, need: nat, st: Store)
    requires c.Call? && Ready(im, cx, sp, c, p, need, st) && U(c.func) < |im.pr.env.funcs|
    ensures var t := im.pr.env.funcs[U(c.func)].typ;
            t.params <= |st.ops| && LaidAt(im, cx, sp, c.next, p + 1 + |c.func|, |st.ops| - t.params + t.results)
  {
    hide U, CodeAt;
  }

  /** The call's continuation. */
  lemma CallParts(im: Image, cx: Context, sp: Spot, c: Code, p: nat, need: nat, st: Store)
    requires c.Call? && Ready(im, cx, sp, c, p, need, st)
    ensures U(c.func) < |cx.funcs|
    ensures var t, p1 := cx.funcs[U(c.func)], p + 1 + |c.func|;
            && t.params <= |st.ops| && IsLocal(im, sp.func)
            && CodeAt(im.pr.env.funcs[sp.func].code, p1, c.next)
            && Valid(cx, c.next, Arities(sp.labels), need, |st.ops| - t.params + t.results)
            && LaidAt(im, cx, sp, c.next, p1, |st.ops| - t.params + t.results) && p1 + Size(c.next) == p + Size(c)
  {
    hide U, S, Owned, LabelsOk, ImmAt, BlockArity;
  }

  lemma ReadyValid(im: Image, cx: Context, sp: Spot, c: Code, p: nat, need: nat, st: Store)
    requires Ready(im, cx, sp, c, p, need, st)
    ensures Valid(cx, c, Arities(sp.labels), need, |st.ops|) && StoreFits(cx, st, |st.ops|)
  {
    hide Valid, CodeAt, Laid, SpotOk;
  }

  // ----- the simulation -----

  /** Every structured outcome of a sequence is reached by the machine. */
  lemma {:induction false} Sim(im: Image, cx: Context, sp: Spot, fuel: nat, c: Code, p: nat, need: nat, st: Store)
    requires Loaded(im) &&  Ready(im, cx, sp, c, p, need, st)
    ensures Simulates(im, StateAt(sp, p, st), sp, p + Size(c), fuel,
                      Eval(im.pr, cx.results, sp.room, fuel, c, Arities(sp.labels), st))
    decreases fuel, 0, c, 4
  {
    hide Simulates, StateAt, Laid, Good, Step, Runs, StackOf, U, S, Valid, OpAt, OpBytes, BlockArity, EvalOp, EvalBlock, EvalIf,
         EvalLoop, EvalCall, EvalBrIf, EvalBrTable, Jump, Owned, ProgramValid;
    match c
    case End => SimEnd(im, cx, sp, p, need, st, fuel);
    case Plain(_, _) => FromPlain(im, cx, sp, fuel, c, p, need, st);
    case Unreachable(_) => SimUnreachable(im, cx, sp, c, p, need, st, p + Size(c), fuel);
    case Block(_, _, _) => FromBlock(im, cx, sp, fuel, c, p, need, st);
    case Loop(_, _, _) => FromLoop(im, cx, sp, fuel, c, p, need, st);
    case If(_, _, _) => FromIf(im, cx, sp, fuel, c, p, need, st);
    case IfElse(_, _, _, _) => FromIf(im, cx, sp, fuel, c, p, need, st);
    case Br(_, _) => SimBr(im, cx, sp, c, p, need, st, p + Size(c), fuel);
    case BrIf(_, _) => FromBrIf(im, cx, sp, fuel, c, p, need, st);
    case BrTable(_, _, _, _) => SimBrTable(im, cx, sp, c, p, need, st, p + Size(c), fuel);
    case Return(_) => FromReturn(im, cx, sp, fuel, c, p, need, st);
    case Call(_, _) => FromCall(im, cx, sp, fuel, c, p, need, st);
  }

  lemma {:induction false} FromPlain(im: Image, cx: Context, sp: Spot, fuel: nat, c: Code, p: nat, need: nat, st: Store)
    requires Loaded(im) && c.Plain? && Ready(im, cx, sp, c, p, need, st)
    ensures Simulates(im, StateAt(sp, p, st), sp, p + Size(c), fuel,
                      Eval(im.pr, cx.results, sp.room, fuel, c, Arities(sp.labels), st))
    decreases fuel, 0, c, 3
  {
    hide OpArity, OpInScope, Simulates, StateAt, Good, Step, Runs, StackOf, U, S, OpAt, OpBytes, BlockArity, EvalOp, EvalBlock, EvalIf, EvalLoop,
         EvalCall, EvalBrIf, EvalBrTable, Jump, Owned, ProgramValid, SpotOk, ImmAt, ByteAt;
    ReadyLocal(im, cx, sp, c, p, need, st);
    var op := c.op;
    SimPlain(im, cx, sp, c, p, need, st, fuel);
    OpSound(cx, op, st, |st.ops|);
    SimThen(im, cx, sp, fuel, c, p, p + |OpBytes(op)|, need, |st.ops| - OpArity(op).params + OpArity(op).results, st, EvalOp(op, st));
  }

  lemma {:induction false} FromBlock(im: Image, cx: Context, sp: Spot, fuel: nat, c: Code, p: nat, need: nat, st: Store)
    requires Loaded(im) && c.Block? && Ready(im, cx, sp, c, p, need, st)
    ensures Simulates(im, StateAt(sp, p, st), sp, p + Size(c), fuel,
                      Eval(im.pr, cx.results, sp.room, fuel, c, Arities(sp.labels), st))
    decreases fuel, 0, c, 3
  {
    hide Simulates, StateAt, Good, Step, Runs, StackOf, U, S, OpAt, OpBytes, BlockArity, EvalOp, EvalBlock, EvalIf, EvalLoop,
         EvalCall, EvalBrIf, EvalBrTable, Jump, Owned, ProgramValid, SpotOk, ImmAt, ByteAt;
    ReadyLocal(im, cx, sp, c, p, need, st);
    var t, ar := BlockArity(cx.types, S(c.bt)), Arities(sp.labels);
    SimBlock(im, cx, sp, fuel, c, p, need, st);
    BlockSound(im.pr, cx, sp.room, fuel, c, ar, need, st);
    SimThen(im, cx, sp, fuel, c, p, p + 1 + |c.bt| + Size(c.body) + 1, need, |st.ops| - t.params + t.results, st,
            EvalBlock(im.pr, cx.results, sp.room, fuel, c, ar, st));
  }

  lemma {:induction false} FromLoop(im: Image, cx: Context, sp: Spot, fuel: nat, c: Code, p: nat, need: nat, st: Store)
    requires Loaded(im) && c.Loop? && Ready(im, cx, sp, c, p, need, st)
    ensures Simulates(im, StateAt(sp, p, st), sp, p + Size(c), fuel,
                      Eval(im.pr, cx.results, sp.room, fuel, c, Arities(sp.labels), st))
    decreases fuel, 0, c, 3
  {
    hide Simulates, StateAt, Good, Step, Runs, StackOf, U, S, OpAt, OpBytes, BlockArity, EvalOp, EvalBlock, EvalIf, EvalLoop,
         EvalCall, EvalBrIf, EvalBrTable, Jump, Owned, ProgramValid, SpotOk, ImmAt, ByteAt;
    ReadyLocal(im, cx, sp, c, p, need, st);
    var t, ar := BlockArity(cx.types, S(c.bt)), Arities(sp.labels);
    SimLoop(im, cx, sp, fuel, c, p, need, st);
    LoopSound(im.pr, cx, sp.room, fuel, c, ar, need, st);
    SimThen(im, cx, sp, fuel, c, p, p + 1 + |c.bt| + Size(c.body) + 1, need, |st.ops| - t.params + t.results, st,
            EvalLoop(im.pr, cx.results, sp.room, fuel, c, ar, st));
  }

  lemma {:induction false} FromIf(im: Image, cx: Context, sp: Spot, fuel: nat, c: Code, p: nat, need: nat, st: Store)
    requires Loaded(im) && (c.If? || c.IfElse?) && Ready(im, cx, sp, c, p, need, st)
    ensures Simulates(im, StateAt(sp, p, st), sp, p + Size(c), fuel,
                      Eval(im.pr, cx.results, sp.room, fuel, c, Arities(sp.labels), st))
    decreases fuel, 0, c, 3
  {
    hide Simulates, StateAt, Good, Step, Runs, StackOf, U, S, OpAt, OpBytes, BlockArity, EvalOp, EvalBlock, EvalIf, EvalLoop,
         EvalCall, EvalBrIf, EvalBrTable, Jump, Owned, ProgramValid, SpotOk, ImmAt, ByteAt;
    ReadyLocal(im, cx, sp, c, p, need, st);
    var t, ar, end := BlockArity(cx.types, S(c.bt)), Arities(sp.labels), IfEnd(c, p);
    SimIf(im, cx, sp, fuel, c, p, need, st);
    IfSound(im.pr, cx, sp.room, fuel, c, ar, need, st);
    SimThen(im, cx, sp, fuel, c, p, end, need, |st.ops| - 1 + t.results, st, EvalIf(im.pr, cx.results, sp.room, fuel, c, ar, st));
  }

  lemma {:induction false} FromBrIf(im: Image, cx: Context, sp: Spot, fuel: nat, c: Code, p: nat, need: nat, st: Store)
    requires Loaded(im) && c.BrIf? && Ready(im, cx, sp, c, p, need, st)
    ensures Simulates(im, StateAt(sp, p, st), sp, p + Size(c), fuel,
                      Eval(im.pr, cx.results, sp.room, fuel, c, Arities(sp.labels), st))
    decreases fuel, 0, c, 3
  {
    hide Simulates, StateAt, Good, Step, Runs, StackOf, U, S, OpAt, OpBytes, BlockArity, EvalOp, EvalBlock, EvalIf, EvalLoop,
         EvalCall, EvalBrIf, EvalBrTable, Jump, Owned, ProgramValid, SpotOk, ImmAt, ByteAt;
    ReadyLocal(im, cx, sp, c, p, need, st);
    SimBrIf(im, cx, sp, c, p, need, st, fuel);
    BrIfSound(cx, Arities(sp.labels), U(c.depth), need, st);
    SimThen(im, cx, sp, fuel, c, p, p + 1 + |c.depth|, need, |st.ops| - 1, st, EvalBrIf(Arities(sp.labels), U(c.depth), st));
  }

  lemma {:induction false} FromReturn(im: Image, cx: Context, sp: Spot, fuel: nat, c: Code, p: nat, need: nat, st: Store)
    requires Loaded(im) && c.Return? && Ready(im, cx, sp, c, p, need, st)
    ensures Simulates(im, StateAt(sp, p, st), sp, p + Size(c), fuel,
                      Eval(im.pr, cx.results, sp.room, fuel, c, Arities(sp.labels), st))
    decreases fuel, 0, c, 3
  {
    hide Simulates, StateAt, Good, Step, Runs, StackOf, U, S, OpAt, OpBytes, BlockArity, EvalOp, EvalBlock, EvalIf, EvalLoop,
         EvalCall, EvalBrIf, EvalBrTable, Jump, Owned, ProgramValid, SpotOk, ImmAt, ByteAt;
    ReadyLocal(im, cx, sp, c, p, need, st);
    SimReturn(im, cx, sp, c, p, need, st, p + Size(c), fuel);
  }

  lemma {:induction false} FromCall(im: Image, cx: Context, sp: Spot, fuel: nat, c: Code, p: nat, need: nat, st: Store)
    requires Loaded(im) && c.Call? && Ready(im, cx, sp, c, p, need, st)
    ensures Simulates(im, StateAt(sp, p, st), sp, p + Size(c), fuel,
                      Eval(im.pr, cx.results, sp.room, fuel, c, Arities(sp.labels), st))
    decreases fuel, 0, c, 3
  {
    hide Simulates, StateAt, Good, Step, Runs, StackOf, U, S, OpAt, OpBytes, BlockArity, EvalOp, EvalBlock, EvalIf, EvalLoop,
         EvalCall, EvalBrIf, EvalBrTable, Jump, Owned, ProgramValid, SpotOk, ImmAt, ByteAt, CodeAt, Valid, Laid, Size;
    ReadyLocal(im, cx, sp, c, p, need, st);
    CallParts(im, cx, sp, c, p, need, st);
    ReadyValid(im, cx, sp, c, p, need, st);
    var t := cx.funcs[U(c.func)];
    SimCall(im, cx, sp, fuel, c, p, need, st);
    CallSound(im.pr, cx, sp.room, fuel, c, Arities(sp.labels), need, st);
    SimThen(im, cx, sp, fuel, c, p, p + 1 + |c.func|, need, |st.ops| - t.params + t.results, st,
            EvalCall(im.pr, cx.results, sp.room, fuel, c, st));
  }

  lemma SimEnd(im: Image, cx: Context, sp: Spot, p: nat, need: nat, st: Store, fuel: nat)
    requires Ready(im, cx, sp, End, p, need, st)
    ensures Simulates(im, StateAt(sp, p, st), sp, p, fuel, Normal(st))
  {
    hide Reaches, Good, StateAt;
    GoodAt(im, cx, sp, End, p, st);
    ReachesSelf(im, StateAt(sp, p, st));
  }

  /** The rest of a sequence after its first instruction gave `out` at `p1`. */
  lemma {:induction false} SimThen(im: Image, cx: Context, sp: Spot, fuel: nat, c: Code, p: nat, p1: nat, need: nat, mid: nat, st: Store, out: Outcome)
    requires Loaded(im) && SpotOk(im, cx, sp) && !c.End?
    requires Simulates(im, StateAt(sp, p, st), sp, p1, fuel, out) && OutcomeFits(cx, Arities(sp.labels), mid, out)
    requires CodeAt(im.pr.env.funcs[sp.func].code, p1, c.next) && Valid(cx, c.next, Arities(sp.labels), need, mid)
    requires LaidAt(im, cx, sp, c.next, p1, mid) && p1 + Size(c.next) == p + Size(c)
    ensures Simulates(im, StateAt(sp, p, st), sp, p + Size(c), fuel,
                      Then(im.pr, cx.results, sp.room, fuel, c.next, c, Arities(sp.labels), out))
    decreases fuel, 0, c, 0
  {
    hide StateAt, Laid, Good, Step, Runs, Reaches, StackOf, U, S, Eval, Valid, CodeAt, Size, ProgramValid;
    if out.Normal? {
      Sim(im, cx, sp, fuel, c.next, p1, need, out.st);
      After(im, StateAt(sp, p, st), StateAt(sp, p1, out.st), sp, p + Size(c), fuel,
            Eval(im.pr, cx.results, sp.room, fuel, c.next, Arities(sp.labels), out.st));
    }
  }
}
