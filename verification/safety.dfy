// When the interpreter cannot leave a buffer: branches to a function's own label are the only way to run past the end of
// a body, and bodies without them never do.
module Safety {
  import opened Leb128
  import opened Bytecode
  import opened Runtime
  import opened Structured
  import opened Validity
  import opened Flat
  import opened Scan
  import opened ScanProof
  import opened Simulation
  import opened Execution
  import PreScan
  import Acceptance

  /** No branch in `c`, nested under `k` blocks, names the function's own label. */
  predicate Inside(c: Code, k: nat)
  {
    match c
    case End => true
    case Plain(_, next) => Inside(next, k)
    case Unreachable(_) => true
    case Block(_, body, next) => Inside(body, k + 1) && Inside(next, k)
    case Loop(_, body, next) => Inside(body, k + 1) && Inside(next, k)
    case If(_, thn, next) => Inside(thn, k + 1) && Inside(next, k)
    case IfElse(_, thn, els, next) => Inside(thn, k + 1) && Inside(els, k + 1) && Inside(next, k)
    case Br(l, _) => U(l) < k
    case BrIf(l, next) => U(l) < k && Inside(next, k)
    case BrTable(_, ts, d, _) => TargetsInside(ts, k) && U(d) < k
    case Return(_) => true
    case Call(_, next) => Inside(next, k)
  }

  predicate AllInside(pr: Program) { forall f: nat :: f < |pr.bodies| ==> Inside(pr.bodies[f], 0) }

  predicate Stays(out: Outcome, k: nat)
  {
    (out.Branching? ==> out.depth < k) && (out.Breached? ==> out.breach == LocalsOverrun)
  }

  predicate CallStays(out: CallOutcome) { out.CallBreaches? ==> out.breach == LocalsOverrun }

  lemma {:induction false} TargetInside(ts: seq<Imm>, k: nat, i: nat)
    requires TargetsInside(ts, k)
    ensures i < |ts| ==> U(ts[i]) < k
    decreases i
  {
    hide U;
    if 0 < i < |ts| { TargetInside(ts[1..], k, i - 1); }
  }

  lemma OpStays(op: PlainOp, st: Store, k: nat)
    ensures Stays(EvalOp(op, st), k)
  {
  }

  lemma {:induction false} EvalStays(pr: Program, results: nat, room: Room, fuel: nat, c: Code, labels: seq<nat>, st: Store, k: nat)
    requires AllInside(pr) && Inside(c, k)
    ensures Stays(Eval(pr, results, room, fuel, c, labels, st), k)
    decreases fuel, 0, c, 4
  {
    hide U, S, EvalOp, EvalBlock, EvalIf, EvalLoop, EvalCall, Top, Under, AllInside;
    match c
    case Plain(op, next) =>
      OpStays(op, st, k);
      ThenStays(pr, results, room, fuel, next, c, labels, EvalOp(op, st), k);
    case Block(_, _, next) =>
      BlockStays(pr, results, room, fuel, c, labels, st, k);
      ThenStays(pr, results, room, fuel, next, c, labels, EvalBlock(pr, results, room, fuel, c, labels, st), k);
    case Loop(_, _, next) =>
      LoopStays(pr, results, room, fuel, c, labels, st, k);
      ThenStays(pr, results, room, fuel, next, c, labels, EvalLoop(pr, results, room, fuel, c, labels, st), k);
    case If(_, _, next) =>
      IfStays(pr, results, room, fuel, c, labels, st, k);
      ThenStays(pr, results, room, fuel, next, c, labels, EvalIf(pr, results, room, fuel, c, labels, st), k);
    case IfElse(_, _, _, next) =>
      IfStays(pr, results, room, fuel, c, labels, st, k);
      ThenStays(pr, results, room, fuel, next, c, labels, EvalIf(pr, results, room, fuel, c, labels, st), k);
    case BrIf(l, next) => ThenStays(pr, results, room, fuel, next, c, labels, EvalBrIf(labels, U(l), st), k);
    case BrTable(_, ts, d, _) => if st.ops != [] { TargetInside(ts, k, st.ops[|st.ops| - 1] % TWO_32); }
    case Call(_, next) =>
      EvalCallStays(pr, results, room, fuel, c, st, k);
      ThenStays(pr, results, room, fuel, next, c, labels, EvalCall(pr, results, room, fuel, c, st), k);
    case _ =>
  }

  lemma {:induction false} ThenStays(pr: Program, results: nat, room: Room, fuel: nat, next: Code, c: Code, labels: seq<nat>, out: Outcome, k: nat)
    requires AllInside(pr) && next < c && Inside(next, k) && Stays(out, k)
    ensures Stays(Then(pr, results, room, fuel, next, c, labels, out), k)
    decreases fuel, 0, c, 0
  {
    hide Eval, AllInside, Inside;
    if out.Normal? { EvalStays(pr, results, room, fuel, next, labels, out.st, k); }
  }

  lemma LeaveStays(out: Outcome, under: seq<Value>, k: nat)
    requires Stays(out, k + 1)
    ensures Stays(Leave(out, under), k)
  {
  }

  lemma {:induction false} BlockStays(pr: Program, results: nat, room: Room, fuel: nat, c: Code, labels: seq<nat>, st: Store, k: nat)
    requires AllInside(pr) && c.Block? && Inside(c, k)
    ensures Stays(EvalBlock(pr, results, room, fuel, c, labels, st), k)
    decreases fuel, 0, c, 2
  {
    hide S, U, Eval, Leave, AllInside;
    var t := BlockArity(pr.env.types, S(c.bt));
    if t.params <= |st.ops| {
      var under, inner := Under(st.ops, t.params), st.(ops := Top(st.ops, t.params));
      EvalStays(pr, results, Above(room, |under|), fuel, c.body, labels + [t.results], inner, k + 1);
      LeaveStays(Eval(pr, results, Above(room, |under|), fuel, c.body, labels + [t.results], inner), under, k);
    }
  }

  lemma {:induction false} IfStays(pr: Program, results: nat, room: Room, fuel: nat, c: Code, labels: seq<nat>, st: Store, k: nat)
    requires AllInside(pr) && (c.If? || c.IfElse?) && Inside(c, k)
    ensures Stays(EvalIf(pr, results, room, fuel, c, labels, st), k)
    decreases fuel, 0, c, 2
  {
    hide S, U, Eval, Leave, AllInside;
    var t := BlockArity(pr.env.types, S(c.bt));
    if |st.ops| >= 1 && !(st.ops[|st.ops| - 1] == 0 && c.If?) {
      var under, inner := Under(st.ops, 1), st.(ops := []);
      var branch := if st.ops[|st.ops| - 1] != 0 then c.thn else c.els;
      EvalStays(pr, results, Above(room, |under|), fuel, branch, labels + [t.results], inner, k + 1);
      LeaveStays(Eval(pr, results, Above(room, |under|), fuel, branch, labels + [t.results], inner), under, k);
    }
  }

  lemma {:induction false} LoopStays(pr: Program, results: nat, room: Room, fuel: nat, c: Code, labels: seq<nat>, st: Store, k: nat)
    requires AllInside(pr) && c.Loop? && Inside(c, k)
    ensures Stays(EvalLoop(pr, results, room, fuel, c, labels, st), k)
    decreases fuel, 0, c, 2
  {
    hide S, U, Iterate, Leave, AllInside;
    var t := BlockArity(pr.env.types, S(c.bt));
    if t.params <= |st.ops| {
      var under, inner := Under(st.ops, t.params), st.(ops := Top(st.ops, t.params));
      IterateStays(pr, results, Above(room, |under|), fuel, c, labels, inner, k);
      LeaveStays(Iterate(pr, results, Above(room, |under|), fuel, c, labels, inner), under, k);
    }
  }

  lemma {:induction false} IterateStays(pr: Program, results: nat, room: Room, fuel: nat, c: Code, labels: seq<nat>, st: Store, k: nat)
    requires AllInside(pr) && c.Loop? && Inside(c.body, k + 1)
    ensures Stays(Iterate(pr, results, room, fuel, c, labels, st), k + 1)
    decreases fuel, 0, c, 1
  {
    hide S, Eval, AllInside, Inside;
    var ar := labels + [BlockArity(pr.env.types, S(c.bt)).params];
    EvalStays(pr, results, room, fuel, c.body, ar, st, k + 1);
    var out := Eval(pr, results, room, fuel, c.body, ar, st);
    if out.Branching? && out.depth == 0 && fuel > 0 {
      IterateStays(pr, results, room, fuel - 1, c, labels, Store(out.locals, out.vals, out.world), k);
    }
  }

  lemma {:induction false} EvalCallStays(pr: Program, results: nat, room: Room, fuel: nat, c: Code, st: Store, k: nat)
    requires AllInside(pr) && c.Call?
    ensures Stays(EvalCall(pr, results, room, fuel, c, st), k)
    decreases fuel, 0, c, 2
  {
    hide U, Invoke, EvalHost, AllInside;
    var f := U(c.func);
    if f < |pr.env.funcs| && pr.env.funcs[f].typ.params <= |st.ops| {
      var n := pr.env.funcs[f].typ.params;
      if pr.env.funcs[f].Host? {
        HostStays(pr.env, pr.env.funcs[f], Top(st.ops, n), st.world);
      } else if fuel > 0 {
        InvokeStays(pr, Above(room, |Under(st.ops, n)|), fuel - 1, f, Top(st.ops, n), st.world);
      }
    }
  }

  lemma HostStays(e: Env, fn: Func, args: seq<Value>, w: World)
    requires fn.Host?
    ensures CallStays(EvalHost(e, fn, args, w))
  {
  }

  /** No call of a program whose branches stay inside runs past the end of a body. */
  lemma {:induction false} InvokeStays(pr: Program, room: Room, fuel: nat, f: nat, args: seq<Value>, w: World)
    requires AllInside(pr) && f < |pr.env.funcs|
    ensures CallStays(Invoke(pr, room, fuel, f, args, w))
    decreases fuel, 1, End, 0
  {
    hide Eval, Inside;
    var fn := pr.env.funcs[f];
    if fn.Local? && f < |pr.bodies| {
      EvalStays(pr, fn.typ.results, CalleeRoom(room, fn), fuel, pr.bodies[f], [fn.typ.results],
                Store(args + Zeros(fn.localCount), [], w), 0);
    }
  }

  /** Memory safety of whole runs: with branches that stay inside, the only unchecked access a run can make outside its
      buffers is the zeroing of a callee's locals before its capacity test. */
  lemma OnlyLocalsOverrun(im: Image, f: nat, stack: seq<Value>, w: World, n: nat, t: State)
    requires Launchable(im, f, stack, w) && AllInside(im.pr)
    requires Reached(im, f, stack, w, n, t) && t.frames != [] && Step(im.pr.env, t).Fault?
    ensures Step(im.pr.env, t) == Fault(StackOverrun)
    ensures OutcomeOf(im, f, stack, w, n + 1) == CallBreaches(LocalsOverrun)
  {
    hide Loaded, Step, Launch, Invoke;
    MachineEndsAsStructured(im, f, stack, w, n, t);
    InvokeStays(im.pr, FirstRoom(im.pr.env, im.pr.env.funcs[f], |stack|), n + 1, f, Top(stack, im.pr.env.funcs[f].typ.params), w);
  }

  // ----- a branch to the function's own label -----

  const BranchOutBytes: seq<Byte> := [0x0C, 0x00, 0x0B]
  const BranchOutBody: Code := Br([0x00], End)

  function BranchOutFunc(): Func { Local(FuncType(0, 0), 0, BranchOutBytes, 1, 0, []) }

  lemma Zero()
    ensures Legal([0x00], 5) && U([0x00]) == 0
  {
    assert PayloadAt([0x00], 0, 1) == 0;
  }

  lemma BranchOutEncoded()
    ensures Encodes(BranchOutBytes, BranchOutBody)
  {
    hide U;
    Zero();
    assert HasBytes(BranchOutBytes, 1, [0x00]);
    assert CodeAt(BranchOutBytes, 2, End);
  }

  lemma BranchOutScanned(cx: Context)
    requires cx.results == 0
    ensures Encodes(BranchOutBytes, BranchOutBody) && Valid(cx, BranchOutBody, [0], 0, 0) && ScanBody(cx, BranchOutBytes).Ok?
    ensures TakesNumbersOf(BranchOutFunc(), ScanBody(cx, BranchOutBytes).v)
  {
    hide U, CodeAt, ScanBody;
    Zero();
    BranchOutEncoded();
    Acceptance.StrictAccepted(cx, BranchOutBytes, BranchOutBody);
    PreScan.PreCounts(BranchOutBytes, BranchOutBody);
    PreScan.PassesAgree(cx, BranchOutBytes, BranchOutBody);
  }

  predicate TakesNumbersOf(fn: Func, end: ScanState)
  {
    fn.Local? && fn.maxLabels == end.maxLabels && fn.maxStack == end.maxDepth && fn.jumps == end.jumps
  }

  /** The body `br 0` is valid, accepted, and returns in the specification; the interpreter, after one step, stands at
      the end of the code and fetches the next opcode from behind it. */
  lemma BranchOutRunsOff(e: Env, w: World)
    requires e.funcs == [BranchOutFunc()] && e.callStackSize >= 1 && e.labelPoolSize >= 1
    ensures Launch(e, 0, [], w).Next?
    ensures var s := Launch(e, 0, [], w).s;
            s.frames != [] && Step(e, s).Next? && Step(e, s).s.frames != [] && Step(e, Step(e, s).s) == Fault(RanOffEnd)
    ensures Invoke(Program(e, [BranchOutBody]), Unbounded, 0, 0, [], w) == Results([], w)
    ensures ScanBody(ContextOf(e, |w.globals|, 0), BranchOutBytes).Ok?
    ensures TakesNumbersOf(e.funcs[0], ScanBody(ContextOf(e, |w.globals|, 0), BranchOutBytes).v)
  {
    BranchOutScanned(ContextOf(e, |w.globals|, 0));
    BranchOutSteps(e, w);
    BranchOutReturns(e, w);
  }

  lemma BranchOutSteps(e: Env, w: World)
    requires e.funcs == [BranchOutFunc()] && e.callStackSize >= 1 && e.labelPoolSize >= 1
    ensures Launch(e, 0, [], w).Next?
    ensures var s := Launch(e, 0, [], w).s;
            s.frames != [] && Step(e, s).Next? && Step(e, s).s.frames != [] && Step(e, Step(e, s).s) == Fault(RanOffEnd)
  {
    hide U;
    Zero();
    var code, fn := BranchOutBytes, BranchOutFunc();
    assert ImmAt(code, 1, [0x00]) by { assert HasBytes(code, 1, [0x00]); }
    ImmRead(code, 1, [0x00]);
    var l := Label(0x02, 0, 0, 0, 3);
    var r := Regs(0, [l], [], w);
    assert Launch(e, 0, [], w) == Next(State([Frame(0, 0, 0, [l])], [], 1, w));
    BranchOutExec(e, r);
  }

  lemma BranchOutExec(e: Env, r: Regs)
    requires r.ip == 0 && r.labels == [Label(0x02, 0, 0, 0, 3)] && r.stack == []
    ensures Exec(e, BranchOutFunc(), 0, r) == Go(Regs(3, [], [], r.world))
  {
    hide U, ReadU32;
    Zero();
    assert ImmAt(BranchOutBytes, 1, [0x00]) by { assert HasBytes(BranchOutBytes, 1, [0x00]); }
    ImmRead(BranchOutBytes, 1, [0x00]);
  }

  lemma BranchOutReturns(e: Env, w: World)
    requires e.funcs == [BranchOutFunc()]
    ensures Invoke(Program(e, [BranchOutBody]), Unbounded, 0, 0, [], w) == Results([], w)
  {
    hide U;
    Zero();
    var pr := Program(e, [BranchOutBody]);
    assert Eval(pr, 0, Unbounded, 0, BranchOutBody, [0], Store([], [], w)) == Branching(0, [], [], w);
    assert [] + Zeros(0) == [];
  }

  // ----- the first frame -----

  const PushBytes: seq<Byte> := [0x41, 0x00, 0x1A, 0x0B]
  const PushBody: Code := Plain(Const([0x00]), Plain(Drop, End))

  function PushFunc(): Func { Local(FuncType(0, 0), 0, PushBytes, 1, 1, []) }

  lemma PushEncoded()
    ensures Encodes(PushBytes, PushBody) && ImmAt(PushBytes, 1, [0x00])
  {
    hide U, S;
    Zero();
    assert HasBytes(PushBytes, 1, [0x00]);
    assert CodeAt(PushBytes, 3, End);
    assert CodeAt(PushBytes, 2, Plain(Drop, End));
  }

  lemma PushScanned(cx: Context)
    requires cx.results == 0
    ensures Encodes(PushBytes, PushBody) && Valid(cx, PushBody, [0], 0, 0) && ScanBody(cx, PushBytes).Ok?
    ensures TakesNumbersOf(PushFunc(), ScanBody(cx, PushBytes).v)
  {
    hide U, S, CodeAt, ScanBody;
    PushEncoded();
    Acceptance.StrictAccepted(cx, PushBytes, PushBody);
    PreScan.PreCounts(PushBytes, PushBody);
    PreScan.PassesAgree(cx, PushBytes, PushBody);
  }

  /** The tests that both ways of building a frame make, or that never fail for loaded functions. */
  predicate FrameStarts(e: Env, f: nat, stack: seq<Value>)
    requires f < |e.funcs| && e.funcs[f].Local?
  {
    var fn := e.funcs[f];
    && e.callStackSize >= 1 && fn.typ.params <= |stack| && |stack| + fn.localCount <= e.stackSize
    && 1 <= fn.maxLabels <= e.labelPoolSize
  }

  /** The operand depth of `f` does not fit above its locals. */
  predicate LacksRoom(e: Env, f: nat, stack: seq<Value>)
    requires f < |e.funcs| && e.funcs[f].Local?
  {
    |stack| - e.funcs[f].typ.params + TotalLocals(e.funcs[f]) + e.funcs[f].maxStack > e.stackSize
  }

  /** The first frame against a called one: it is started although a call would refuse it if and only if the operand depth
      does not fit and everything else does; with room both start the same frame. */
  lemma FirstFrameTest(e: Env, f: nat, stack: seq<Value>, w: World)
    requires f < |e.funcs| && e.funcs[f].Local?
    ensures Launch(e, f, stack, w).Next? && PushFrame(e, [], stack, 0, w, f).Trapped? <==> FrameStarts(e, f, stack) && LacksRoom(e, f, stack)
    ensures FrameStarts(e, f, stack) && LacksRoom(e, f, stack) ==> PushFrame(e, [], stack, 0, w, f) == StepResult.Trapped(StackOverflow)
    ensures FrameStarts(e, f, stack) && !LacksRoom(e, f, stack) ==> Launch(e, f, stack, w).Next? && PushFrame(e, [], stack, 0, w, f) == Launch(e, f, stack, w)
    ensures Launch(e, f, stack, w).Next? <==> FrameStarts(e, f, stack)
  {
  }

  /** A launched invocation of a loaded program is safe from overrunning in its first frame exactly as far as the missing test
      goes: started frames with room are the launchable ones. */
  lemma LaunchableIsRoom(im: Image, f: nat, stack: seq<Value>, w: World)
    requires Loaded(im) && IsLocal(im, f) && WorldFits(w, im.globals)
    ensures Launchable(im, f, stack, w) <==> Launch(im.pr.env, f, stack, w).Next? && !LacksRoom(im.pr.env, f, stack)
  {
    hide Loaded, Launch;
    RootMark(im, f);
    FirstFrameTest(im.pr.env, f, stack, w);
  }

  /** What comes of it: this accepted body needs one operand slot, starts on a stack without one and writes past it. */
  lemma FirstFrameNotTested(e: Env, w: World)
    requires e.funcs == [PushFunc()] && e.stackSize == 0 && e.callStackSize >= 1 && e.labelPoolSize >= 1
    ensures Launch(e, 0, [], w).Next? && Launch(e, 0, [], w).s.frames != [] && Step(e, Launch(e, 0, [], w).s) == Fault(StackOverrun)
    ensures PushFrame(e, [], [], 0, w, 0) == StepResult.Trapped(StackOverflow)
    ensures ScanBody(ContextOf(e, |w.globals|, 0), PushBytes).Ok?
    ensures TakesNumbersOf(e.funcs[0], ScanBody(ContextOf(e, |w.globals|, 0), PushBytes).v)
  {
    hide U, S, ReadS32, ScanBody, PushFrame;
    PushScanned(ContextOf(e, |w.globals|, 0));
    PushEncoded();
    FirstFrameTest(e, 0, [], w);
    OpDecoded(e, PushFunc(), 0, Const([0x00]), Regs(0, [Label(0x02, 0, 0, 0, 4)], [], w));
    assert Launch(e, 0, [], w) == Next(State([Frame(0, 0, 0, [Label(0x02, 0, 0, 0, 4)])], [], 1, w));
  }
}
