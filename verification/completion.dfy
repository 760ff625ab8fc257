// Whole invocations on the interpreter's own arrays: interrupted at every yield and re-entered, the code returns, or
// traps, exactly as the structured semantics says.
module Completion {
  import opened Leb128
  import opened Bytecode
  import opened Runtime
  import opened Structured
  import opened Validity
  import opened Bounded
  import opened Flat
  import opened ScanProof
  import opened Simulation
  import opened Execution
  import opened Interpreter
  import Loader
  import PreScan
  import Scan

  /** The uninterrupted run: a yield is passed over. */
  function RunAll(e: Env, s: State, n: nat): RunEnd
    decreases n
  {
    if s.frames == [] then Ended(s)
    else if n == 0 then Going
    else
      match Step(e, s)
      case Next(s') => RunAll(e, s', n - 1)
      case Yielded(s') => RunAll(e, s', n - 1)
      case Trapped(code) => Stopped(code)
      case Fault(_) => Broken
  }

  /** Stopping at the first yield and going on from the state left behind reaches what the uninterrupted run reaches. */
  lemma {:induction false} YieldIsTransparent(e: Env, s: State, n: nat)
    ensures RunAll(e, s, n) ==
            match RunUntil(e, s, n)
            case Suspended(s', left) => RunAll(e, s', left)
            case end => end
    decreases n
  {
    hide Step;
    if s.frames != [] && n > 0 {
      match Step(e, s)
      case Next(s') => YieldIsTransparent(e, s', n - 1);
      case _ =>
    }
  }

  lemma {:induction false} SuspendedLeft(e: Env, s: State, n: nat)
    ensures var end := RunUntil(e, s, n); end.Suspended? ==> end.left < n && end.s.frames != []
    decreases n
  {
    hide Step;
    if s.frames != [] && n > 0 {
      match Step(e, s)
      case Next(s') => SuspendedLeft(e, s', n - 1);
      case Yielded(_) => YieldKeepsFrame(e, s);
      case _ =>
    }
  }

  lemma YieldKeepsFrame(e: Env, s: State)
    requires s.frames != [] && Step(e, s).Yielded?
    ensures Step(e, s).s.frames != []
  {
    hide Exec;
  }

  lemma {:induction false} PathRuns(e: Env, s: State, n: nat, t: State, k: nat)
    requires Path(e, s, n, t)
    ensures RunAll(e, s, n + k) == RunAll(e, t, k)
    decreases n
  {
    hide Step;
    if n > 0 { PathRuns(e, Step(e, s).s, n - 1, t, k); }
  }

  /** The end of run that belongs to an outcome. */
  ghost predicate EndsAs(end: RunEnd, under: seq<Value>, out: CallOutcome)
  {
    match out
    case Results(vals, w) => end == Ended(FinalState(under, vals, w))
    case CallTraps(code) => end == Stopped(code)
    case _ => false
  }

  /** A structured outcome is reached after finitely many machine steps. */
  lemma OutcomeRuns(im: Image, f: nat, stack: seq<Value>, w: World, fuel: nat) returns (n: nat)
    requires Launchable(im, f, stack, w)
    requires var out := OutcomeOf(im, f, stack, w, fuel); out.Results? || out.CallTraps?
    ensures Launch(im.pr.env, f, stack, w).Next?
    ensures EndsAs(RunAll(im.pr.env, Launch(im.pr.env, f, stack, w).s, n), Under(stack, im.pr.env.funcs[f].typ.params),
                   OutcomeOf(im, f, stack, w, fuel))
  {
    hide Step, Launch, OutcomeOf, Loaded, Good, Runs;
    InvocationSimulated(im, f, stack, w, fuel);
    var e, s := im.pr.env, Launch(im.pr.env, f, stack, w).s;
    var out := OutcomeOf(im, f, stack, w, fuel);
    if out.Results? {
      var t := FinalState(Under(stack, e.funcs[f].typ.params), out.vals, out.world);
      var k: nat :| Runs(im, s, k, t);
      RunsIsPath(im, s, k, t);
      PathRuns(e, s, k, t, 0);
      n := k;
    } else {
      var t: State :| Reaches(im, s, t) && t.frames != [] && Step(e, t) == Trapped(out.code);
      var k: nat :| Runs(im, s, k, t);
      RunsIsPath(im, s, k, t);
      PathRuns(e, s, k, t, 1);
      n := k + 1;
    }
  }

  /** Re-enters the interpreter after every yield. */
  method RunThrough(ctx: ThreadContext, func: nat, ghost n: nat) returns (status: Status)
    requires ctx.Valid() && TablesSorted(ctx.env) && ctx.callStackTop == 0 && ctx.labelsPoolTop == 0
    requires ctx.Launched(func).Next? && Settled(RunAll(ctx.env, ctx.Launched(func).s, n))
    modifies ctx, ctx.stack, ctx.callStack, ctx.labelsPool
    ensures ctx.Valid() && ctx.Matches(old(RunAll(ctx.env, ctx.Launched(func).s, n)), status)
  {
    hide Step, RunAll, RunUntil, StrictlyIncreasing, Stacked, FramesOf;
    ghost var s := ctx.Launched(func).s;
    ghost var end, m := RunAll(ctx.env, s, n), n;
    YieldIsTransparent(ctx.env, s, n);
    SuspendedLeft(ctx.env, s, n);
    ghost var until := RunUntil(ctx.env, s, n);
    status := ctx.ExecuteInternal(func, n);
    while status == YieldedToHost
      invariant ctx.Valid() && ctx.Matches(until, status)
      invariant if until.Suspended? then until.left < m && until.s.frames != [] && end == RunAll(ctx.env, until.s, until.left) else end == until
      decreases m
    {
      m := until.left;
      s := until.s;
      YieldIsTransparent(ctx.env, s, m);
      SuspendedLeft(ctx.env, s, m);
      until := RunUntil(ctx.env, s, m);
      ResumesSettled(ctx.env, s, m);
      assert ctx.callStack[..0] == [];
      EmptyCallStack(ctx.env, ctx.labelsPool[..], ctx.labelsPoolTop);
      status := ctx.ExecuteInternal(func, m);
    }
  }

  predicate Settled(end: RunEnd) { end.Ended? || end.Stopped? }

  lemma ResumesSettled(e: Env, s: State, n: nat)
    requires Settled(RunAll(e, s, n))
    ensures Halts(RunUntil(e, s, n))
  {
    YieldIsTransparent(e, s, n);
  }

  /** Tables written by the loader can be searched. */
  lemma AcceptedTables(pr: Program, globals: nat)
    requires Loader.Accepted(pr, globals)
    ensures TablesSorted(pr.env)
  {
    hide StrictlyIncreasing, PreScan.PreBody, Scan.ScanBody, Encodes;
    forall f: nat | f < |pr.env.funcs| && pr.env.funcs[f].Local? ensures StrictlyIncreasing(pr.env.funcs[f].jumps) {
      assert Loader.BodyAccepted(pr, globals, f);
      PreScan.PassesAgree(ContextOf(pr.env, globals, f), pr.env.funcs[f].code, pr.bodies[f]);
      PreScan.PreCounts(pr.env.funcs[f].code, pr.bodies[f]);
      AcceptedNotTooDeep(ContextOf(pr.env, globals, f), pr.env.funcs[f].code, pr.bodies[f]);
    }
  }

  lemma AcceptedNotTooDeep(cx: Context, code: seq<Byte>, c: Code)
    requires Encodes(code, c) && Scan.ScanBody(cx, code).Ok?
    ensures PreScan.PreBody(code).Counted?
  {
    hide Encodes, Scan.ScanBody, PreScan.PreBody;
    PreScan.PassesAgree(cx, code, c);
  }

  /** The context is idle, holds the arguments of `func`, and its first frame fits. */
  ghost predicate Ready(ctx: ThreadContext, pr: Program, globals: nat, func: nat)
    reads ctx, ctx.callStack, ctx.stack
  {
    && ctx.Valid() && ctx.env == pr.env && ctx.callStackTop == 0 && ctx.labelsPoolTop == 0 && ctx.env.callStackSize >= 1
    && func < |pr.env.funcs| && pr.env.funcs[func].Local? && |ctx.world.globals| == globals
    && var fn := pr.env.funcs[func];
    && fn.typ.params <= ctx.stackTop && fn.maxLabels <= pr.env.labelPoolSize
    && ctx.stackTop - fn.typ.params + TotalLocals(fn) + fn.maxStack <= pr.env.stackSize
  }

  /** The structured meaning of the call that is about to be made. */
  ghost function Meaning(ctx: ThreadContext, pr: Program, globals: nat, func: nat, fuel: nat): CallOutcome
    reads ctx, ctx.callStack, ctx.stack
    requires Ready(ctx, pr, globals, func)
  {
    var stack, fn := ctx.stack[..ctx.stackTop], pr.env.funcs[func];
    Invoke(pr, FirstRoom(pr.env, fn, |stack|), fuel, func, Top(stack, fn.typ.params), ctx.world)
  }

  /** From accepted bytes to values on the stack: for valid, well-encoded bodies that the loader accepted, a call whose
      structured meaning is to return or trap makes the interpreter's code return those values on the caller's slots with
      all stacks given back, or trap with that code, whatever yields happen in between; and returned values are those of
      the unbounded specification. */
  method RunFunction(ctx: ThreadContext, func: nat, ghost pr: Program, ghost globals: nat, ghost fuel: nat) returns (status: Status)
    requires ProgramValid(pr, globals) && Loader.Accepted(pr, globals) && Ready(ctx, pr, globals, func)
    requires var out := Meaning(ctx, pr, globals, func, fuel); out.Results? || out.CallTraps?
    modifies ctx, ctx.stack, ctx.callStack, ctx.labelsPool
    ensures ctx.Valid()
    ensures match old(Meaning(ctx, pr, globals, func, fuel))
            case Results(vals, w) =>
              && status == Finished && ctx.callStackTop == 0 && ctx.labelsPoolTop == 0 && ctx.world == w
              && ctx.stack[..ctx.stackTop] == old(ctx.stack[..ctx.stackTop - pr.env.funcs[func].typ.params]) + vals
              && |vals| == pr.env.funcs[func].typ.results
              && old(Invoke(pr, Unbounded, fuel, func, ctx.stack[ctx.stackTop - pr.env.funcs[func].typ.params..ctx.stackTop], ctx.world)) == Results(vals, w)
            case CallTraps(code) => status == TrappedWith(code)
            case _ => false
  {
    hide Invoke, Launch, Loaded, RunAll, ProgramValid, Loader.Accepted, TablesSorted, Stacked, FramesOf;
    ghost var stack, w, fn := ctx.stack[..ctx.stackTop], ctx.world, pr.env.funcs[func];
    ghost var im := Loader.AcceptedIsLoaded(pr, globals);
    AcceptedTables(pr, globals);
    IsLaunchable(im, func, stack, w);
    ghost var n := OutcomeRuns(im, func, stack, w, fuel);
    InvokeAgrees(pr, FirstRoom(pr.env, fn, |stack|), fuel, func, Top(stack, fn.typ.params), w);
    assert Top(stack, fn.typ.params) == ctx.stack[ctx.stackTop - fn.typ.params..ctx.stackTop];
    assert Under(stack, fn.typ.params) == ctx.stack[..ctx.stackTop - fn.typ.params];
    InvokeSound(pr, Unbounded, fuel, func, Top(stack, fn.typ.params), w);
    status := RunThrough(ctx, func, n);
    EmptyFrames(ctx.env, ctx.callStack[..ctx.callStackTop], ctx.labelsPool[..], ctx.labelsPoolTop);
  }

  lemma IsLaunchable(im: Image, f: nat, stack: seq<Value>, w: World)
    requires Loaded(im) && f < |im.pr.env.funcs| && im.pr.env.funcs[f].Local? && |w.globals| == im.globals
    requires var e, fn := im.pr.env, im.pr.env.funcs[f];
             && fn.typ.params <= |stack| && e.callStackSize >= 1 && fn.maxLabels <= e.labelPoolSize
             && |stack| - fn.typ.params + TotalLocals(fn) + fn.maxStack <= e.stackSize
    ensures Launchable(im, f, stack, w)
  {
  }

  lemma EmptyFrames(e: Env, recs: seq<FrameRecord>, pool: seq<Label>, top: nat)
    requires Stacked(e, recs, top) && top <= |pool|
    ensures FramesOf(e, recs, pool, top) == [] ==> recs == []
  {
  }
}
