// Whole invocations: the first frame, the machine's run from it, and the exact correspondence between the two.
module Execution {
  import opened Bytecode
  import opened Runtime
  import opened Structured
  import opened Validity
  import opened Flat
  import opened Simulation
  import opened Bounded

  // ----- the first frame -----

  /** Starts local function `f` on a stack whose top slots are its arguments. No operand test is made here. */
  function Launch(e: Env, f: nat, stack: seq<Value>, w: World): StepResult
    requires f < |e.funcs| && e.funcs[f].Local?
  {
    var fn := e.funcs[f];
    if e.callStackSize < 1 then Fault(BadIndex)
    else if |stack| < fn.typ.params then StepResult.Trapped(RuntimeError)
    else
      var base := |stack| - fn.typ.params;
      if base + TotalLocals(fn) > e.stackSize then Fault(StackOverrun)
      else if fn.maxLabels > e.labelPoolSize then StepResult.Trapped(LabelStackOverflow)
      else if fn.maxLabels < 1 then Fault(LabelOverrun)
      else Next(State([FirstFrame(fn, f, base)], stack + Zeros(fn.localCount), fn.maxLabels, w))
  }

  /** What the caller of an invocation must provide: arguments, and a first frame that fits. */
  ghost predicate Launchable(im: Image, f: nat, stack: seq<Value>, w: World)
  {
    && Loaded(im) && IsLocal(im, f) && WorldFits(w, im.globals)
    && var e, fn := im.pr.env, im.pr.env.funcs[f];
    && fn.typ.params <= |stack| && e.callStackSize >= 1 && fn.maxLabels <= e.labelPoolSize
    && |stack| - fn.typ.params + TotalLocals(fn) + fn.maxStack <= e.stackSize
  }

  function FirstRoom(e: Env, fn: Func, height: nat): Room
  {
    Room(e.callStackSize, e.stackSize - (height - fn.typ.params), e.labelPoolSize)
  }

  /** The structured outcome of the invocation in the interpreter's stacks. */
  function OutcomeOf(im: Image, f: nat, stack: seq<Value>, w: World, fuel: nat): CallOutcome
    requires f < |im.pr.env.funcs| && im.pr.env.funcs[f].typ.params <= |stack|
  {
    var fn := im.pr.env.funcs[f];
    Invoke(im.pr, FirstRoom(im.pr.env, fn, |stack|), fuel, f, Top(stack, fn.typ.params), w)
  }

  function FinalState(under: seq<Value>, vals: seq<Value>, w: World): State { State([], under + vals, 0, w) }

  /** The machine, started in `s`, does what the invocation's outcome says. */
  ghost predicate CallSimulated(im: Image, s: State, under: seq<Value>, fuel: nat, out: CallOutcome)
  {
    match out
    case Results(vals, w) => Reaches(im, s, FinalState(under, vals, w))
    case CallTraps(code) => StopsWith(im, s, StepResult.Trapped(code))
    case CallBreaches(b) => StopsWith(im, s, Fault(BreachFault(b)))
    case CallStuck => false
    case CallOutOfFuel => RunsFor(im, s, fuel)
  }

  function FirstSpot(e: Env, fn: Func, f: nat, stack: seq<Value>): Spot
    requires fn.Local? && fn.typ.params <= |stack|
  {
    var under := Under(stack, fn.typ.params);
    Spot([], f, under, [], [Label(0x02, |under|, 0, fn.typ.results, |fn.code|)], fn.maxLabels,
         CalleeRoom(FirstRoom(e, fn, |stack|), fn))
  }

  lemma LaunchState(im: Image, f: nat, stack: seq<Value>, w: World)
    requires Launchable(im, f, stack, w)
    ensures var e, fn := im.pr.env, im.pr.env.funcs[f];
            Launch(e, f, stack, w) ==
            Next(StateAt(FirstSpot(e, fn, f, stack), 0, Store(Top(stack, fn.typ.params) + Zeros(fn.localCount), [], w)))
  {
    hide Zeros, ProgramValid;
    var e, fn := im.pr.env, im.pr.env.funcs[f];
    RootMark(im, f);
    hide Loaded;
    var sp, z := FirstSpot(e, fn, f, stack), Zeros(fn.localCount);
    assert Under(stack, fn.typ.params) + (Top(stack, fn.typ.params) + z) + [] + [] == stack + z;
  }

  lemma FirstReady(im: Image, f: nat, stack: seq<Value>, w: World)
    requires Launchable(im, f, stack, w)
    ensures var e, fn := im.pr.env, im.pr.env.funcs[f];
            var sp, st := FirstSpot(e, fn, f, stack), Store(Top(stack, fn.typ.params) + Zeros(fn.localCount), [], w);
            && Ready(im, ContextOf(e, im.globals, f), sp, im.pr.bodies[f], 0, fn.typ.results, st)
            && Arities(sp.labels) == [fn.typ.results]
  {
    hide CodeAt, Valid, HostFits;
    var e, fn := im.pr.env, im.pr.env.funcs[f];
    assert BodyLoaded(im, f) && BodyValid(im.pr, im.globals, f);
    var sp := FirstSpot(e, fn, f, stack);
    assert Arities(sp.labels) == [fn.typ.results];
    assert Owned(e, []) == 0;
    assert SpotOk(im, ContextOf(e, im.globals, f), sp);
    assert LaidAt(im, ContextOf(e, im.globals, f), sp, im.pr.bodies[f], 0, 0);
    var st := Store(Top(stack, fn.typ.params) + Zeros(fn.localCount), [], w);
    assert StoreFits(ContextOf(e, im.globals, f), st, |st.ops|);
    assert CodeAt(fn.code, 0, im.pr.bodies[f]);
    assert Valid(ContextOf(e, im.globals, f), im.pr.bodies[f], Arities(sp.labels), fn.typ.results, |st.ops|);
  }

  /** An invocation is simulated from its first frame to the empty call stack. */
  lemma InvocationSimulated(im: Image, f: nat, stack: seq<Value>, w: World, fuel: nat)
    requires Launchable(im, f, stack, w)
    ensures Launch(im.pr.env, f, stack, w).Next?
    ensures CallSimulated(im, Launch(im.pr.env, f, stack, w).s, Under(stack, im.pr.env.funcs[f].typ.params), fuel,
                          OutcomeOf(im, f, stack, w, fuel))
  {
    hide CodeAt, Valid, HostFits, Laid, Eval, Simulates, CallSimulated, StackOf, SpotOk, Launch, StateAt, OutcomeOf, FinishCall;
    var e, fn := im.pr.env, im.pr.env.funcs[f];
    var sp, st := FirstSpot(e, fn, f, stack), Store(Top(stack, fn.typ.params) + Zeros(fn.localCount), [], w);
    var cx := ContextOf(e, im.globals, f);
    FirstReady(im, f, stack, w);
    LaunchState(im, f, stack, w);
    Sim(im, cx, sp, fuel, im.pr.bodies[f], 0, fn.typ.results, st);
    EvalSound(im.pr, cx, sp.room, fuel, im.pr.bodies[f], [fn.typ.results], fn.typ.results, st);
    var out := Eval(im.pr, fn.typ.results, sp.room, fuel, im.pr.bodies[f], [fn.typ.results], st);
    FirstFinish(im, f, stack, StateAt(sp, 0, st), fuel, out);
    FirstOutcome(im, f, stack, w, fuel);
  }

  /** The first frame passes all tests of a call. */
  lemma FirstOutcome(im: Image, f: nat, stack: seq<Value>, w: World, fuel: nat)
    requires Launchable(im, f, stack, w)
    ensures var e, fn := im.pr.env, im.pr.env.funcs[f];
            OutcomeOf(im, f, stack, w, fuel) ==
            FinishCall(FirstRoom(e, fn, |stack|),
                       Eval(im.pr, fn.typ.results, FirstSpot(e, fn, f, stack).room, fuel, im.pr.bodies[f], [fn.typ.results],
                            Store(Top(stack, fn.typ.params) + Zeros(fn.localCount), [], w)))
  {
    hide Eval, Loaded, FinishCall, CalleeRoom;
    var e, fn := im.pr.env, im.pr.env.funcs[f];
    var room, args := FirstRoom(e, fn, |stack|), Top(stack, fn.typ.params);
    assert |args| == fn.typ.params && room.frames >= 1 && TotalLocals(fn) + fn.maxStack <= room.slots;
    assert Invoke(im.pr, room, fuel, f, args, w) == InvokeBody(im.pr, room, fuel, f, args, w);
  }

  lemma FirstFinish(im: Image, f: nat, stack: seq<Value>, s: State, fuel: nat, out: Outcome)
    requires Loaded(im) && IsLocal(im, f) && im.pr.env.funcs[f].typ.params <= |stack|
    requires var fn := im.pr.env.funcs[f];
             && Simulates(im, s, FirstSpot(im.pr.env, fn, f, stack), Size(im.pr.bodies[f]), fuel, out)
             && OutcomeFits(ContextOf(im.pr.env, im.globals, f), [fn.typ.results], fn.typ.results, out)
    ensures CallSimulated(im, s, Under(stack, im.pr.env.funcs[f].typ.params), fuel,
                          FinishCall(FirstRoom(im.pr.env, im.pr.env.funcs[f], |stack|), out))
  {
    hide CodeAt, Laid, Good, Reaches, Progresses, StopsWith, RunsFor, StackOf, Step, Valid, HostFits;
    var fn := im.pr.env.funcs[f];
    var sp := FirstSpot(im.pr.env, fn, f, stack);
    assert BodyLoaded(im, f);
    match out
    case Normal(st) =>
      var q := Size(im.pr.bodies[f]);
      FirstEnds(im, f, stack, st);
      StepsTo(im, StateAt(sp, q, st), FinalState(sp.under, st.ops, st.world));
      ReachesTrans(im, s, StateAt(sp, q, st), FinalState(sp.under, st.ops, st.world));
    case Branching(d, vals, bl, w) =>
      var t := JumpState(sp, 0, vals, bl, w);
      OffTheEnd(im, sp, f, vals, bl, w);
      ProgressReaches(im, s, t);
      StopsHere(im, t);
      StopsTrans(im, s, t, Fault(RanOffEnd));
    case Returning(vals, w) => assert ReturnState(sp, fn.maxLabels, vals, w) == FinalState(sp.under, vals, w);
    case _ =>
  }

  lemma FirstEnds(im: Image, f: nat, stack: seq<Value>, st: Store)
    requires IsLocal(im, f) && im.pr.env.funcs[f].typ.params <= |stack| && im.pr.env.funcs[f].typ.results == |st.ops|
    requires Encodes(im.pr.env.funcs[f].code, im.pr.bodies[f])
    ensures var sp := FirstSpot(im.pr.env, im.pr.env.funcs[f], f, stack);
            Step(im.pr.env, StateAt(sp, Size(im.pr.bodies[f]), st)) == Next(FinalState(sp.under, st.ops, st.world))
  {
    hide StackOf, CodeAt, Step;
    LastEnd(im, FirstSpot(im.pr.env, im.pr.env.funcs[f], f, stack), Size(im.pr.bodies[f]), st);
  }

  // ----- the converse: what the machine does, the structured run does -----

  predicate Advances(r: StepResult) { r.Next? || r.Yielded? }

  /** `n` machine steps, whatever the states in between. */
  predicate Path(e: Env, s: State, n: nat, t: State)
    decreases n
  {
    if n == 0 then s == t
    else s.frames != [] && Advances(Step(e, s)) && Path(e, Step(e, s).s, n - 1, t)
  }

  /** No step leads on from `t`. */
  predicate Final(e: Env, t: State) { t.frames == [] || !Advances(Step(e, t)) }

  lemma {:induction false} RunsIsPath(im: Image, s: State, n: nat, t: State)
    requires Runs(im, s, n, t)
    ensures Path(im.pr.env, s, n, t)
    decreases n
  {
    hide Step;
    if n > 0 { RunsIsPath(im, Step(im.pr.env, s).s, n - 1, t); }
  }

  /** The machine is deterministic: two paths from one state overlap. */
  lemma {:induction false} PathsMeet(e: Env, s: State, n: nat, t: State, m: nat, u: State)
    requires Path(e, s, n, t) && Path(e, s, m, u)
    ensures Final(e, t) ==> m <= n
    ensures m == n ==> t == u
    decreases n
  {
    hide Step;
    if n > 0 && m > 0 { PathsMeet(e, Step(e, s).s, n - 1, t, m - 1, u); }
  }

  /** States passed by a run before its last are good. */
  lemma {:induction false} RunPassesGood(im: Image, s: State, n: nat, t: State, m: nat, u: State)
    requires Runs(im, s, n, t) && Path(im.pr.env, s, m, u) && m < n
    ensures Good(im, u)
    decreases m
  {
    hide Step;
    if m > 0 { RunPassesGood(im, Step(im.pr.env, s).s, n - 1, t, m - 1, u); }
  }

  /** A state reached by the machine in `n` steps. */
  ghost predicate Reached(im: Image, f: nat, stack: seq<Value>, w: World, n: nat, t: State)
    requires Launchable(im, f, stack, w)
  {
    Launch(im.pr.env, f, stack, w).Next? && Path(im.pr.env, Launch(im.pr.env, f, stack, w).s, n, t)
  }

  /** The structured run whose fuel exceeds the length of a finished machine run is finished too, and at the same point. */
  lemma EndOfRun(im: Image, f: nat, stack: seq<Value>, w: World, n: nat, t: State) returns (k: nat, u: State)
    requires Launchable(im, f, stack, w) && Reached(im, f, stack, w, n, t)
    ensures var s, out := Launch(im.pr.env, f, stack, w).s, OutcomeOf(im, f, stack, w, n + 1);
            && Runs(im, s, k, u) && (out.CallOutOfFuel? ==> k > n)
            && match out
               case Results(vals, w') => u == FinalState(Under(stack, im.pr.env.funcs[f].typ.params), vals, w')
               case CallTraps(code) => u.frames != [] && Step(im.pr.env, u) == StepResult.Trapped(code) && Good(im, u)
               case CallBreaches(b) => u.frames != [] && Step(im.pr.env, u) == Fault(BreachFault(b))
               case CallStuck => false
               case CallOutOfFuel => true
  {
    hide Runs, Good, Step, Launch, OutcomeOf, Loaded;
    InvocationSimulated(im, f, stack, w, n + 1);
    var s, out := Launch(im.pr.env, f, stack, w).s, OutcomeOf(im, f, stack, w, n + 1);
    match out
    case Results(vals, w') =>
      u := FinalState(Under(stack, im.pr.env.funcs[f].typ.params), vals, w');
      k :| Runs(im, s, k, u);
    case CallTraps(code) =>
      u :| Reaches(im, s, u) && u.frames != [] && Step(im.pr.env, u) == StepResult.Trapped(code) && Good(im, u);
      k :| Runs(im, s, k, u);
    case CallBreaches(b) =>
      u :| Reaches(im, s, u) && u.frames != [] && Step(im.pr.env, u) == Fault(BreachFault(b));
      k :| Runs(im, s, k, u);
    case CallOutOfFuel => k, u :| k >= n + 1 && Runs(im, s, k, u);
  }

  /** Safety of every reachable state: as long as the machine can go on, or when it traps, the running frame's operand
      height and label depth are the scan's at that offset, and no stack exceeds its buffer. */
  lemma ReachableStatesAreGood(im: Image, f: nat, stack: seq<Value>, w: World, n: nat, t: State)
    requires Launchable(im, f, stack, w) && Reached(im, f, stack, w, n, t)
    requires t.frames != [] && !Step(im.pr.env, t).Fault?
    ensures Good(im, t)
  {
    hide Runs, Good, Step, Launch, OutcomeOf, Loaded;
    var k, u := EndOfRun(im, f, stack, w, n, t);
    var e, s := im.pr.env, Launch(im.pr.env, f, stack, w).s;
    RunsIsPath(im, s, k, u);
    if n < k {
      RunPassesGood(im, s, k, u, n, t);
    } else {
      PathsMeet(e, s, k, u, n, t);
    }
  }

  /** The machine's end is the structured end: it returns, traps or leaves a buffer exactly when the structured run does,
      with the same values, code or cause. */
  lemma MachineEndsAsStructured(im: Image, f: nat, stack: seq<Value>, w: World, n: nat, t: State)
    requires Launchable(im, f, stack, w) && Reached(im, f, stack, w, n, t) && Final(im.pr.env, t)
    ensures match OutcomeOf(im, f, stack, w, n + 1)
            case Results(vals, w') => t == FinalState(Under(stack, im.pr.env.funcs[f].typ.params), vals, w')
            case CallTraps(code) => t.frames != [] && Step(im.pr.env, t) == StepResult.Trapped(code)
            case CallBreaches(b) => t.frames != [] && Step(im.pr.env, t) == Fault(BreachFault(b))
            case _ => false
  {
    hide Runs, Good, Step, Launch, OutcomeOf, Loaded;
    var k, u := EndOfRun(im, f, stack, w, n, t);
    var e, s := im.pr.env, Launch(im.pr.env, f, stack, w).s;
    RunsIsPath(im, s, k, u);
    PathsMeet(e, s, n, t, k, u);
    PathsMeet(e, s, k, u, n, t);
  }

  /** Results of the machine are results of the specification: the whole chain from bytes to structured semantics. */
  lemma MachineRefinesSpecification(im: Image, f: nat, stack: seq<Value>, w: World, n: nat, t: State)
    requires Launchable(im, f, stack, w) && Reached(im, f, stack, w, n, t) && t.frames == []
    ensures var params := im.pr.env.funcs[f].typ.params;
            var spec := Invoke(im.pr, Unbounded, n + 1, f, Top(stack, params), w);
            spec.Results? && |spec.vals| == im.pr.env.funcs[f].typ.results && t == FinalState(Under(stack, params), spec.vals, spec.world)
  {
    hide Runs, Good, Step, Launch, Invoke, Loaded;
    var fn := im.pr.env.funcs[f];
    MachineEndsAsStructured(im, f, stack, w, n, t);
    InvokeAgrees(im.pr, FirstRoom(im.pr.env, fn, |stack|), n + 1, f, Top(stack, fn.typ.params), w);
    assert ProgramValid(im.pr, im.globals) by { LoadedValid(im); }
    InvokeSound(im.pr, Unbounded, n + 1, f, Top(stack, fn.typ.params), w);
  }

  lemma LoadedValid(im: Image)
    requires Loaded(im)
    ensures ProgramValid(im.pr, im.globals)
  {
  }
}
