// The interpreter's code: a thread context of three arrays and their tops, mutated in place, and the dispatch loop with
// its cached registers. Every method is proved against the transition system of `Flat`.
module Interpreter {
  import opened Leb128
  import opened Bytecode
  import opened Runtime
  import opened Flat
  import opened ScanProof
  import opened Execution
  import Loader

  /** A frame on the call stack: `labelsAt` is where its slice of the label pool starts. */
  datatype FrameRecord = FrameRecord(func: nat, ip: nat, base: nat, totalLocals: nat, labelsAt: nat, labelCapacity: nat, labelTop: nat)

  datatype Status = Finished | YieldedToHost | TrappedWith(code: TrapCode)

  /** How the inner loop goes on after one opcode. */
  datatype Signal = Continue | FrameChanged | Done(status: Status)

  // ----- the arrays as the specification sees them -----

  /** Frames own consecutive slices of the label pool, ending at `top`. */
  predicate Stacked(e: Env, recs: seq<FrameRecord>, top: nat)
  {
    recs == [] ||
    (var f := recs[|recs| - 1];
     && f.func < |e.funcs| && e.funcs[f.func].Local? && f.labelCapacity == e.funcs[f.func].maxLabels
     && f.labelsAt + f.labelCapacity == top && f.labelTop <= f.labelCapacity
     && Stacked(e, recs[..|recs| - 1], f.labelsAt))
  }

  function FramesOf(e: Env, recs: seq<FrameRecord>, pool: seq<Label>, top: nat): seq<Frame>
    requires Stacked(e, recs, top) && top <= |pool|
  {
    if recs == [] then []
    else
      var f := recs[|recs| - 1];
      FramesOf(e, recs[..|recs| - 1], pool, f.labelsAt) + [Frame(f.func, f.ip, f.base, pool[f.labelsAt..f.labelsAt + f.labelTop])]
  }

  /** Label slots at or above `top` do not matter. */
  lemma {:induction false} FramesKept(e: Env, recs: seq<FrameRecord>, pool: seq<Label>, pool': seq<Label>, top: nat)
    requires Stacked(e, recs, top) && top <= |pool| == |pool'| && pool[..top] == pool'[..top]
    ensures FramesOf(e, recs, pool, top) == FramesOf(e, recs, pool', top)
    decreases |recs|
  {
    if recs != [] {
      var f := recs[|recs| - 1];
      assert pool[..f.labelsAt] == pool[..top][..f.labelsAt] == pool'[..top][..f.labelsAt] == pool'[..f.labelsAt];
      FramesKept(e, recs[..|recs| - 1], pool, pool', f.labelsAt);
      assert pool[f.labelsAt..f.labelsAt + f.labelTop] == pool[..top][f.labelsAt..f.labelsAt + f.labelTop]
          == pool'[..top][f.labelsAt..f.labelsAt + f.labelTop] == pool'[f.labelsAt..f.labelsAt + f.labelTop];
    }
  }

  lemma StackedSnoc(e: Env, recs: seq<FrameRecord>, f: FrameRecord, pool: seq<Label>)
    requires Stacked(e, recs, f.labelsAt) && f.func < |e.funcs| && e.funcs[f.func].Local?
    requires f.labelCapacity == e.funcs[f.func].maxLabels && f.labelTop <= f.labelCapacity
    requires f.labelsAt + f.labelCapacity <= |pool|
    ensures Stacked(e, recs + [f], f.labelsAt + f.labelCapacity)
    ensures FramesOf(e, recs + [f], pool, f.labelsAt + f.labelCapacity) ==
            FramesOf(e, recs, pool, f.labelsAt) + [Frame(f.func, f.ip, f.base, pool[f.labelsAt..f.labelsAt + f.labelTop])]
  {
    assert (recs + [f])[..|recs|] == recs;
  }

  /** Jump tables the binary search may be used on. */
  predicate TablesSorted(e: Env)
  {
    forall f: nat :: f < |e.funcs| && e.funcs[f].Local? ==> StrictlyIncreasing(e.funcs[f].jumps)
  }

  // ----- runs up to the next yield -----

  datatype RunEnd = Ended(s: State) | Suspended(s: State, left: nat) | Stopped(code: TrapCode) | Broken | Going

  /** Where the machine is after at most `n` steps, or at its first yield. */
  function RunUntil(e: Env, s: State, n: nat): RunEnd
    decreases n
  {
    if s.frames == [] then Ended(s)
    else if n == 0 then Going
    else
      match Step(e, s)
      case Next(s') => RunUntil(e, s', n - 1)
      case Yielded(s') => Suspended(s', n - 1)
      case Trapped(code) => Stopped(code)
      case Fault(_) => Broken
  }

  /** Copies `arity` slots from `src` down to `dst`. */
  method StackUnwind(stack: array<Value>, dst: nat, src: nat, arity: nat)
    requires dst <= src && src + arity <= stack.Length
    modifies stack
    ensures stack[..dst + arity] == old(stack[..dst]) + old(stack[src..src + arity])
  {
    ghost var before := stack[..];
    if arity == 1 {
      stack[dst] := stack[src];
    } else {
      for i := 0 to arity
        invariant forall k :: 0 <= k < dst ==> stack[k] == before[k]
        invariant forall k :: dst <= k < dst + i ==> stack[k] == before[k + (src - dst)]
        invariant forall k :: dst + i <= k < stack.Length ==> stack[k] == before[k]
      {
        stack[dst + i] := stack[src + i];
      }
    }
    assert stack[..dst + arity] == before[..dst] + before[src..src + arity];
  }

  class ThreadContext {
    const env: Env
    const stack: array<Value>
    const callStack: array<FrameRecord>
    const labelsPool: array<Label>
    var stackTop: nat
    var callStackTop: nat
    var labelsPoolTop: nat
    var world: World

    // registers of the dispatch loop, written back when the frame changes or the host yields
    var ip: nat
    var sp: nat
    var labelTop: nat

    ghost predicate Valid()
      reads this, callStack
    {
      && stack.Length == env.stackSize && callStack.Length == env.callStackSize && labelsPool.Length == env.labelPoolSize
      && stackTop <= stack.Length && callStackTop <= callStack.Length && labelsPoolTop <= labelsPool.Length
      && Stacked(env, callStack[..callStackTop], labelsPoolTop)
    }

    /** The state as written back. */
    ghost function Abs(): State
      reads this, stack, callStack, labelsPool
      requires Valid()
    {
      State(FramesOf(env, callStack[..callStackTop], labelsPool[..], labelsPoolTop), stack[..stackTop], labelsPoolTop, world)
    }

    ghost predicate Running()
      reads this, callStack
    {
      && Valid() && callStackTop > 0 && sp <= stack.Length
      && labelTop <= callStack[callStackTop - 1].labelCapacity
      && Here()
    }

    /** The running frame, as `Stacked` describes it. */
    ghost predicate Here()
      reads this, callStack
      requires Valid() && callStackTop > 0
    {
      var f := callStack[callStackTop - 1];
      && f.func < |env.funcs| && env.funcs[f.func].Local? && f.labelCapacity == env.funcs[f.func].maxLabels
      && f.labelsAt + f.labelCapacity == labelsPoolTop
      && Stacked(env, callStack[..callStackTop - 1], f.labelsAt)
    }

    ghost function Callers(): seq<Frame>
      reads this, callStack, labelsPool
      requires Running()
    {
      FramesOf(env, callStack[..callStackTop - 1], labelsPool[..], callStack[callStackTop - 1].labelsAt)
    }

    ghost function Labels(): seq<Label>
      reads this, callStack, labelsPool
      requires Running()
    {
      var at := callStack[callStackTop - 1].labelsAt;
      labelsPool[at..at + labelTop]
    }

    ghost function R(): Regs
      reads this, stack, callStack, labelsPool
      requires Running()
    {
      Regs(ip, Labels(), stack[..sp], world)
    }

    function Fn(): Func
      reads this, callStack
      requires Running()
    {
      env.funcs[callStack[callStackTop - 1].func]
    }

    function Base(): nat
      reads this, callStack
      requires Running()
    {
      callStack[callStackTop - 1].base
    }

    /** The state with the registers in place of the frame's saved values. */
    ghost function Live(): State
      reads this, stack, callStack, labelsPool
      requires Running()
    {
      State(Callers() + [Frame(callStack[callStackTop - 1].func, ip, Base(), Labels())], stack[..sp], labelsPoolTop, world)
    }

    // ----- immediates -----

    method NextU32() returns (v: nat)
      requires Running() && ReadU32(Fn().code, ip).Decoded?
      modifies this`ip
      ensures Running() && Callers() == old(Callers()) && Decoded(v, ip) == old(ReadU32(Fn().code, ip))
      ensures R() == old(R()).(ip := ip)
    {
      hide U32At, Taken;
      v, ip := DecodeVarUint32Fast(Fn().code, ip);
    }

    method NextS32() returns (v: int)
      requires Running() && ReadS32(Fn().code, ip).Decoded?
      modifies this`ip
      ensures Running() && Callers() == old(Callers()) && Decoded(v, ip) == old(ReadS32(Fn().code, ip))
      ensures R() == old(R()).(ip := ip)
    {
      hide S32At, Taken;
      v, ip := DecodeVarInt32Fast(Fn().code, ip);
    }

    // ----- instructions without control flow -----

    method Variable(op: Byte, i: nat)
      requires Running() && HasIndex(op) && DoOp(env, Base(), op, i, R()).Go?
      modifies this`sp, this`world, stack
      ensures Running() && Callers() == old(Callers()) && R() == old(DoOp(env, Base(), op, i, R())).r
    {
      hide Stacked, FramesOf;
      var locals := Base();
      if op == 0x20 {
        stack[sp] := stack[locals + i];
        sp := sp + 1;
      } else if op == 0x21 {
        sp := sp - 1;
        stack[locals + i] := stack[sp];
      } else if op == 0x22 {
        stack[locals + i] := stack[sp - 1];
      } else if op == 0x23 {
        stack[sp] := world.globals[i];
        sp := sp + 1;
      } else {
        sp := sp - 1;
        world := world.(globals := world.globals[i := stack[sp]]);
      }
    }

    method Const(v: Value)
      requires Running() && DoOp(env, Base(), 0x41, v, R()).Go?
      modifies this`sp, stack
      ensures Running() && Callers() == old(Callers()) && R() == old(DoOp(env, Base(), 0x41, v, R())).r
    {
      hide Stacked, FramesOf;
      stack[sp] := v;
      sp := sp + 1;
    }

    /** nop, drop, select, i32.eqz and the binary operators. */
    method Operator(op: Byte) returns (sig: Signal)
      requires Running() && IsPlain(op) && !HasIndex(op) && op != 0x41 && !DoOp(env, Base(), op, 0, R()).Crash?
      modifies this`sp, stack
      ensures Running() && Callers() == old(Callers())
      ensures match old(DoOp(env, Base(), op, 0, R()))
              case Go(r) => sig == Continue && R() == r
              case Raise(code) => sig == Done(TrappedWith(code))
              case _ => false
    {
      hide Stacked, FramesOf, BinaryOp;
      sig := Continue;
      if op == 0x1A {
        sp := sp - 1;
      } else if op == 0x1B {
        var cond, val2, val1 := stack[sp - 1], stack[sp - 2], stack[sp - 3];
        sp := sp - 3;
        stack[sp] := if cond != 0 then val1 else val2;
        sp := sp + 1;
      } else if op == 0x45 {
        stack[sp - 1] := Truth(stack[sp - 1] == 0);
      } else if op != 0x01 {
        match BinaryOp(op, stack[sp - 2], stack[sp - 1])
        case Val(v) =>
          sp := sp - 1;
          stack[sp - 1] := v;
        case Traps(code) => sig := Done(TrappedWith(code));
      }
    }

    method Plain(op: Byte) returns (sig: Signal)
      requires Running() && IsPlain(op) && !DoPlain(env, Fn(), Base(), op, R()).Crash?
      modifies this`ip, this`sp, this`world, stack
      ensures Running() && Callers() == old(Callers())
      ensures match old(DoPlain(env, Fn(), Base(), op, R()))
              case Go(r) => sig == Continue && R() == r
              case Raise(code) => sig == Done(TrappedWith(code))
              case _ => false
    {
      hide Stacked, FramesOf, BinaryOp, ReadU32, ReadS32;
      if HasIndex(op) {
        VariableGoes(env, Base(), op, ReadU32(Fn().code, ip), R());
        var i := NextU32();
        Variable(op, i);
        sig := Continue;
      } else if op == 0x41 {
        ConstGoes(env, Base(), ReadS32(Fn().code, ip), R());
        var v := NextS32();
        Const(v);
        sig := Continue;
      } else {
        sig := Operator(op);
      }
    }

    // ----- labels -----

    method PushLabel(l: Label)
      requires Running() && labelTop < Fn().maxLabels
      modifies this`labelTop, labelsPool
      ensures Running() && Callers() == old(Callers()) && R() == old(R()).(labels := old(R()).labels + [l])
    {
      hide Stacked, FramesOf;
      var at := callStack[callStackTop - 1].labelsAt;
      ghost var before := labelsPool[..];
      labelsPool[at + labelTop] := l;
      labelTop := labelTop + 1;
      FramesKept(env, callStack[..callStackTop - 1], before, labelsPool[..], at);
    }

    method BlockOrLoop(op: Byte)
      requires Running() && TablesSorted(env) && (op == 0x02 || op == 0x03) && DoBlock(env, Fn(), op, R()).Go?
      modifies this`ip, this`labelTop, labelsPool
      ensures Running() && Callers() == old(Callers()) && R() == old(DoBlock(env, Fn(), op, R())).r
    {
      hide Stacked, FramesOf, ReadS32, Lookup, BlockArity, StrictlyIncreasing;
      var blockType := NextS32();
      var t := BlockArity(env.types, blockType);
      var pc := ip;
      if op == 0x02 {
        var e := Loader.FindBlockJump(Fn().jumps, ip);
        pc := match e case Entry(j) => j.end case Missing => |Fn().code|;
      }
      PushLabel(Label(op, sp - t.params, t.params, t.results, pc));
    }

    method PopCondition() returns (cond: Value)
      requires Running() && sp > 0
      modifies this`sp
      ensures Running() && Callers() == old(Callers())
      ensures R() == old(R()).(stack := old(R().stack)[..old(sp) - 1]) && cond == old(R().stack)[old(sp) - 1]
    {
      hide Stacked, FramesOf;
      ghost var r := R();
      sp := sp - 1;
      cond := stack[sp];
      assert stack[..sp] == r.stack[..sp];
    }

    /** The offsets past the `end` and the `else` of the `if` whose body starts at `ip`. */
    method JumpTargets() returns (end: nat, els: nat)
      requires Running() && TablesSorted(env)
      ensures var found := Lookup(Fn().jumps, ip);
              && end == (match found case Entry(j) => j.end case Missing => |Fn().code|)
              && els == (match found case Entry(j) => j.els case Missing => 0)
    {
      hide Stacked, FramesOf, Lookup, StrictlyIncreasing;
      var e := Loader.FindBlockJump(Fn().jumps, ip);
      end, els := |Fn().code|, 0;
      match e {
        case Entry(j) => end, els := j.end, j.els;
        case Missing =>
      }
    }

    method If()
      requires Running() && TablesSorted(env) && DoIf(env, Fn(), R()).Go?
      modifies this`ip, this`sp, this`labelTop, labelsPool
      ensures Running() && Callers() == old(Callers()) && R() == old(DoIf(env, Fn(), R())).r
    {
      hide Stacked, FramesOf, ReadS32, Available, Taken, Lookup, BlockArity, TablesSorted, DoIf, Here, R, Callers, Labels;
      Registers();
      IfResult(env, Fn(), R());
      var blockType := NextS32();
      var t := BlockArity(env.types, blockType);
      var cond := PopCondition();
      var end, els := JumpTargets();
      Registers();
      ghost var labels := R().labels;
      PushLabel(Label(0x04, sp, 0, t.results, end));
      if cond == 0 {
        Registers();
        GoTo(if els != 0 then els else end);
        if els == 0 {
          DropLabels(1);
          assert R().labels == labels;
        }
      }
    }

    method GoTo(pc: nat)
      requires Running()
      modifies this`ip
      ensures Running() && Callers() == old(Callers()) && R() == old(R()).(ip := pc)
    {
      hide Stacked, FramesOf;
      ip := pc;
    }

    /** The registers one by one. */
    lemma Registers()
      requires Running()
      ensures R() == Regs(ip, Labels(), stack[..sp], world) && |Labels()| == labelTop && Fn().Local?
    {
      hide Stacked, FramesOf;
    }

    method Else() returns (sig: Signal)
      requires Running()
      modifies this`ip, this`labelTop
      ensures Running() && Callers() == old(Callers())
      ensures match old(DoElse(R()))
              case Go(r) => sig == Continue && R() == r
              case Raise(code) => sig == Done(TrappedWith(code))
              case _ => false
    {
      hide Stacked, FramesOf;
      if labelTop == 0 { return Done(TrappedWith(RuntimeError)); }
      sig := Continue;
      ip := labelsPool[callStack[callStackTop - 1].labelsAt + labelTop - 1].pc;
      labelTop := labelTop - 1;
    }

    /** Unwinds to the label `l` carrying `arity` values. */
    method Cut(l: Label, arity: nat)
      requires Running() && l.stackTop + arity <= sp
      modifies this`sp, stack
      ensures Running() && Callers() == old(Callers())
      ensures R() == old(R()).(stack := Unwind(old(R()).stack, l.stackTop, arity))
    {
      hide Stacked, FramesOf;
      var src := sp - arity;
      sp := l.stackTop;
      if arity > 0 { StackUnwind(stack, sp, src, arity); }
      sp := sp + arity;
    }

    method LabelAt(depth: nat) returns (l: Label)
      requires Running() && depth < labelTop
      ensures l == Labels()[labelTop - 1 - depth]
    {
      hide Stacked, FramesOf;
      l := labelsPool[callStack[callStackTop - 1].labelsAt + labelTop - 1 - depth];
    }

    /** A taken branch. */
    method Branch(depth: nat)
      requires Running() && DoBranch(R(), depth).Go?
      modifies this`ip, this`sp, this`labelTop, stack
      ensures Running() && Callers() == old(Callers()) && R() == old(DoBranch(R(), depth)).r
    {
      hide Stacked, FramesOf, Unwind, DoBranch, Here, R, Callers, Labels;
      Registers();
      BranchResult(R(), depth);
      var l := LabelAt(depth);
      Cut(l, if l.op == 0x03 then l.params else l.results);
      GoTo(l.pc);
      DropLabels(if l.op == 0x03 then depth else depth + 1);
    }

    method DropLabels(n: nat)
      requires Running() && n <= labelTop
      modifies this`labelTop
      ensures Running() && Callers() == old(Callers()) && R() == old(R()).(labels := old(R().labels[..labelTop - n]))
    {
      hide Stacked, FramesOf;
      ghost var at, labels := callStack[callStackTop - 1].labelsAt, Labels();
      labelTop := labelTop - n;
      assert labelsPool[at..at + labelTop] == labels[..labelTop];
    }

    /** Writes the registers back into the running frame and the context. */
    method WriteBack()
      requires Running()
      modifies callStack, this`stackTop
      ensures Valid() && Abs() == old(Live()) && callStackTop > 0
      ensures callStack[..callStackTop - 1] == old(callStack[..callStackTop - 1])
      ensures callStack[callStackTop - 1] == old(callStack[callStackTop - 1]).(ip := ip, labelTop := labelTop)
    {
      hide Stacked, FramesOf;
      var k := callStackTop - 1;
      ghost var callers := callStack[..k];
      callStack[k] := callStack[k].(ip := ip, labelTop := labelTop);
      stackTop := sp;
      assert callStack[..k] == callers;
      assert callStack[..callStackTop] == callers + [callStack[k]];
      StackedSnoc(env, callers, callStack[k], labelsPool[..]);
    }

    method Br(op: Byte) returns (jump: bool)
      requires Running() && (op == 0x0C || op == 0x0D) && DoBr(Fn(), op, R()).Go?
      modifies this`ip, this`sp, this`labelTop, stack
      ensures Running() && Callers() == old(Callers()) && R() == old(DoBr(Fn(), op, R())).r
    {
      hide Stacked, FramesOf, ReadU32, DoBranch;
      var depth := NextU32();
      jump := true;
      if op == 0x0D {
        var cond := PopCondition();
        jump := cond != 0;
      }
      if jump { Branch(depth); }
    }

    method BrTable()
      requires Running() && DoBrTable(Fn(), R()).Go?
      modifies this`ip, this`sp, this`labelTop, stack
      ensures Running() && Callers() == old(Callers()) && R() == old(DoBrTable(Fn(), R())).r
    {
      hide Stacked, FramesOf, ReadU32, DoBranch, ReadTarget;
      ghost var r := R();
      var count := NextU32();
      sp := sp - 1;
      assert stack[..sp] == r.stack[..sp];
      ghost var t := ReadTarget(Fn().code, ip, count, stack[sp] % TWO_32);
      var chosen := ChooseTarget(count, stack[sp] % TWO_32);
      BranchIgnoresIp(R(), t.next, chosen);
      Branch(chosen);
    }

    /** Decodes targets up to the chosen one; behind it one more immediate is read in place of the default. */
    method ChooseTarget(count: nat, idx: nat) returns (chosen: nat)
      requires Running() && ReadTarget(Fn().code, ip, count, idx).Decoded?
      modifies this`ip
      ensures Running() && Callers() == old(Callers()) && R() == old(R()).(ip := ip)
      ensures chosen == old(ReadTarget(Fn().code, ip, count, idx)).v
    {
      hide Stacked, FramesOf, ReadU32;
      chosen := 0;
      var found := false;
      var i := 0;
      ghost var r := R();
      while i < count
        invariant 0 <= i <= count && (i > 0 ==> i <= idx) && Running() && Callers() == old(Callers()) && R() == r.(ip := ip)
        invariant old(ReadTarget(Fn().code, ip, count, idx)) == ReadTarget(Fn().code, ip, count - i, idx - i)
      {
        var target := NextU32();
        if i == idx {
          chosen := target;
          found := true;
          break;
        }
        i := i + 1;
      }
      var dflt := NextU32();
      if !found { chosen := dflt; }
    }

    // ----- frames -----

    /** What one opcode with the outcome `res` leaves behind. */
    ghost predicate Follows(res: StepResult, sig: Signal)
      reads this, stack, callStack, labelsPool
    {
      match res
      case Next(s) => (sig == Continue && Running() && Live() == s) || (sig == FrameChanged && Valid() && Abs() == s)
      case Yielded(s) => sig == Done(YieldedToHost) && Valid() && Abs() == s
      case Trapped(code) => sig == Done(TrappedWith(code)) && Valid()
      case Fault(_) => false
    }

    /** The outcome of an effect in the running frame. */
    ghost function After(eff: Effect): StepResult
      reads this, callStack, labelsPool
      requires Running()
    {
      Apply(env, Callers(), callStack[callStackTop - 1].func, Base(), labelsPoolTop, eff)
    }

    /** Gives the frame's label slots back and drops it. */
    method PopFrame()
      requires Running()
      modifies this`labelsPoolTop, this`stackTop, this`callStackTop
      ensures Valid()
      ensures Abs() == State(old(Callers()), stack[..sp], old(labelsPoolTop) - old(Fn()).maxLabels, world)
    {
      hide Stacked, FramesOf;
      labelsPoolTop := labelsPoolTop - callStack[callStackTop - 1].labelCapacity;
      stackTop := sp;
      callStackTop := callStackTop - 1;
    }

    method End() returns (sig: Signal)
      requires Running() && !DoEnd(R()).Crash?
      modifies this, stack
      ensures Follows(old(After(DoEnd(R()))), sig)
    {
      hide Stacked, FramesOf, Unwind;
      if labelTop > 0 {
        var l := LabelAt(0);
        Cut(l, l.results);
        DropLabels(1);
        if labelTop > 0 { return Continue; }
      }
      PopFrame();
      sig := FrameChanged;
    }

    method Return() returns (sig: Signal)
      requires Running() && !DoReturn(R()).Crash?
      modifies this, stack
      ensures Follows(old(After(DoReturn(R()))), sig)
    {
      hide Stacked, FramesOf, Unwind;
      var l := LabelAt(labelTop - 1);
      Cut(l, l.results);
      PopFrame();
      sig := FrameChanged;
    }

    /** Builds the frame of `callee` on top of the written-back ones; its arguments are the top slots below `sp`. */
    method PushCallFrame(callee: nat) returns (error: Status)
      requires Valid() && sp <= stack.Length
      requires !PushFrame(env, Abs().frames, stack[..sp], labelsPoolTop, world, callee).Fault?
      modifies this, stack, callStack, labelsPool
      ensures Valid()
      ensures match old(PushFrame(env, Abs().frames, stack[..sp], labelsPoolTop, world, callee))
              case Next(s) => error == Finished && Abs() == s
              case Trapped(code) => error == TrappedWith(code)
              case _ => false
    {
      hide Stacked, FramesOf;
      FramesCount(env, callStack[..callStackTop], labelsPool[..], labelsPoolTop);
      if callStackTop >= callStack.Length { return TrappedWith(StackOverflow); }
      var fn := env.funcs[callee];
      var totalLocals := TotalLocals(fn);
      ghost var recs, args := callStack[..callStackTop], stack[..sp];
      var localsBase := sp - fn.typ.params;
      callStack[callStackTop] := FrameRecord(callee, 0, localsBase, totalLocals, 0, 0, 0);
      callStackTop := callStackTop + 1;
      assert callStack[..callStackTop - 1] == recs;
      stackTop := localsBase + totalLocals;
      ClearLocals(localsBase + fn.typ.params, stackTop);
      assert stack[..stackTop] == args + Zeros(fn.localCount);
      sp := stackTop;
      if stackTop + fn.maxStack > stack.Length {
        RollBack(localsBase + fn.typ.params);
        return TrappedWith(StackOverflow);
      }
      if labelsPoolTop + fn.maxLabels > labelsPool.Length {
        RollBack(localsBase + fn.typ.params);
        return TrappedWith(LabelStackOverflow);
      }
      OpenFrame(fn, callee, localsBase);
      error := Finished;
    }

    method ClearLocals(from: nat, to: nat)
      requires from <= to <= stack.Length
      modifies stack
      ensures stack[..to] == old(stack[..from]) + Zeros(to - from)
    {
      for i := from to to
        invariant forall k :: 0 <= k < from ==> stack[k] == old(stack[k])
        invariant forall k :: from <= k < i ==> stack[k] == 0
      {
        stack[i] := 0;
      }
    }

    method RollBack(top: nat)
      requires callStackTop > 0 && top <= stack.Length == env.stackSize
      requires callStack.Length == env.callStackSize && labelsPool.Length == env.labelPoolSize
      requires callStackTop <= callStack.Length && labelsPoolTop <= labelsPool.Length
      requires Stacked(env, callStack[..callStackTop - 1], labelsPoolTop)
      modifies this`stackTop, this`sp, this`callStackTop
      ensures Valid() && callStackTop == old(callStackTop) - 1
    {
      hide Stacked;
      stackTop := top;
      sp := top;
      callStackTop := callStackTop - 1;
    }

    /** Cuts the frame's slice from the label pool and enters the function's own label. */
    method OpenFrame(fn: Func, callee: nat, localsBase: nat)
      requires callStackTop > 0 && stackTop <= stack.Length == env.stackSize
      requires callStack.Length == env.callStackSize && labelsPool.Length == env.labelPoolSize
      requires callee < |env.funcs| && env.funcs[callee] == fn && fn.Local? && fn.maxLabels >= 1
      requires callStackTop <= callStack.Length && labelsPoolTop + fn.maxLabels <= labelsPool.Length
      requires var f := callStack[callStackTop - 1]; f.func == callee && f.ip == 0 && f.base == localsBase
      requires Stacked(env, callStack[..callStackTop - 1], labelsPoolTop)
      modifies this`labelsPoolTop, callStack, labelsPool
      ensures Valid()
      ensures Abs() == State(old(FramesOf(env, callStack[..callStackTop - 1], labelsPool[..], labelsPoolTop)) + [Flat.FirstFrame(fn, callee, localsBase)],
                             stack[..stackTop], old(labelsPoolTop) + fn.maxLabels, world)
    {
      hide Stacked, FramesOf;
      var k, at := callStackTop - 1, labelsPoolTop;
      ghost var recs, before := callStack[..k], labelsPool[..];
      callStack[k] := callStack[k].(labelsAt := at, labelCapacity := fn.maxLabels, labelTop := 1);
      labelsPoolTop := labelsPoolTop + fn.maxLabels;
      labelsPool[at] := Label(0x02, localsBase, 0, fn.typ.results, |fn.code|);
      assert callStack[..k] == recs;
      FramesKept(env, recs, before, labelsPool[..], at);
      assert callStack[..callStackTop] == recs + [callStack[k]];
      StackedSnoc(env, recs, callStack[k], labelsPool[..]);
      assert labelsPool[..][at..at + 1] == [labelsPool[at]];
    }

    // ----- calls -----

    /** The dispatcher takes the arguments off the context's stack and pushes the results. */
    method CallHost(fn: Func) returns (sig: Signal)
      requires Running() && fn.Host? && fn.typ.params <= sp && !DoHost(env, fn, R()).Crash?
      modifies this, stack, callStack
      ensures Follows(old(After(DoHost(env, fn, R()))), sig)
    {
      hide Stacked, FramesOf;
      ghost var r := R();
      stackTop := sp - fn.typ.params;
      var args := stack[stackTop..sp];
      assert args == r.stack[stackTop..] && stack[..stackTop] == r.stack[..stackTop];
      world := world.(log := world.log + [HostCall(fn.id, args)]);
      match env.host(world.log)
      case Answer(results) =>
        PushResults(results);
        sp := stackTop;
        sig := Continue;
      case Yield =>
        sp := stackTop;
        WriteBack();
        sig := Done(YieldedToHost);
      case Fail(code) =>
        sp := stackTop;
        sig := Done(TrappedWith(HostError(code)));
    }

    method PushResults(results: seq<Value>)
      requires stackTop + |results| <= stack.Length
      modifies this`stackTop, stack
      ensures stackTop == old(stackTop) + |results| && stack[..stackTop] == old(stack[..stackTop]) + results
    {
      ghost var top, before := stackTop, stack[..stackTop];
      for i := 0 to |results|
        invariant stackTop == top + i <= stack.Length
        invariant stack[..stackTop] == before + results[..i]
      {
        stack[stackTop] := results[i];
        stackTop := stackTop + 1;
      }
    }

    method Call() returns (sig: Signal)
      requires Running() && !After(DoCall(env, Fn(), R())).Fault?
      modifies this, stack, callStack, labelsPool
      ensures Follows(old(After(DoCall(env, Fn(), R()))), sig)
    {
      hide Stacked, FramesOf, ReadU32, DoHost, PushFrame;
      var target := NextU32();
      var fn := env.funcs[target];
      if fn.Host? {
        sig := CallHost(fn);
      } else {
        WriteBack();
        var error := PushCallFrame(target);
        sig := if error == Finished then FrameChanged else Done(error);
      }
    }

    // ----- the dispatch loop -----

    /** After an instruction that stays in the frame. */
    lemma Went(eff: Effect, callers: seq<Frame>, func: nat, base: nat, labelsTop: nat)
      requires Running() && eff.Go? && R() == eff.r && Callers() == callers
      requires callStack[callStackTop - 1].func == func && Base() == base && labelsPoolTop == labelsTop
      ensures Follows(Apply(env, callers, func, base, labelsTop, eff), Continue)
    {
      hide Stacked, FramesOf;
    }

    /** Fetches and executes one opcode. */
    method Dispatch() returns (sig: Signal)
      requires Running() && TablesSorted(env) && !Step(env, Live()).Fault?
      modifies this, stack, callStack, labelsPool
      ensures Follows(old(Step(env, Live())), sig)
    {
      hide Stacked, FramesOf, Exec, Apply, StrictlyIncreasing, Step;
      ghost var callers, func, base, top, r := Callers(), callStack[callStackTop - 1].func, Base(), labelsPoolTop, R();
      ghost var eff := Exec(env, Fn(), base, r);
      StepOfLive(env, callers, func, base, top, r);
      NoCrash(env, callers, func, base, top, eff);
      Fetched(env, Fn(), base, r);
      var op := Fn().code[ip];
      ip := ip + 1;
      assert R() == r.(ip := ip);
      if op == 0x0B {
        sig := End();
      } else if op == 0x0F {
        sig := Return();
      } else if op == 0x10 {
        sig := Call();
      } else if op == 0x00 {
        sig := Done(TrappedWith(TrapUnreachable));
        ApplyRaise(env, callers, func, base, top, TrapUnreachable);
      } else {
        sig := Stay(op);
      }
    }

    /** The opcodes that do not leave the frame. */
    method Stay(op: Byte) returns (sig: Signal)
      requires Running() && TablesSorted(env) && !StaysIn(env, Fn(), Base(), op, R()).Crash?
      modifies this, stack, callStack, labelsPool
      ensures Follows(old(After(StaysIn(env, Fn(), Base(), op, R()))), sig)
    {
      hide Stacked, FramesOf, StrictlyIncreasing, DoPlain, DoBlock, DoIf, DoElse, DoBr, DoBrTable;
      ghost var callers, func, base, top := Callers(), callStack[callStackTop - 1].func, Base(), labelsPoolTop;
      ghost var eff := StaysIn(env, Fn(), base, op, R());
      OnlyGo(env, Fn(), op, R());
      sig := Continue;
      var jump := false;
      if IsPlain(op) {
        sig := Plain(op);
      } else if op == 0x02 || op == 0x03 {
        BlockOrLoop(op);
      } else if op == 0x04 {
        If();
      } else if op == 0x05 {
        sig := Else();
      } else if op == 0x0C || op == 0x0D {
        jump := Br(op);
      } else {
        BrTable();
        jump := true;
      }
      if sig == Continue { Went(eff, callers, func, base, top); }
      if jump {
        WriteBack();
        sig := FrameChanged;
      }
    }

    /** Caches the running frame in the registers. */
    method LoadRegisters()
      requires Valid() && callStackTop > 0
      modifies this`ip, this`sp, this`labelTop
      ensures Running() && Live() == Abs()
    {
      var frame := callStack[callStackTop - 1];
      ip, sp, labelTop := frame.ip, stackTop, frame.labelTop;
      assert callStack[..callStackTop][..callStackTop - 1] == callStack[..callStackTop - 1];
    }

    /** The inner loop: opcodes of one frame until the frame changes or the run is done; `m` of the `n` steps are left. */
    method RunFrame(ghost n: nat) returns (sig: Signal, ghost m: nat)
      requires Running() && TablesSorted(env) && Halts(RunUntil(env, Live(), n))
      modifies this, stack, callStack, labelsPool
      ensures sig == FrameChanged || sig.Done?
      ensures sig == FrameChanged ==> Valid() && RunUntil(env, Abs(), m) == old(RunUntil(env, Live(), n)) && m < n
      ensures sig.Done? ==> Valid() && Matches(old(RunUntil(env, Live(), n)), sig.status)
    {
      hide Stacked, FramesOf, Step, StrictlyIncreasing, RunUntil, Here, Callers, Labels, R;
      ghost var end := RunUntil(env, Live(), n);
      sig, m := Continue, n;
      while sig == Continue
        invariant m <= n
        invariant sig == Continue ==> Running() && RunUntil(env, Live(), m) == end
        invariant sig == FrameChanged ==> Valid() && RunUntil(env, Abs(), m) == end && m < n
        invariant sig.Done? ==> Valid() && Matches(end, sig.status)
        decreases m, sig == Continue
      {
        Unrolled(env, Live(), m);
        sig := Dispatch();
        m := m - 1;
      }
    }

    /** Runs the frames on the call stack until they are gone, the host yields or a trap occurs. `n` bounds the steps. */
    method RunLoop(ghost n: nat) returns (status: Status)
      requires Valid() && TablesSorted(env) && Halts(RunUntil(env, Abs(), n))
      modifies this, stack, callStack, labelsPool
      ensures Valid() && Matches(old(RunUntil(env, Abs(), n)), status)
    {
      hide Stacked, FramesOf, Step, StrictlyIncreasing, RunUntil;
      ghost var end, m := RunUntil(env, Abs(), n), n;
      while callStackTop > 0
        invariant Valid() && RunUntil(env, Abs(), m) == end
        decreases m
      {
        LoadRegisters();
        var sig;
        sig, m := RunFrame(m);
        if sig.Done? { return sig.status; }
      }
      assert callStack[..callStackTop] == [];
      EmptyCallStack(env, labelsPool[..], labelsPoolTop);
      NothingToRun(env, Abs(), m);
      status := Finished;
    }

    /** Starts `func` on the arguments that lie on the stack, or resumes the frames left by a yield. */
    method ExecuteInternal(func: nat, ghost n: nat) returns (status: Status)
      requires Valid() && TablesSorted(env)
      requires callStackTop > 0 ==> Halts(RunUntil(env, Abs(), n))
      requires callStackTop == 0 ==> labelsPoolTop == 0 && Startable(Launched(func), n)
      modifies this, stack, callStack, labelsPool
      ensures old(callStackTop) > 0 ==> Valid() && Matches(old(RunUntil(env, Abs(), n)), status)
      ensures old(callStackTop) == 0 ==> StartMatches(old(Launched(func)), n, status)
    {
      hide Stacked, FramesOf, StrictlyIncreasing, Step, RunUntil;
      if callStackTop == 0 {
        assert callStack[..callStackTop] == [];
        var error := PushFirstFrame(func);
        if error != Finished { return error; }
      }
      status := RunLoop(n);
    }

    ghost function Launched(func: nat): StepResult
      reads this, stack
    {
      if func < |env.funcs| && env.funcs[func].Local? && stackTop <= stack.Length
        then Launch(env, func, stack[..stackTop], world) else Fault(BadIndex)
    }

    ghost predicate Startable(start: StepResult, n: nat)
    {
      match start
      case Next(s) => Halts(RunUntil(env, s, n))
      case Trapped(_) => true
      case _ => false
    }

    ghost predicate StartMatches(start: StepResult, n: nat, status: Status)
      reads this, stack, callStack, labelsPool
    {
      match start
      case Next(s) => Valid() && Matches(RunUntil(env, s, n), status)
      case Trapped(code) => status == TrappedWith(code) && StateAfterTrap(code)
      case _ => false
    }

    /** Missing arguments leave the frame counted but unfinished; a full label pool takes it back. */
    ghost predicate StateAfterTrap(code: TrapCode)
      reads this, callStack
    {
      if code == RuntimeError then callStackTop == 1 else Valid() && callStackTop == 0
    }

    /** The first frame is built like any other but without the test of its stack depth. */
    method PushFirstFrame(func: nat) returns (error: Status)
      requires Valid() && callStackTop == 0 && labelsPoolTop == 0 && !Launched(func).Fault?
      modifies this, stack, callStack, labelsPool
      ensures match old(Launched(func))
              case Next(s) => error == Finished && Valid() && Abs() == s
              case Trapped(code) => error == TrappedWith(code) && StateAfterTrap(code)
              case _ => false
    {
      hide FramesOf;
      var fn := env.funcs[func];
      EmptyCallStack(env, labelsPool[..], 0);
      callStack[0] := FrameRecord(func, 0, 0, TotalLocals(fn), 0, 0, 0);
      callStackTop := 1;
      if stackTop < fn.typ.params {
        return TrappedWith(RuntimeError);
      }
      ghost var args := stack[..stackTop];
      var localsBase := stackTop - fn.typ.params;
      callStack[0] := callStack[0].(base := localsBase);
      assert callStack[..0] == [];
      stackTop := localsBase + TotalLocals(fn);
      ClearLocals(localsBase + fn.typ.params, stackTop);
      assert stack[..stackTop] == args + Zeros(fn.localCount);
      if fn.maxLabels > labelsPool.Length {
        RollBack(localsBase + fn.typ.params);
        return TrappedWith(LabelStackOverflow);
      }
      OpenFrame(fn, func, localsBase);
      error := Finished;
    }

    /** What `RunLoop` promises about an end of run. */
    ghost predicate Matches(end: RunEnd, status: Status)
      reads this, stack, callStack, labelsPool
      requires Valid()
    {
      match end
      case Ended(s) => status == Finished && Abs() == s
      case Suspended(s, _) => status == YieldedToHost && Abs() == s
      case Stopped(code) => status == TrappedWith(code)
      case _ => false
    }
  }

  lemma EmptyCallStack(e: Env, pool: seq<Label>, top: nat)
    requires top <= |pool|
    ensures Stacked(e, [], top) && FramesOf(e, [], pool, top) == []
  {
  }

  lemma NothingToRun(e: Env, s: State, n: nat)
    requires s.frames == []
    ensures RunUntil(e, s, n) == Ended(s)
  {
  }

  lemma Unrolled(e: Env, s: State, n: nat)
    requires s.frames != [] && Halts(RunUntil(e, s, n))
    ensures n > 0
    ensures match Step(e, s)
            case Next(s') => RunUntil(e, s, n) == RunUntil(e, s', n - 1)
            case Yielded(s') => RunUntil(e, s, n) == Suspended(s', n - 1)
            case Trapped(code) => RunUntil(e, s, n) == Stopped(code)
            case Fault(_) => false
  {
    hide Step;
  }

  predicate Halts(end: RunEnd) { end.Ended? || end.Suspended? || end.Stopped? }

  /** The effect of an opcode other than unreachable, end, return and call. */
  function StaysIn(e: Env, fn: Func, base: nat, op: Byte, r: Regs): Effect
    requires fn.Local?
  {
    if IsPlain(op) then DoPlain(e, fn, base, op, r)
    else if op == 0x02 || op == 0x03 then DoBlock(e, fn, op, r)
    else if op == 0x04 then DoIf(e, fn, r)
    else if op == 0x05 then DoElse(r)
    else if op == 0x0C || op == 0x0D then DoBr(fn, op, r)
    else if op == 0x0E then DoBrTable(fn, r)
    else Crash(UnknownOpcode)
  }

  lemma OnlyGo(e: Env, fn: Func, op: Byte, r: Regs)
    requires fn.Local?
    ensures DoBlock(e, fn, op, r).Go? || DoBlock(e, fn, op, r).Crash?
    ensures DoIf(e, fn, r).Go? || DoIf(e, fn, r).Crash?
    ensures DoElse(r).Go? || DoElse(r).Raise?
    ensures DoBr(fn, op, r).Go? || DoBr(fn, op, r).Crash?
    ensures DoBrTable(fn, r).Go? || DoBrTable(fn, r).Crash?
  {
    hide ReadU32, ReadS32, ReadTarget, Lookup, BlockArity;
  }

  lemma Fetched(e: Env, fn: Func, base: nat, r: Regs)
    requires fn.Local? && !Exec(e, fn, base, r).Crash?
    ensures r.ip < |fn.code|
    ensures var op, r' := fn.code[r.ip], r.(ip := r.ip + 1);
            Exec(e, fn, base, r) ==
            if op == 0x00 then Raise(TrapUnreachable)
            else if op == 0x0B then DoEnd(r')
            else if op == 0x0F then DoReturn(r')
            else if op == 0x10 then DoCall(e, fn, r')
            else StaysIn(e, fn, base, op, r')
  {
    hide DoPlain, DoBlock, DoIf, DoElse, DoBr, DoBrTable, DoEnd, DoReturn, DoCall;
  }

  lemma NoCrash(e: Env, callers: seq<Frame>, func: nat, base: nat, labelsTop: nat, eff: Effect)
    requires func < |e.funcs| && e.funcs[func].Local? && !Apply(e, callers, func, base, labelsTop, eff).Fault?
    ensures !eff.Crash?
  {
    hide PushFrame;
  }

  lemma ApplyRaise(e: Env, callers: seq<Frame>, func: nat, base: nat, labelsTop: nat, code: TrapCode)
    requires func < |e.funcs| && e.funcs[func].Local?
    ensures Apply(e, callers, func, base, labelsTop, Raise(code)) == Trapped(code)
  {
    hide PushFrame;
  }

  lemma StepOfLive(e: Env, callers: seq<Frame>, func: nat, base: nat, labelsTop: nat, r: Regs)
    requires func < |e.funcs| && e.funcs[func].Local?
    ensures Step(e, State(callers + [Frame(func, r.ip, base, r.labels)], r.stack, labelsTop, r.world)) ==
            Apply(e, callers, func, base, labelsTop, Exec(e, e.funcs[func], base, r))
  {
    hide Apply, Exec;
    assert (callers + [Frame(func, r.ip, base, r.labels)])[..|callers|] == callers;
  }

  lemma {:induction false} FramesCount(e: Env, recs: seq<FrameRecord>, pool: seq<Label>, top: nat)
    requires Stacked(e, recs, top) && top <= |pool|
    ensures |FramesOf(e, recs, pool, top)| == |recs|
    decreases |recs|
  {
    if recs != [] { FramesCount(e, recs[..|recs| - 1], pool, recs[|recs| - 1].labelsAt); }
  }

  lemma IfResult(env: Env, fn: Func, r: Regs)
    requires fn.Local? && DoIf(env, fn, r).Go?
    ensures ReadS32(fn.code, r.ip).Decoded? && r.stack != [] && |r.labels| < fn.maxLabels
    ensures var d, n := ReadS32(fn.code, r.ip), |r.stack| - 1;
            var end := match Lookup(fn.jumps, d.next) case Entry(j) => j.end case Missing => |fn.code|;
            var els := match Lookup(fn.jumps, d.next) case Entry(j) => j.els case Missing => 0;
            var labels := r.labels + [Label(0x04, n, 0, BlockArity(env.types, d.v).results, end)];
            DoIf(env, fn, r).r == if r.stack[n] != 0 then Regs(d.next, labels, r.stack[..n], r.world)
                                  else if els != 0 then Regs(els, labels, r.stack[..n], r.world)
                                  else Regs(end, r.labels, r.stack[..n], r.world)
  {
  }

  lemma BranchResult(r: Regs, depth: nat)
    requires DoBranch(r, depth).Go?
    ensures depth < |r.labels|
    ensures var l := r.labels[|r.labels| - 1 - depth];
            var arity, n := BranchArity(l), if l.op == 0x03 then depth else depth + 1;
            && l.stackTop + arity <= |r.stack|
            && DoBranch(r, depth).r == Regs(l.pc, r.labels[..|r.labels| - n], Unwind(r.stack, l.stackTop, arity), r.world)
  {
  }

  lemma BranchIgnoresIp(r: Regs, ip: nat, depth: nat)
    ensures DoBranch(r, depth) == DoBranch(r.(ip := ip), depth)
  {
  }

  lemma VariableGoes(e: Env, base: nat, op: Byte, d: Decoded, r: Regs)
    requires HasIndex(op)
    ensures d.Decoded? ==> var x := DoOp(e, base, op, d.v, r.(ip := d.next)); x.Go? || x.Crash?
  {
  }

  lemma ConstGoes(e: Env, base: nat, d: Decoded, r: Regs)
    ensures d.Decoded? ==> var x := DoOp(e, base, 0x41, d.v, r.(ip := d.next)); x.Go? || x.Crash?
  {
  }
}
