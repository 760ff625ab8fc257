// The interpreter as a transition system over bytes: one step per opcode, with the label stack, the precomputed jump
// table and the single value stack shared by all frames. Every access the source makes without a test is a `Fault`
// here when it would leave its buffer, so "no fault" is the memory safety the loader's numbers are trusted for.
module Flat {
  import opened Leb128
  import opened Bytecode
  import opened Runtime

  /** `pc` is an offset into the function's code. */
  datatype Label = Label(op: Byte, stackTop: nat, params: nat, results: nat, pc: nat)

  /** `base` is the index of the first local on the value stack; the frame owns maxLabels label slots. */
  datatype Frame = Frame(func: nat, ip: nat, base: nat, labels: seq<Label>)

  /** `stack` holds the slots below sp; `labelsTop` is the number of label slots owned by live frames. */
  datatype State = State(frames: seq<Frame>, stack: seq<Value>, labelsTop: nat, world: World)

  datatype FaultKind =
    | RanOffEnd          // opcode fetch at or after the end of the body
    | ShortImmediate
    | UnknownOpcode
    | StackUnderflow
    | StackOverrun
    | LabelUnderflow
    | LabelOverrun
    | BadIndex

  datatype StepResult =
    | Next(s: State)
    | Yielded(s: State)      // a host call yielded: the run may be resumed from s
    | Trapped(code: TrapCode)
    | Fault(kind: FaultKind)

  // ----- immediates -----

  datatype Decoded = Decoded(v: int, next: nat) | Short

  function ReadU32(code: seq<Byte>, p: nat): (d: Decoded)
    ensures d.Decoded? ==> d.v >= 0
  {
    if p <= |code| && Available(code, p, |code|, 5) then
      var k := Taken(code, p, |code|, 5);
      Decoded(U32At(code, p, k), p + k)
    else Short
  }

  function ReadS32(code: seq<Byte>, p: nat): (d: Decoded)
    ensures d.Decoded? ==> -TWO_31 <= d.v < TWO_31
  {
    if p <= |code| && Available(code, p, |code|, 5) then
      var k := Taken(code, p, |code|, 5);
      Decoded(S32At(code, p, k), p + k)
    else Short
  }

  /** The depth chosen by a br_table whose first target stands at `p`, for an operand `i`. When the target is in the
      table the immediate behind it is decoded as well, in place of the default. */
  function ReadTarget(code: seq<Byte>, p: nat, count: nat, i: nat): Decoded
    decreases count
  {
    var d := ReadU32(code, p);
    if d.Short? || count == 0 then d
    else if i == 0 then (if ReadU32(code, d.next).Short? then Short else d)
    else ReadTarget(code, d.next, count - 1, i - 1)
  }

  lemma ImmRead(code: seq<Byte>, p: nat, imm: Imm)
    requires ImmAt(code, p, imm)
    ensures ReadU32(code, p) == Decoded(U(imm), p + |imm|)
    ensures ReadS32(code, p) == Decoded(S(imm), p + |imm|)
  {
    TakenLegal(code, p, |code|, 5, imm);
    PayloadOfSlice(code, p, imm, |imm|);
  }

  /** The table lookup of the interpreter finds the written target, or the default past the end. */
  lemma {:induction false} TargetRead(code: seq<Byte>, p: nat, ts: seq<Imm>, d: Imm, i: nat)
    requires ImmsAt(code, p, ts) && ImmAt(code, p + ImmsSize(ts), d)
    ensures var r := ReadTarget(code, p, |ts|, i); r.Decoded? && r.v == U(if i < |ts| then ts[i] else d)
    decreases |ts|
  {
    hide U, ImmAt, ReadU32;
    if ts == [] {
      ImmRead(code, p, d);
    } else {
      ImmRead(code, p, ts[0]);
      var p1 := p + |ts[0]|;
      if i > 0 {
        TargetRead(code, p1, ts[1..], d, i - 1);
      } else {
        ImmRead(code, p1, if |ts| > 1 then ts[1] else d);
      }
    }
  }

  // ----- jump table -----

  datatype Found = Entry(e: JumpEntry) | Missing

  function Lookup(table: seq<JumpEntry>, body: nat): Found
  {
    if table == [] then Missing
    else if table[0].body == body then Entry(table[0])
    else Lookup(table[1..], body)
  }

  // ----- one activation -----

  /** The registers of the running frame. */
  datatype Regs = Regs(ip: nat, labels: seq<Label>, stack: seq<Value>, world: World)

  /** What one opcode asks for. */
  datatype Effect =
    | Go(r: Regs)
    | Enter(r: Regs, callee: nat)      // push a frame; r.ip is the return address
    | Exit(stack: seq<Value>, world: World)
    | Suspend(r: Regs)
    | Raise(code: TrapCode)
    | Crash(kind: FaultKind)

  /** Moves the top `arity` slots down to `top` and cuts the stack behind them. */
  function Unwind(stack: seq<Value>, top: nat, arity: nat): seq<Value>
    requires top + arity <= |stack|
  {
    stack[..top] + stack[|stack| - arity..]
  }

  function BranchArity(l: Label): nat { if l.op == 0x03 then l.params else l.results }

  /** Pushes results of an instruction: the stack must have room. */
  function Push(e: Env, r: Regs, stack: seq<Value>): Effect
  {
    if |stack| > e.stackSize then Crash(StackOverrun) else Go(r.(stack := stack))
  }

  /** `r.ip` stands behind the immediates. */
  function DoOp(e: Env, base: nat, op: Byte, arg: int, r: Regs): Effect
  {
    var s := r.stack;
    var n := |s|;
    if op == 0x01 then Go(r)
    else if op == 0x1A then (if n < 1 then Crash(StackUnderflow) else Go(r.(stack := s[..n - 1])))
    else if op == 0x1B then
      if n < 3 then Crash(StackUnderflow)
      else Go(r.(stack := s[..n - 3] + [if s[n - 1] != 0 then s[n - 3] else s[n - 2]]))
    else if op == 0x20 then
      if arg < 0 || base + arg >= n then Crash(BadIndex) else Push(e, r, s + [s[base + arg]])
    else if op == 0x21 then
      if n < 1 then Crash(StackUnderflow)
      else if arg < 0 || base + arg >= n - 1 then Crash(BadIndex)
      else Go(r.(stack := s[..n - 1][base + arg := s[n - 1]]))
    else if op == 0x22 then
      if n < 1 then Crash(StackUnderflow)
      else if arg < 0 || base + arg >= n then Crash(BadIndex)
      else Go(r.(stack := s[base + arg := s[n - 1]]))
    else if op == 0x23 then
      if arg < 0 || arg >= |r.world.globals| then Crash(BadIndex) else Push(e, r, s + [r.world.globals[arg]])
    else if op == 0x24 then
      if n < 1 then Crash(StackUnderflow)
      else if arg < 0 || arg >= |r.world.globals| then Crash(BadIndex)
      else Go(r.(stack := s[..n - 1], world := r.world.(globals := r.world.globals[arg := s[n - 1]])))
    else if op == 0x41 then
      if -TWO_31 <= arg < TWO_31 then Push(e, r, s + [arg]) else Crash(BadIndex)
    else if op == 0x45 then
      if n < 1 then Crash(StackUnderflow) else Go(r.(stack := s[n - 1 := Truth(s[n - 1] == 0)]))
    else if IsBinary(op) then
      if n < 2 then Crash(StackUnderflow)
      else
        match BinaryOp(op, s[n - 2], s[n - 1])
        case Val(v) => Go(r.(stack := s[..n - 2] + [v]))
        case Traps(code) => Raise(code)
    else Crash(UnknownOpcode)
  }

  predicate HasIndex(op: Byte) { 0x20 <= op <= 0x24 }

  predicate IsPlain(op: Byte)
  {
    op == 0x01 || op == 0x1A || op == 0x1B || HasIndex(op) || op == 0x41 || op == 0x45 || IsBinary(op)
  }

  function DoPlain(e: Env, fn: Func, base: nat, op: Byte, r: Regs): Effect
    requires fn.Local?
  {
    if HasIndex(op) then
      var d := ReadU32(fn.code, r.ip);
      if d.Short? then Crash(ShortImmediate) else DoOp(e, base, op, d.v, r.(ip := d.next))
    else if op == 0x41 then
      var d := ReadS32(fn.code, r.ip);
      if d.Short? then Crash(ShortImmediate) else DoOp(e, base, op, d.v, r.(ip := d.next))
    else DoOp(e, base, op, 0, r)
  }

  function PushLabel(fn: Func, r: Regs, l: Label): Effect
    requires fn.Local?
  {
    if |r.labels| >= fn.maxLabels then Crash(LabelOverrun) else Go(r.(labels := r.labels + [l]))
  }

  /** block and loop */
  function DoBlock(e: Env, fn: Func, op: Byte, r: Regs): Effect
    requires fn.Local?
  {
    var d := ReadS32(fn.code, r.ip);
    if d.Short? then Crash(ShortImmediate)
    else
      var t := BlockArity(e.types, d.v);
      if |r.stack| < t.params then Crash(StackUnderflow)
      else
        var pc := if op == 0x03 then d.next
                  else match Lookup(fn.jumps, d.next) case Entry(j) => j.end case Missing => |fn.code|;
        PushLabel(fn, r.(ip := d.next), Label(op, |r.stack| - t.params, t.params, t.results, pc))
  }

  function DoIf(e: Env, fn: Func, r: Regs): Effect
    requires fn.Local?
  {
    var d := ReadS32(fn.code, r.ip);
    var n := |r.stack|;
    if d.Short? then Crash(ShortImmediate)
    else if n < 1 then Crash(StackUnderflow)
    else
      var t := BlockArity(e.types, d.v);
      var j := match Lookup(fn.jumps, d.next) case Entry(j) => j case Missing => JumpEntry(d.next, |fn.code|, 0);
      var popped := r.(stack := r.stack[..n - 1]);
      if |r.labels| >= fn.maxLabels then Crash(LabelOverrun)
      else if r.stack[n - 1] == 0 && j.els == 0 then Go(popped.(ip := j.end))
      else
        PushLabel(fn, popped.(ip := if r.stack[n - 1] == 0 then j.els else d.next),
                  Label(0x04, n - 1, 0, t.results, j.end))
  }

  function DoElse(r: Regs): Effect
  {
    var k := |r.labels|;
    if k == 0 then Raise(RuntimeError)
    else Go(r.(ip := r.labels[k - 1].pc, labels := r.labels[..k - 1]))
  }

  /** The taken branch shared by br, br_if and br_table. */
  function DoBranch(r: Regs, depth: int): Effect
  {
    var k := |r.labels|;
    if depth < 0 || depth >= k then Crash(LabelUnderflow)
    else
      var l := r.labels[k - 1 - depth];
      if l.stackTop + BranchArity(l) > |r.stack| then Crash(StackUnderflow)
      else
        Go(Regs(l.pc, if l.op == 0x03 then r.labels[..k - depth] else r.labels[..k - depth - 1],
                Unwind(r.stack, l.stackTop, BranchArity(l)), r.world))
  }

  function DoBr(fn: Func, op: Byte, r: Regs): Effect
    requires fn.Local?
  {
    var d := ReadU32(fn.code, r.ip);
    var n := |r.stack|;
    if d.Short? then Crash(ShortImmediate)
    else if op == 0x0C then DoBranch(r.(ip := d.next), d.v)
    else if n < 1 then Crash(StackUnderflow)
    else
      var popped := r.(ip := d.next, stack := r.stack[..n - 1]);
      if r.stack[n - 1] != 0 then DoBranch(popped, d.v) else Go(popped)
  }

  function DoBrTable(fn: Func, r: Regs): Effect
    requires fn.Local?
  {
    var d := ReadU32(fn.code, r.ip);
    var n := |r.stack|;
    if d.Short? then Crash(ShortImmediate)
    else if n < 1 then Crash(StackUnderflow)
    else
      var t := ReadTarget(fn.code, d.next, d.v, r.stack[n - 1] % TWO_32);
      if t.Short? then Crash(ShortImmediate) else DoBranch(r.(ip := t.next, stack := r.stack[..n - 1]), t.v)
  }

  function DoEnd(r: Regs): Effect
  {
    var k := |r.labels|;
    if k == 0 then Exit(r.stack, r.world)
    else
      var l := r.labels[k - 1];
      if l.stackTop + l.results > |r.stack| then Crash(StackUnderflow)
      else
        var stack := Unwind(r.stack, l.stackTop, l.results);
        if k == 1 then Exit(stack, r.world) else Go(r.(labels := r.labels[..k - 1], stack := stack))
  }

  function DoReturn(r: Regs): Effect
  {
    if r.labels == [] then Crash(LabelUnderflow)
    else
      var l := r.labels[0];
      if l.stackTop + l.results > |r.stack| then Crash(StackUnderflow)
      else Exit(Unwind(r.stack, l.stackTop, l.results), r.world)
  }

  function DoCall(e: Env, fn: Func, r: Regs): Effect
    requires fn.Local?
  {
    var d := ReadU32(fn.code, r.ip);
    if d.Short? then Crash(ShortImmediate)
    else if d.v >= |e.funcs| then Crash(BadIndex)
    else if |r.stack| < e.funcs[d.v].typ.params then Crash(StackUnderflow)
    else if e.funcs[d.v].Host? then DoHost(e, e.funcs[d.v], r.(ip := d.next))
    else Enter(r.(ip := d.next), d.v)
  }

  /** The dispatcher pops the arguments and pushes the results. */
  function DoHost(e: Env, fn: Func, r: Regs): Effect
    requires fn.Host? && |r.stack| >= fn.typ.params
  {
    var n := |r.stack| - fn.typ.params;
    var log := r.world.log + [HostCall(fn.id, r.stack[n..])];
    var r' := Regs(r.ip, r.labels, r.stack[..n], r.world.(log := log));
    match e.host(log)
    case Answer(results) => Push(e, r', r'.stack + results)
    case Yield => Suspend(r')
    case Fail(code) => Raise(HostError(code))
  }

  function Exec(e: Env, fn: Func, base: nat, r: Regs): Effect
    requires fn.Local?
  {
    if r.ip >= |fn.code| then Crash(RanOffEnd)
    else
      var op := fn.code[r.ip];
      var r' := r.(ip := r.ip + 1);
      if IsPlain(op) then DoPlain(e, fn, base, op, r')
      else if op == 0x00 then Raise(TrapUnreachable)
      else if op == 0x02 || op == 0x03 then DoBlock(e, fn, op, r')
      else if op == 0x04 then DoIf(e, fn, r')
      else if op == 0x05 then DoElse(r')
      else if op == 0x0B then DoEnd(r')
      else if op == 0x0C || op == 0x0D then DoBr(fn, op, r')
      else if op == 0x0E then DoBrTable(fn, r')
      else if op == 0x0F then DoReturn(r')
      else if op == 0x10 then DoCall(e, fn, r')
      else Crash(UnknownOpcode)
  }

  // ----- frames -----

  /** A new frame for `callee` whose arguments are the top of `stack`; the tests come in the source's order. */
  function PushFrame(e: Env, frames: seq<Frame>, stack: seq<Value>, labelsTop: nat, world: World, callee: nat): StepResult
  {
    if callee >= |e.funcs| || !e.funcs[callee].Local? then Fault(BadIndex)
    else
      var fn := e.funcs[callee];
      if |stack| < fn.typ.params then Fault(StackUnderflow)
      else
        var base := |stack| - fn.typ.params;
        if |frames| >= e.callStackSize then Trapped(StackOverflow)
        else if base + TotalLocals(fn) > e.stackSize then Fault(StackOverrun)
        else if base + TotalLocals(fn) + fn.maxStack > e.stackSize then Trapped(StackOverflow)
        else if labelsTop + fn.maxLabels > e.labelPoolSize then Trapped(LabelStackOverflow)
        else if fn.maxLabels < 1 then Fault(LabelOverrun)
        else Next(State(frames + [FirstFrame(fn, callee, base)], stack + Zeros(fn.localCount),
                        labelsTop + fn.maxLabels, world))
  }

  function FirstFrame(fn: Func, func: nat, base: nat): Frame
    requires fn.Local?
  {
    Frame(func, 0, base, [Label(0x02, base, 0, fn.typ.results, |fn.code|)])
  }

  /** One opcode of the running frame. */
  function Step(e: Env, s: State): StepResult
    requires s.frames != []
  {
    var callers, fr := s.frames[..|s.frames| - 1], s.frames[|s.frames| - 1];
    if fr.func >= |e.funcs| || !e.funcs[fr.func].Local? then Fault(BadIndex)
    else
      Apply(e, callers, fr.func, fr.base, s.labelsTop,
            Exec(e, e.funcs[fr.func], fr.base, Regs(fr.ip, fr.labels, s.stack, s.world)))
  }

  function Apply(e: Env, callers: seq<Frame>, func: nat, base: nat, labelsTop: nat, eff: Effect): StepResult
    requires func < |e.funcs| && e.funcs[func].Local?
  {
    match eff
    case Go(r) => Next(State(callers + [Frame(func, r.ip, base, r.labels)], r.stack, labelsTop, r.world))
    case Suspend(r) => Yielded(State(callers + [Frame(func, r.ip, base, r.labels)], r.stack, labelsTop, r.world))
    case Enter(r, callee) =>
      PushFrame(e, callers + [Frame(func, r.ip, base, r.labels)], r.stack, labelsTop, r.world, callee)
    case Exit(stack, w) =>
      if labelsTop < e.funcs[func].maxLabels then Fault(LabelUnderflow)
      else Next(State(callers, stack, labelsTop - e.funcs[func].maxLabels, w))
    case Raise(code) => Trapped(code)
    case Crash(kind) => Fault(kind)
  }
}
