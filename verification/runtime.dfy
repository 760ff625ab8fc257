// What the structured semantics and the flat interpreter share: functions, globals, the host, and the meaning of
// the instructions without control flow on values.
module Runtime {
  import opened Leb128
  import opened Bytecode

  /** The reasons for which a run stops with an error code. */
  datatype TrapCode =
    | TrapUnreachable
    | DivideByZero
    | IntegerOverflow
    | StackOverflow
    | LabelStackOverflow
    | RuntimeError
    | HostError(code: int)

  /** `else_offset` and `end_offset` of the block or if whose body starts at `body`; `els` is 0 without else. */
  datatype JumpEntry = JumpEntry(body: nat, end: nat, els: nat)

  /** The loader's stack depth and label depth at one byte offset. */
  datatype Mark = Mark(depth: int, labels: int)

  datatype Func =
    | Local(typ: FuncType, localCount: nat, code: seq<Byte>, maxLabels: nat, maxStack: nat, jumps: seq<JumpEntry>)
    | Host(typ: FuncType, id: nat)

  /** One host call as the host sees it. */
  datatype HostCall = HostCall(id: nat, args: seq<Value>)

  /** What a host function answers; only a function without results may yield. */
  datatype HostReply = Answer(results: seq<Value>) | Yield | Fail(code: int)

  /** Everything outside the thread's own stacks: global variables and the host calls made so far. */
  datatype World = World(globals: seq<Value>, log: seq<HostCall>)

  /** A loaded module, the host (a function of the calls made so far), and the configured stack sizes. */
  datatype Env = Env(
    types: seq<FuncType>,
    funcs: seq<Func>,
    host: seq<HostCall> -> HostReply,
    stackSize: nat,
    callStackSize: nat,
    labelPoolSize: nat)

  function TotalLocals(f: Func): nat
    requires f.Local?
  {
    f.typ.params + f.localCount
  }

  function Zeros(n: nat): (z: seq<Value>)
    ensures |z| == n
  {
    seq(n, _ => 0)
  }

  // ----- value semantics -----

  datatype BinaryResult = Val(v: Value) | Traps(code: TrapCode)

  /** Division rounding toward zero. */
  function DivTrunc(a: int, b: int): int
    requires b != 0
  {
    if a >= 0 then a / b else -((-a) / b)
  }

  function Truth(b: bool): Value { if b then 1 else 0 }

  /** The 32 bits read as an unsigned number. */
  function Unsigned(a: Value): nat { a % TWO_32 }

  function Compare(op: Byte, a: Value, b: Value): bool
    requires IsComparison(op)
  {
    var ua, ub := Unsigned(a), Unsigned(b);
    if op == 0x46 then a == b
    else if op == 0x47 then a != b
    else if op == 0x48 then a < b
    else if op == 0x49 then ua < ub
    else if op == 0x4A then a > b
    else if op == 0x4B then ua > ub
    else if op == 0x4C then a <= b
    else if op == 0x4D then ua <= ub
    else if op == 0x4E then a >= b
    else ua >= ub
  }

  function BinaryOp(op: Byte, a: Value, b: Value): BinaryResult
    requires IsBinary(op)
  {
    if IsComparison(op) then Val(Truth(Compare(op, a, b)))
    else if op == 0x6A then Val(Wrap32(a + b))
    else if op == 0x6B then Val(Wrap32(a - b))
    else if op == 0x6C then Val(Wrap32(a * b))
    else if b == 0 then Traps(DivideByZero)
    else if op == 0x6D then if a == -TWO_31 && b == -1 then Traps(IntegerOverflow) else Val(Wrap32(DivTrunc(a, b)))
    else if op == 0x6E then Val(Wrap32(Unsigned(a) / Unsigned(b)))
    else if op == 0x6F then Val(Wrap32(a - b * DivTrunc(a, b)))
    else Val(Wrap32(Unsigned(a) % Unsigned(b)))
  }

  /** Operands a plain instruction takes and leaves. */
  function OpArity(op: PlainOp): FuncType
  {
    match op
    case Nop => FuncType(0, 0)
    case Drop => FuncType(1, 0)
    case Select => FuncType(3, 1)
    case LocalGet(_) => FuncType(0, 1)
    case LocalSet(_) => FuncType(1, 0)
    case LocalTee(_) => FuncType(1, 1)
    case GlobalGet(_) => FuncType(0, 1)
    case GlobalSet(_) => FuncType(1, 0)
    case Const(_) => FuncType(0, 1)
    case Eqz => FuncType(1, 1)
    case Binary(_) => FuncType(2, 1)
  }

  /** The variable a plain instruction names exists. */
  predicate OpInScope(op: PlainOp, locals: nat, globals: nat)
  {
    match op
    case LocalGet(i) => U(i) < locals
    case LocalSet(i) => U(i) < locals
    case LocalTee(i) => U(i) < locals
    case GlobalGet(i) => U(i) < globals
    case GlobalSet(i) => U(i) < globals
    case Binary(b) => IsBinary(b)
    case _ => true
  }
}
