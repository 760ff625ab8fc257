// Function bodies: the structured syntax, the bytes it is encoded as, and the tables a loader derives from it.
module Bytecode {
  import opened Leb128

  /** An i32 slot of the value stack. */
  type Value = v: int | -TWO_31 <= v < TWO_31

  /** How many values a function or block takes and leaves. */
  datatype FuncType = FuncType(params: nat, results: nat)

  /** An immediate keeps the bytes it was written with: any legal LEB128 form, not only the shortest. */
  type Imm = seq<Byte>

  function U(imm: Imm): nat { U32At(imm, 0, |imm|) }

  function S(imm: Imm): Value { S32At(imm, 0, |imm|) }

  /** Every label depth is below `k`. */
  predicate TargetsInside(ts: seq<Imm>, k: nat)
  {
    ts == [] || (U(ts[0]) < k && TargetsInside(ts[1..], k))
  }

  /** Instructions without control flow. */
  datatype PlainOp =
    | Nop
    | Drop
    | Select
    | LocalGet(idx: Imm)
    | LocalSet(idx: Imm)
    | LocalTee(idx: Imm)
    | GlobalGet(idx: Imm)
    | GlobalSet(idx: Imm)
    | Const(imm: Imm)
    | Eqz
    | Binary(op: Byte)

  /** An instruction sequence: each cell holds one instruction and the rest of its sequence. */
  datatype Code =
    | End
    | Plain(op: PlainOp, next: Code)
    | Unreachable(next: Code)
    | Block(bt: Imm, body: Code, next: Code)
    | Loop(bt: Imm, body: Code, next: Code)
    | If(bt: Imm, thn: Code, next: Code)
    | IfElse(bt: Imm, thn: Code, els: Code, next: Code)
    | Br(depth: Imm, next: Code)
    | BrIf(depth: Imm, next: Code)
    | BrTable(count: Imm, targets: seq<Imm>, dflt: Imm, next: Code)
    | Return(next: Code)
    | Call(func: Imm, next: Code)

  /** The comparisons of two 32-bit integers, from i32.eq to i32.ge_u. */
  predicate IsComparison(op: Byte) { 0x46 <= op <= 0x4F }

  /** These and i32.add, sub, mul, div_s, div_u, rem_s and rem_u. */
  predicate IsBinary(op: Byte) { IsComparison(op) || 0x6A <= op <= 0x70 }

  /** Parameter and result counts of a block type: a value type, a type index, or empty. */
  function BlockArity(types: seq<FuncType>, bt: int): FuncType
  {
    if bt >= 0 then (if bt < |types| then types[bt] else FuncType(0, 0))
    else if bt >= -17 then FuncType(0, 1)
    else FuncType(0, 0)
  }

  // ----- encoding -----

  function OpBytes(op: PlainOp): (b: seq<Byte>)
    ensures |b| > 0
  {
    match op
    case Nop => [0x01]
    case Drop => [0x1A]
    case Select => [0x1B]
    case LocalGet(i) => [0x20] + i
    case LocalSet(i) => [0x21] + i
    case LocalTee(i) => [0x22] + i
    case GlobalGet(i) => [0x23] + i
    case GlobalSet(i) => [0x24] + i
    case Const(i) => [0x41] + i
    case Eqz => [0x45]
    case Binary(b) => [b]
  }

  function ImmBytes(imms: seq<Imm>): seq<Byte>
  {
    if imms == [] then [] else imms[0] + ImmBytes(imms[1..])
  }

  function Emit(c: Code): seq<Byte>
  {
    match c
    case End => []
    case Plain(op, next) => OpBytes(op) + Emit(next)
    case Unreachable(next) => [0x00] + Emit(next)
    case Block(bt, body, next) => EmitNest(0x02, bt, Emit(body), Emit(next))
    case Loop(bt, body, next) => EmitNest(0x03, bt, Emit(body), Emit(next))
    case If(bt, thn, next) => EmitNest(0x04, bt, Emit(thn), Emit(next))
    case IfElse(bt, thn, els, next) => EmitNest(0x04, bt, Emit(thn) + ([0x05] + Emit(els)), Emit(next))
    case Br(l, next) => [0x0C] + (l + Emit(next))
    case BrIf(l, next) => [0x0D] + (l + Emit(next))
    case BrTable(n, ts, d, next) => [0x0E] + (n + (ImmBytes(ts) + (d + Emit(next))))
    case Return(next) => [0x0F] + Emit(next)
    case Call(f, next) => [0x10] + (f + Emit(next))
  }

  function EmitNest(op: Byte, bt: Imm, inner: seq<Byte>, rest: seq<Byte>): seq<Byte>
  {
    [op] + (bt + (inner + ([0x0B] + rest)))
  }

  function ImmsSize(imms: seq<Imm>): nat
  {
    if imms == [] then 0 else |imms[0]| + ImmsSize(imms[1..])
  }

  /** Bytes occupied by a sequence, without the `end` or `else` that closes it. */
  function Size(c: Code): nat
  {
    match c
    case End => 0
    case Plain(op, next) => |OpBytes(op)| + Size(next)
    case Unreachable(next) => 1 + Size(next)
    case Block(bt, body, next) => 1 + |bt| + Size(body) + 1 + Size(next)
    case Loop(bt, body, next) => 1 + |bt| + Size(body) + 1 + Size(next)
    case If(bt, thn, next) => 1 + |bt| + Size(thn) + 1 + Size(next)
    case IfElse(bt, thn, els, next) => 1 + |bt| + Size(thn) + 1 + Size(els) + 1 + Size(next)
    case Br(l, next) => 1 + |l| + Size(next)
    case BrIf(l, next) => 1 + |l| + Size(next)
    case BrTable(n, ts, d, next) => 1 + |n| + ImmsSize(ts) + |d| + Size(next)
    case Return(next) => 1 + Size(next)
    case Call(f, next) => 1 + |f| + Size(next)
  }

  // ----- a sequence inside a byte string -----

  predicate ByteAt(code: seq<Byte>, p: nat, b: Byte) { p < |code| && code[p] == b }

  /** A legal 32-bit immediate stands at `p`. */
  predicate ImmAt(code: seq<Byte>, p: nat, imm: Imm) { Legal(imm, 5) && HasBytes(code, p, imm) }

  predicate ImmsAt(code: seq<Byte>, p: nat, imms: seq<Imm>)
    decreases |imms|
  {
    imms == [] || (ImmAt(code, p, imms[0]) && ImmsAt(code, p + |imms[0]|, imms[1..]))
  }

  predicate OpAt(code: seq<Byte>, p: nat, op: PlainOp)
  {
    match op
    case Nop => ByteAt(code, p, 0x01)
    case Drop => ByteAt(code, p, 0x1A)
    case Select => ByteAt(code, p, 0x1B)
    case LocalGet(i) => ByteAt(code, p, 0x20) && ImmAt(code, p + 1, i)
    case LocalSet(i) => ByteAt(code, p, 0x21) && ImmAt(code, p + 1, i)
    case LocalTee(i) => ByteAt(code, p, 0x22) && ImmAt(code, p + 1, i)
    case GlobalGet(i) => ByteAt(code, p, 0x23) && ImmAt(code, p + 1, i)
    case GlobalSet(i) => ByteAt(code, p, 0x24) && ImmAt(code, p + 1, i)
    case Const(i) => ByteAt(code, p, 0x41) && ImmAt(code, p + 1, i)
    case Eqz => ByteAt(code, p, 0x45)
    case Binary(b) => IsBinary(b) && ByteAt(code, p, b)
  }

  /** The well-encoded sequence `c` stands at `p`; `ClosedAt` says what must follow a nested one. */
  predicate CodeAt(code: seq<Byte>, p: nat, c: Code)
    decreases c
  {
    match c
    case End => p < |code|
    case Plain(op, next) => OpAt(code, p, op) && CodeAt(code, p + |OpBytes(op)|, next)
    case Unreachable(next) => ByteAt(code, p, 0x00) && CodeAt(code, p + 1, next)
    case Block(bt, body, next) =>
      && ByteAt(code, p, 0x02) && ImmAt(code, p + 1, bt)
      && CodeAt(code, p + 1 + |bt|, body) && ByteAt(code, p + 1 + |bt| + Size(body), 0x0B)
      && CodeAt(code, p + 1 + |bt| + Size(body) + 1, next)
    case Loop(bt, body, next) =>
      && ByteAt(code, p, 0x03) && ImmAt(code, p + 1, bt)
      && CodeAt(code, p + 1 + |bt|, body) && ByteAt(code, p + 1 + |bt| + Size(body), 0x0B)
      && CodeAt(code, p + 1 + |bt| + Size(body) + 1, next)
    case If(bt, thn, next) =>
      && ByteAt(code, p, 0x04) && ImmAt(code, p + 1, bt)
      && CodeAt(code, p + 1 + |bt|, thn) && ByteAt(code, p + 1 + |bt| + Size(thn), 0x0B)
      && CodeAt(code, p + 1 + |bt| + Size(thn) + 1, next)
    case IfElse(bt, thn, els, next) =>
      var q := p + 1 + |bt| + Size(thn) + 1;
      && ByteAt(code, p, 0x04) && ImmAt(code, p + 1, bt)
      && CodeAt(code, p + 1 + |bt|, thn) && ByteAt(code, q - 1, 0x05)
      && CodeAt(code, q, els) && ByteAt(code, q + Size(els), 0x0B)
      && CodeAt(code, q + Size(els) + 1, next)
    case Br(l, next) => ByteAt(code, p, 0x0C) && ImmAt(code, p + 1, l) && CodeAt(code, p + 1 + |l|, next)
    case BrIf(l, next) => ByteAt(code, p, 0x0D) && ImmAt(code, p + 1, l) && CodeAt(code, p + 1 + |l|, next)
    case BrTable(n, ts, d, next) =>
      && ByteAt(code, p, 0x0E) && ImmAt(code, p + 1, n) && U(n) == |ts|
      && ImmsAt(code, p + 1 + |n|, ts) && ImmAt(code, p + 1 + |n| + ImmsSize(ts), d)
      && CodeAt(code, p + 1 + |n| + ImmsSize(ts) + |d|, next)
    case Return(next) => ByteAt(code, p, 0x0F) && CodeAt(code, p + 1, next)
    case Call(f, next) => ByteAt(code, p, 0x10) && ImmAt(code, p + 1, f) && CodeAt(code, p + 1 + |f|, next)
  }

  /** A whole function body: the sequence and its final `end`. */
  predicate Encodes(code: seq<Byte>, c: Code)
  {
    CodeAt(code, 0, c) && ByteAt(code, Size(c), 0x0B) && |code| == Size(c) + 1
  }

  predicate ImmsLegal(imms: seq<Imm>)
  {
    imms == [] || (Legal(imms[0], 5) && ImmsLegal(imms[1..]))
  }

  predicate OpLegal(op: PlainOp)
  {
    match op
    case LocalGet(i) => Legal(i, 5)
    case LocalSet(i) => Legal(i, 5)
    case LocalTee(i) => Legal(i, 5)
    case GlobalGet(i) => Legal(i, 5)
    case GlobalSet(i) => Legal(i, 5)
    case Const(i) => Legal(i, 5)
    case Binary(b) => IsBinary(b)
    case _ => true
  }

  /** Every immediate of `c` is legal and every table count matches. */
  predicate WellFormed(c: Code)
  {
    match c
    case End => true
    case Plain(op, next) =>
      OpLegal(op) && WellFormed(next)
    case Unreachable(next) => WellFormed(next)
    case Block(bt, body, next) => Legal(bt, 5) && WellFormed(body) && WellFormed(next)
    case Loop(bt, body, next) => Legal(bt, 5) && WellFormed(body) && WellFormed(next)
    case If(bt, thn, next) => Legal(bt, 5) && WellFormed(thn) && WellFormed(next)
    case IfElse(bt, thn, els, next) => Legal(bt, 5) && WellFormed(thn) && WellFormed(els) && WellFormed(next)
    case Br(l, next) => Legal(l, 5) && WellFormed(next)
    case BrIf(l, next) => Legal(l, 5) && WellFormed(next)
    case BrTable(n, ts, d, next) =>
      Legal(n, 5) && U(n) == |ts| && ImmsLegal(ts) && Legal(d, 5) && WellFormed(next)
    case Return(next) => WellFormed(next)
    case Call(f, next) => Legal(f, 5) && WellFormed(next)
  }

  lemma {:induction false} SplitBytes(code: seq<Byte>, p: nat, a: seq<Byte>, b: seq<Byte>)
    requires HasBytes(code, p, a + b)
    ensures HasBytes(code, p, a) && HasBytes(code, p + |a|, b)
    decreases |a|
  {
    if a == [] {
      assert a + b == b;
    } else {
      assert (a + b)[1..] == a[1..] + b;
      SplitBytes(code, p + 1, a[1..], b);
    }
  }

  lemma FirstByte(code: seq<Byte>, p: nat, b: Byte, rest: seq<Byte>)
    requires HasBytes(code, p, [b] + rest)
    ensures ByteAt(code, p, b) && HasBytes(code, p + 1, rest)
  {
    assert ([b] + rest)[1..] == rest;
  }

  lemma {:induction false} ImmsEmitted(code: seq<Byte>, p: nat, imms: seq<Imm>)
    requires ImmsLegal(imms) && HasBytes(code, p, ImmBytes(imms))
    ensures |ImmBytes(imms)| == ImmsSize(imms) && ImmsAt(code, p, imms)
    decreases |imms|
  {
    if imms != [] {
      SplitBytes(code, p, imms[0], ImmBytes(imms[1..]));
      ImmsEmitted(code, p + |imms[0]|, imms[1..]);
    }
  }

  lemma ImmsEmittedSize(imms: seq<Imm>)
    ensures |ImmBytes(imms)| == ImmsSize(imms)
  {
  }

  lemma {:induction false} EmittedSize(c: Code)
    ensures |Emit(c)| == Size(c)
  {
    match c
    case End =>
    case Plain(op, next) => EmittedSize(next);
    case Unreachable(next) => EmittedSize(next);
    case Block(bt, body, next) => EmittedSize(body); EmittedSize(next);
    case Loop(bt, body, next) => EmittedSize(body); EmittedSize(next);
    case If(bt, thn, next) => EmittedSize(thn); EmittedSize(next);
    case IfElse(bt, thn, els, next) => EmittedSize(thn); EmittedSize(els); EmittedSize(next);
    case Br(l, next) => EmittedSize(next);
    case BrIf(l, next) => EmittedSize(next);
    case BrTable(n, ts, d, next) => ImmsEmittedSize(ts); EmittedSize(next);
    case Return(next) => EmittedSize(next);
    case Call(f, next) => EmittedSize(next);
  }

  lemma EmittedNest(code: seq<Byte>, p: nat, op: Byte, bt: Imm, inner: seq<Byte>, rest: seq<Byte>)
    requires HasBytes(code, p, EmitNest(op, bt, inner, rest))
    ensures ByteAt(code, p, op) && HasBytes(code, p + 1, bt) && HasBytes(code, p + 1 + |bt|, inner)
    ensures ByteAt(code, p + 1 + |bt| + |inner|, 0x0B) && HasBytes(code, p + 1 + |bt| + |inner| + 1, rest)
  {
    FirstByte(code, p, op, bt + (inner + ([0x0B] + rest)));
    SplitBytes(code, p + 1, bt, inner + ([0x0B] + rest));
    SplitBytes(code, p + 1 + |bt|, inner, [0x0B] + rest);
    FirstByte(code, p + 1 + |bt| + |inner|, 0x0B, rest);
  }

  lemma ImmEmitted(code: seq<Byte>, p: nat, op: Byte, imm: Imm, rest: seq<Byte>)
    requires HasBytes(code, p, [op] + (imm + rest))
    ensures ByteAt(code, p, op) && HasBytes(code, p + 1, imm) && HasBytes(code, p + 1 + |imm|, rest)
  {
    FirstByte(code, p, op, imm + rest);
    SplitBytes(code, p + 1, imm, rest);
  }

  lemma OpEmitted(code: seq<Byte>, p: nat, op: PlainOp, rest: seq<Byte>)
    requires HasBytes(code, p, OpBytes(op) + rest) && OpLegal(op)
    ensures OpAt(code, p, op) && HasBytes(code, p + |OpBytes(op)|, rest)
  {
    SplitBytes(code, p, OpBytes(op), rest);
    var bytes := OpBytes(op);
    assert bytes == [bytes[0]] + bytes[1..];
    FirstByte(code, p, bytes[0], bytes[1..]);
  }

  lemma IfElseEmitted(code: seq<Byte>, p: nat, bt: Imm, thn: seq<Byte>, els: seq<Byte>, rest: seq<Byte>)
    requires HasBytes(code, p, EmitNest(0x04, bt, thn + ([0x05] + els), rest))
    ensures ByteAt(code, p, 0x04) && HasBytes(code, p + 1, bt) && HasBytes(code, p + 1 + |bt|, thn)
    ensures var q := p + 1 + |bt| + |thn| + 1;
            && ByteAt(code, q - 1, 0x05) && HasBytes(code, q, els)
            && ByteAt(code, q + |els|, 0x0B) && HasBytes(code, q + |els| + 1, rest)
  {
    EmittedNest(code, p, 0x04, bt, thn + ([0x05] + els), rest);
    SplitBytes(code, p + 1 + |bt|, thn, [0x05] + els);
    FirstByte(code, p + 1 + |bt| + |thn|, 0x05, els);
    var q := p + 1 + |bt| + |thn| + 1;
    assert p + 1 + |bt| + |thn + ([0x05] + els)| == q + |els|;
  }

  lemma TargetsEmitted(code: seq<Byte>, p: nat, ts: seq<Imm>, d: Imm, rest: seq<Byte>)
    requires HasBytes(code, p, ImmBytes(ts) + (d + rest)) && ImmsLegal(ts)
    ensures ImmsAt(code, p, ts) && HasBytes(code, p + ImmsSize(ts), d) && HasBytes(code, p + ImmsSize(ts) + |d|, rest)
  {
    SplitBytes(code, p, ImmBytes(ts), d + rest);
    ImmsEmitted(code, p, ts);
    SplitBytes(code, p + ImmsSize(ts), d, rest);
  }

  /** Emitted bytes hold the sequence they were emitted from, wherever they stand. */
  lemma {:induction false} EmittedIsThere(code: seq<Byte>, p: nat, c: Code)
    requires WellFormed(c) && HasBytes(code, p, Emit(c)) && p + Size(c) < |code|
    ensures CodeAt(code, p, c)
    decreases c, 2
  {
    match c
    case End =>
    case Plain(_, _) => EmittedPlain(code, p, c);
    case Unreachable(_) => EmittedBare(code, p, c);
    case Block(_, _, _) => EmittedBlock(code, p, c);
    case Loop(_, _, _) => EmittedLoop(code, p, c);
    case If(_, _, _) => EmittedIf(code, p, c);
    case IfElse(_, _, _, _) => EmittedIfElse(code, p, c);
    case Br(_, _) => EmittedBr(code, p, c);
    case BrIf(_, _) => EmittedBrIf(code, p, c);
    case BrTable(_, _, _, _) => EmittedTable(code, p, c);
    case Return(_) => EmittedBare(code, p, c);
    case Call(_, _) => EmittedCall(code, p, c);
  }

  lemma {:induction false} EmittedPlain(code: seq<Byte>, p: nat, c: Code)
    requires c.Plain? && WellFormed(c) && HasBytes(code, p, Emit(c)) && p + Size(c) < |code|
    ensures CodeAt(code, p, c)
    decreases c, 1
  {
    OpEmitted(code, p, c.op, Emit(c.next));
    EmittedNext(code, p + |OpBytes(c.op)|, c, c.next);
  }

  lemma {:induction false} EmittedBare(code: seq<Byte>, p: nat, c: Code)
    requires (c.Unreachable? || c.Return?) && WellFormed(c) && HasBytes(code, p, Emit(c)) && p + Size(c) < |code|
    ensures CodeAt(code, p, c)
    decreases c, 1
  {
    FirstByte(code, p, if c.Return? then 0x0F else 0x00, Emit(c.next));
    EmittedNext(code, p + 1, c, c.next);
  }

  lemma {:induction false} EmittedBr(code: seq<Byte>, p: nat, c: Code)
    requires c.Br? && WellFormed(c) && HasBytes(code, p, Emit(c)) && p + Size(c) < |code|
    ensures CodeAt(code, p, c)
    decreases c, 1
  {
    ImmEmitted(code, p, 0x0C, c.depth, Emit(c.next));
    EmittedNext(code, p + 1 + |c.depth|, c, c.next);
  }

  lemma {:induction false} EmittedBrIf(code: seq<Byte>, p: nat, c: Code)
    requires c.BrIf? && WellFormed(c) && HasBytes(code, p, Emit(c)) && p + Size(c) < |code|
    ensures CodeAt(code, p, c)
    decreases c, 1
  {
    ImmEmitted(code, p, 0x0D, c.depth, Emit(c.next));
    EmittedNext(code, p + 1 + |c.depth|, c, c.next);
  }

  lemma {:induction false} EmittedCall(code: seq<Byte>, p: nat, c: Code)
    requires c.Call? && WellFormed(c) && HasBytes(code, p, Emit(c)) && p + Size(c) < |code|
    ensures CodeAt(code, p, c)
    decreases c, 1
  {
    ImmEmitted(code, p, 0x10, c.func, Emit(c.next));
    EmittedNext(code, p + 1 + |c.func|, c, c.next);
  }

  lemma {:induction false} EmittedBlock(code: seq<Byte>, p: nat, c: Code)
    requires c.Block? && WellFormed(c) && HasBytes(code, p, Emit(c)) && p + Size(c) < |code|
    ensures CodeAt(code, p, c)
    decreases c, 1
  {
    EmittedNested(code, p, 0x02, c.bt, c.body, c, c.next);
  }

  lemma {:induction false} EmittedLoop(code: seq<Byte>, p: nat, c: Code)
    requires c.Loop? && WellFormed(c) && HasBytes(code, p, Emit(c)) && p + Size(c) < |code|
    ensures CodeAt(code, p, c)
    decreases c, 1
  {
    EmittedNested(code, p, 0x03, c.bt, c.body, c, c.next);
  }

  lemma {:induction false} EmittedIf(code: seq<Byte>, p: nat, c: Code)
    requires c.If? && WellFormed(c) && HasBytes(code, p, Emit(c)) && p + Size(c) < |code|
    ensures CodeAt(code, p, c)
    decreases c, 1
  {
    EmittedNested(code, p, 0x04, c.bt, c.thn, c, c.next);
  }

  lemma {:induction false} EmittedIfElse(code: seq<Byte>, p: nat, c: Code)
    requires c.IfElse? && WellFormed(c) && HasBytes(code, p, Emit(c)) && p + Size(c) < |code|
    ensures CodeAt(code, p, c)
    decreases c, 1
  {
    hide HasBytes, Legal, CodeAt, Size, Emit, EmitNest, WellFormed;
    var IfElse(bt, thn, els, next) := c;
    EmittedSize(thn);
    EmittedSize(els);
    IfElseForm(code, p, c);
    IfElseEmitted(code, p, bt, Emit(thn), Emit(els), Emit(next));
    var q := p + 1 + |bt| + Size(thn) + 1;
    EmittedNext(code, p + 1 + |bt|, c, thn);
    EmittedNext(code, q, c, els);
    EmittedNext(code, q + Size(els) + 1, c, next);
    IfElseThere(code, p, c);
  }

  lemma IfElseForm(code: seq<Byte>, p: nat, c: Code)
    requires c.IfElse? && WellFormed(c)
    ensures WellFormed(c.thn) && WellFormed(c.els) && WellFormed(c.next) && Legal(c.bt, 5)
    ensures Size(c) == 1 + |c.bt| + Size(c.thn) + 1 + Size(c.els) + 1 + Size(c.next)
    ensures Emit(c) == EmitNest(0x04, c.bt, Emit(c.thn) + ([0x05] + Emit(c.els)), Emit(c.next))
  {
    hide HasBytes, Legal;
  }

  lemma IfElseThere(code: seq<Byte>, p: nat, c: Code)
    requires c.IfElse? && ByteAt(code, p, 0x04) && ImmAt(code, p + 1, c.bt)
    requires var q := p + 1 + |c.bt| + Size(c.thn) + 1;
             && CodeAt(code, p + 1 + |c.bt|, c.thn) && ByteAt(code, q - 1, 0x05)
             && CodeAt(code, q, c.els) && ByteAt(code, q + Size(c.els), 0x0B) && CodeAt(code, q + Size(c.els) + 1, c.next)
    ensures CodeAt(code, p, c)
  {
    hide HasBytes, Legal, ImmAt;
  }

  lemma {:induction false} EmittedTable(code: seq<Byte>, p: nat, c: Code)
    requires c.BrTable? && WellFormed(c) && HasBytes(code, p, Emit(c)) && p + Size(c) < |code|
    ensures CodeAt(code, p, c)
    decreases c, 1
  {
    var BrTable(n, ts, d, next) := c;
    var tail := ImmBytes(ts) + (d + Emit(next));
    ImmEmitted(code, p, 0x0E, n, tail);
    TargetsEmitted(code, p + 1 + |n|, ts, d, Emit(next));
    EmittedNext(code, p + 1 + |n| + ImmsSize(ts) + |d|, c, next);
  }

  /** The inductive step on one component of `whole`. */
  lemma {:induction false} EmittedNext(code: seq<Byte>, p: nat, whole: Code, c: Code)
    requires c < whole && WellFormed(c) && HasBytes(code, p, Emit(c)) && p + Size(c) < |code|
    ensures CodeAt(code, p, c)
    decreases whole, 0
  {
    EmittedIsThere(code, p, c);
  }

  lemma {:induction false} EmittedNested(code: seq<Byte>, p: nat, op: Byte, bt: Imm, body: Code, whole: Code, next: Code)
    requires body < whole && next < whole && WellFormed(body) && WellFormed(next)
    requires HasBytes(code, p, EmitNest(op, bt, Emit(body), Emit(next)))
    requires p + 1 + |bt| + Size(body) + 1 + Size(next) < |code|
    ensures ByteAt(code, p, op) && HasBytes(code, p + 1, bt) && CodeAt(code, p + 1 + |bt|, body)
    ensures ByteAt(code, p + 1 + |bt| + Size(body), 0x0B) && CodeAt(code, p + 1 + |bt| + Size(body) + 1, next)
    decreases whole, 0
  {
    hide HasBytes, CodeAt, Emit, Size, WellFormed, EmitNest;
    EmittedSize(body);
    EmittedNest(code, p, op, bt, Emit(body), Emit(next));
    EmittedIsThere(code, p + 1 + |bt|, body);
    EmittedIsThere(code, p + 1 + |bt| + Size(body) + 1, next);
  }

  lemma Prefix(code: seq<Byte>, a: seq<Byte>, b: seq<Byte>)
    requires code == a + b
    ensures HasBytes(code, 0, a)
  {
    Itself(code, 0);
    assert code[0..] == code;
    SplitBytes(code, 0, a, b);
  }

  lemma {:induction false} Itself(code: seq<Byte>, p: nat)
    requires p <= |code|
    ensures HasBytes(code, p, code[p..])
    decreases |code| - p
  {
    if p < |code| {
      Itself(code, p + 1);
      assert code[p..][1..] == code[p + 1..];
    }
  }

  /** Every well-formed sequence has a well-encoded body. */
  lemma EmitEncodes(c: Code)
    requires WellFormed(c)
    ensures Encodes(Emit(c) + [0x0B], c)
  {
    var code := Emit(c) + [0x0B];
    Prefix(code, Emit(c), [0x0B]);
    EmittedSize(c);
    EmittedIsThere(code, 0, c);
  }
}
