// What the loader's pass computes on a well-encoded body: the jump table is the structural one, the label and entry
// counts are the nesting depth and the number of blocks and ifs, and the marks are the heights validity assigns.
module ScanProof {
  import opened Leb128
  import opened Bytecode
  import opened Runtime
  import opened Validity
  import opened Flat
  import opened Scan
  import opened Simulation

  /** Labels open at once inside `c`. */
  function Depth(c: Code): nat
  {
    match c
    case End => 0
    case Plain(_, next) => Depth(next)
    case Unreachable(next) => Depth(next)
    case Block(_, body, next) => Max(1 + Depth(body), Depth(next))
    case Loop(_, body, next) => Max(1 + Depth(body), Depth(next))
    case If(_, thn, next) => Max(1 + Depth(thn), Depth(next))
    case IfElse(_, thn, els, next) => Max(1 + Max(Depth(thn), Depth(els)), Depth(next))
    case Br(_, next) => Depth(next)
    case BrIf(_, next) => Depth(next)
    case BrTable(_, _, _, next) => Depth(next)
    case Return(next) => Depth(next)
    case Call(_, next) => Depth(next)
  }

  /** One entry per block and if, in the order of their bodies. */
  function Table(c: Code, p: nat): seq<JumpEntry>
  {
    match c
    case End => []
    case Plain(op, next) => Table(next, p + |OpBytes(op)|)
    case Unreachable(next) => Table(next, p + 1)
    case Block(bt, body, next) =>
      var p1 := p + 1 + |bt|;
      [JumpEntry(p1, p1 + Size(body) + 1, 0)] + Table(body, p1) + Table(next, p1 + Size(body) + 1)
    case Loop(bt, body, next) => Table(body, p + 1 + |bt|) + Table(next, p + 1 + |bt| + Size(body) + 1)
    case If(bt, thn, next) =>
      var p1 := p + 1 + |bt|;
      [JumpEntry(p1, p1 + Size(thn) + 1, 0)] + Table(thn, p1) + Table(next, p1 + Size(thn) + 1)
    case IfElse(bt, thn, els, next) =>
      var p1 := p + 1 + |bt|;
      var p2 := p1 + Size(thn) + 1;
      [JumpEntry(p1, p2 + Size(els) + 1, p2)] + (Table(thn, p1) + Table(els, p2)) + Table(next, p2 + Size(els) + 1)
    case Br(l, next) => Table(next, p + 1 + |l|)
    case BrIf(l, next) => Table(next, p + 1 + |l|)
    case BrTable(n, ts, d, next) => Table(next, p + 1 + |n| + ImmsSize(ts) + |d|)
    case Return(next) => Table(next, p + 1)
    case Call(f, next) => Table(next, p + 1 + |f|)
  }

  /** No state from `v` on holds more than `labels` labels or `entries` jump entries. */
  predicate Fits(cx: Context, code: seq<Byte>, v: ScanState, labels: nat, entries: nat)
    decreases |code| - v.ip
  {
    && |v.labels| <= labels && |v.jumps| <= entries
    && (v.ip < |code| ==>
          var r := ScanStep(cx, code, v);
          r.Ok? ==> v.ip < r.v.ip <= |code| && Fits(cx, code, r.v, labels, entries))
  }

  /** `r` is where the pass stands behind a sequence begun in `v`, or its rejection on the way. */
  ghost predicate Passes(cx: Context, code: seq<Byte>, v: ScanState, r: ScanResult, labels: nat, entries: nat)
  {
    match r
    case Rejected => ScanRun(cx, code, v).Rejected? && Fits(cx, code, v, labels, entries)
    case Ok(v') =>
      && ScanRun(cx, code, v) == ScanRun(cx, code, v')
      && (Fits(cx, code, v', labels, entries) ==> Fits(cx, code, v, labels, entries))
      && v.ip <= v'.ip <= |code|
      && (|v.labels| <= v.maxLabels ==> |v'.labels| <= v'.maxLabels)
  }

  lemma PassesStep(cx: Context, code: seq<Byte>, v: ScanState, labels: nat, entries: nat)
    requires v.ip < |code| && |v.labels| <= labels && |v.jumps| <= entries
    ensures Passes(cx, code, v, ScanStep(cx, code, v), labels, entries)
  {
    hide ScanStep;
    StepExtends(cx, code, v);
  }

  lemma PassesThen(cx: Context, code: seq<Byte>, v: ScanState, r: ScanResult, r': ScanResult, labels: nat, entries: nat)
    requires Passes(cx, code, v, r, labels, entries)
    requires r.Ok? ==> Passes(cx, code, r.v, r', labels, entries)
    requires r.Rejected? ==> r'.Rejected?
    ensures Passes(cx, code, v, r', labels, entries)
  {
    hide ScanStep, ScanRun, Fits;
  }

  /** Behind a sequence: same labels, and its structural table appended. */
  predicate Lands(v: ScanState, c: Code, r: ScanResult)
  {
    r.Ok? ==>
      && r.v.ip == v.ip + Size(c) && r.v.labels == v.labels
      && r.v.jumps == v.jumps + Table(c, v.ip)
  }

  /** The bounds a sequence needs when begun in `v`. */
  predicate Enough(v: ScanState, c: Code, labels: nat, entries: nat)
  {
    |v.labels| + Depth(c) <= labels && |v.jumps| + |Table(c, v.ip)| <= entries
  }

  /** The pass over a nested or remaining sequence of a well-encoded body. */
  lemma {:induction false} ScanCode(cx: Context, code: seq<Byte>, c: Code, v: ScanState, labels: nat, entries: nat) returns (r: ScanResult)
    requires CodeAt(code, v.ip, c) && Enough(v, c, labels, entries)
    ensures Passes(cx, code, v, r, labels, entries) && Lands(v, c, r)
    decreases c, 1, 0
  {
    hide Passes, Enough, U, S, OpAt, OpBytes, ImmAt, ImmsAt, ScanStep, Table, CodeAt;
    match c
    case End =>
      r := Ok(v);
      EndInside(code, v.ip);
      PassesSelf(cx, code, v, labels, entries);
      TableOfEnd(v.ip);
    case Block(_, _, _) => r := ScanNest(cx, code, c, v, labels, entries);
    case Loop(_, _, _) => r := ScanNest(cx, code, c, v, labels, entries);
    case If(_, _, _) => r := ScanNest(cx, code, c, v, labels, entries);
    case IfElse(_, _, _, _) => r := ScanIfElse(cx, code, c, v, labels, entries);
    case _ => r := ScanSimple(cx, code, c, v, labels, entries);
  }

  lemma EndInside(code: seq<Byte>, p: nat)
    requires CodeAt(code, p, End)
    ensures p < |code|
  {
  }

  lemma TableOfEnd(p: nat)
    ensures Table(End, p) == []
  {
  }

  lemma PassesSelf(cx: Context, code: seq<Byte>, v: ScanState, labels: nat, entries: nat)
    requires v.ip <= |code|
    ensures Passes(cx, code, v, Ok(v), labels, entries)
  {
    hide ScanStep, ScanRun, Fits;
  }

  predicate IsNest(c: Code) { c.Block? || c.Loop? || c.If? || c.IfElse? }

  /** Bytes of the first instruction when it is not a block. */
  function HeadSize(c: Code): nat
    requires !c.End? && !IsNest(c)
  {
    match c
    case Plain(op, _) => |OpBytes(op)|
    case Unreachable(_) => 1
    case Br(l, _) => 1 + |l|
    case BrIf(l, _) => 1 + |l|
    case BrTable(n, ts, d, _) => 1 + |n| + ImmsSize(ts) + |d|
    case Return(_) => 1
    case Call(f, _) => 1 + |f|
  }

  lemma {:induction false} TargetsScanned(code: seq<Byte>, ts: seq<Imm>, d: Imm, v: ScanState)
    requires ImmsAt(code, v.ip, ts) && ImmAt(code, v.ip + ImmsSize(ts), d)
    ensures v.ip <= |code|
    ensures var r := ScanTargets(code, v, |ts|); r.Ok? ==> r.v == v.(ip := v.ip + ImmsSize(ts) + |d|)
    decreases |ts|
  {
    hide U, S;
    if ts == [] {
      ImmScanned(code, v.ip, d);
    } else {
      ImmScanned(code, v.ip, ts[0]);
      TargetsScanned(code, ts[1..], d, v.(ip := v.ip + |ts[0]|));
    }
  }

  lemma ScanHeadOp(cx: Context, code: seq<Byte>, op: PlainOp, v: ScanState)
    requires OpAt(code, v.ip, op) && v.ip < |code|
    ensures var r := ScanStep(cx, code, v);
            r.Ok? ==> r.v.ip == v.ip + |OpBytes(op)| && r.v.labels == v.labels && r.v.jumps == v.jumps
  {
    hide U, S, UAt, SAt, ImmAt, ULen;
    match op
    case LocalGet(i) => ImmScanned(code, v.ip + 1, i);
    case LocalSet(i) => ImmScanned(code, v.ip + 1, i);
    case LocalTee(i) => ImmScanned(code, v.ip + 1, i);
    case GlobalGet(i) => ImmScanned(code, v.ip + 1, i);
    case GlobalSet(i) => ImmScanned(code, v.ip + 1, i);
    case Const(i) => ImmScanned(code, v.ip + 1, i);
    case _ =>
  }

  lemma ScanHead(cx: Context, code: seq<Byte>, c: Code, v: ScanState)
    requires !c.End? && !IsNest(c) && CodeAt(code, v.ip, c)
    ensures v.ip < |code|
    ensures var r := ScanStep(cx, code, v);
            r.Ok? ==> r.v.ip == v.ip + HeadSize(c) && r.v.labels == v.labels && r.v.jumps == v.jumps
  {
    hide U, S, UAt, SAt, ImmAt, ImmsAt, ULen, OpAt, OpBytes, ScanTargets, HasBytes;
    match c
    case Plain(op, _) => PlainInside(code, v.ip, op); ScanHeadPlain(cx, code, c, v);
    case Br(l, _) => ImmScanned(code, v.ip + 1, l);
    case BrIf(l, _) => ImmScanned(code, v.ip + 1, l);
    case BrTable(n, ts, d, _) =>
      ImmScanned(code, v.ip + 1, n);
      TargetsScanned(code, ts, d, Noted(v).(ip := v.ip + 1 + |n|));
    case Call(f, _) => ImmScanned(code, v.ip + 1, f);
    case _ =>
  }

  lemma ScanHeadPlain(cx: Context, code: seq<Byte>, c: Code, v: ScanState)
    requires c.Plain? && OpAt(code, v.ip, c.op) && v.ip < |code|
    ensures var r := ScanStep(cx, code, v);
            r.Ok? ==> r.v.ip == v.ip + HeadSize(c) && r.v.labels == v.labels && r.v.jumps == v.jumps
  {
    hide ScanStep, OpAt, OpBytes;
    ScanHeadOp(cx, code, c.op, v);
  }

  lemma PlainInside(code: seq<Byte>, p: nat, op: PlainOp)
    requires OpAt(code, p, op)
    ensures p < |code|
  {
    hide ImmAt;
  }

  lemma SimpleShape(c: Code, p: nat)
    requires !c.End? && !IsNest(c)
    ensures Size(c) == HeadSize(c) + Size(c.next) && Table(c, p) == Table(c.next, p + HeadSize(c)) && Depth(c) == Depth(c.next)
    ensures HeadSize(c) > 0
  {
    hide OpBytes;
  }

  lemma NestShape(c: Code, p: nat)
    requires c.Block? || c.Loop? || c.If?
    ensures var p1 := p + 1 + |c.bt|;
            var q := p1 + Size(NestBody(c));
            && Size(c) == 1 + |c.bt| + Size(NestBody(c)) + 1 + Size(c.next)
            && Table(c, p) == (if c.Loop? then [] else [JumpEntry(p1, q + 1, 0)]) + Table(NestBody(c), p1) + Table(c.next, q + 1)
            && Depth(NestBody(c)) + 1 <= Depth(c) && Depth(c.next) <= Depth(c)
  {
    if c.Loop? {
      var t := Table(c.body, p + 1 + |c.bt|);
      assert [] + t == t;
    }
  }

  lemma IfElseShape(c: Code, p: nat)
    requires c.IfElse?
    ensures var p1 := p + 1 + |c.bt|;
            var p2 := p1 + Size(c.thn) + 1;
            var q := p2 + Size(c.els);
            && Size(c) == 1 + |c.bt| + Size(c.thn) + 1 + Size(c.els) + 1 + Size(c.next)
            && Table(c, p) == [JumpEntry(p1, q + 1, p2)] + (Table(c.thn, p1) + Table(c.els, p2)) + Table(c.next, q + 1)
            && Depth(c.thn) + 1 <= Depth(c) && Depth(c.els) + 1 <= Depth(c) && Depth(c.next) <= Depth(c)
  {
  }

  lemma SimpleNext(code: seq<Byte>, c: Code, p: nat)
    requires !c.End? && !IsNest(c) && CodeAt(code, p, c)
    ensures CodeAt(code, p + HeadSize(c), c.next)
  {
    hide OpAt, OpBytes, ImmAt, ImmsAt, ByteAt, U;
  }

  lemma {:induction false} ScanSimple(cx: Context, code: seq<Byte>, c: Code, v: ScanState, labels: nat, entries: nat) returns (r: ScanResult)
    requires !c.End? && !IsNest(c) && CodeAt(code, v.ip, c) && Enough(v, c, labels, entries)
    ensures Passes(cx, code, v, r, labels, entries) && Lands(v, c, r)
    decreases c, 0, 0
  {
    hide Passes, U, S, OpAt, OpBytes, ImmAt, ImmsAt, ScanStep, Table, CodeAt, Size, Depth, HeadSize;
    ScanHead(cx, code, c, v);
    SimpleNext(code, c, v.ip);
    SimpleShape(c, v.ip);
    var r1 := ScanStep(cx, code, v);
    PassesStep(cx, code, v, labels, entries);
    if r1.Rejected? {
      r := r1;
    } else {
      r := ScanCode(cx, code, c.next, r1.v, labels, entries);
      PassesThen(cx, code, v, r1, r, labels, entries);
    }
  }

  // ----- nested sequences -----

  function NestBody(c: Code): Code
    requires c.Block? || c.Loop? || c.If?
  {
    if c.If? then c.thn else c.body
  }

  /** The entry a block or if opens; loops have none. */
  function NewEntries(c: Code, p1: nat): seq<JumpEntry>
    requires IsNest(c)
  {
    if c.Loop? then [] else [JumpEntry(p1, 0, 0)]
  }

  /** Opening a block, loop or if. */
  lemma ScanOpen(cx: Context, code: seq<Byte>, c: Code, v: ScanState)
    requires IsNest(c) && CodeAt(code, v.ip, c)
    ensures v.ip < |code|
    ensures var r, p1 := ScanStep(cx, code, v), v.ip + 1 + |c.bt|;
            r.Ok? ==>
              && r.v.ip == p1 && r.v.jumps == v.jumps + NewEntries(c, p1)
              && |r.v.labels| == |v.labels| + 1 && r.v.labels[..|v.labels|] == v.labels
              && r.v.labels[|v.labels|].jump == (if c.Loop? then -1 else |v.jumps|)
              && r.v.labels[|v.labels|].results == BlockArity(cx.types, S(c.bt)).results
  {
    hide U, S, UAt, SAt, ImmAt, ULen, BlockArity;
    assert ImmAt(code, v.ip + 1, c.bt);
    ImmScanned(code, v.ip + 1, c.bt);
  }

  /** `end` closes the innermost label and completes its entry. */
  lemma ScanClose(cx: Context, code: seq<Byte>, v: ScanState)
    requires ByteAt(code, v.ip, 0x0B) && v.labels != []
    ensures v.ip < |code|
    ensures var r, l := ScanStep(cx, code, v), v.labels[|v.labels| - 1];
            && r.Ok? && r.v.ip == v.ip + 1 && r.v.labels == v.labels[..|v.labels| - 1]
            && r.v.jumps == (if 0 <= l.jump < |v.jumps| then v.jumps[l.jump := v.jumps[l.jump].(end := v.ip + 1)] else v.jumps)
            && r.v.depth == l.entry + l.results && !r.v.unreachable
  {
    hide UAt, SAt, ULen, ScanBlock, ScanIf, ScanBranch, ScanCall, ScanVariable;
  }

  lemma ScanMiddle(cx: Context, code: seq<Byte>, v: ScanState)
    requires ByteAt(code, v.ip, 0x05) && v.labels != []
    ensures v.ip < |code|
    ensures var r, l := ScanStep(cx, code, v), v.labels[|v.labels| - 1];
            && r.Ok? && r.v.ip == v.ip + 1 && r.v.labels == v.labels
            && r.v.jumps == (if 0 <= l.jump < |v.jumps| then v.jumps[l.jump := v.jumps[l.jump].(els := v.ip + 1)] else v.jumps)
            && r.v.depth == l.entry && !r.v.unreachable
  {
    hide UAt, SAt, ULen, ScanBlock, ScanIf, ScanBranch, ScanCall, ScanVariable;
  }

  lemma NestParts(code: seq<Byte>, c: Code, p: nat)
    requires (c.Block? || c.Loop? || c.If?) && CodeAt(code, p, c)
    ensures var p1 := p + 1 + |c.bt|;
            var q := p1 + Size(NestBody(c));
            CodeAt(code, p1, NestBody(c)) && ByteAt(code, q, 0x0B) && CodeAt(code, q + 1, c.next)
  {
    hide ImmAt, U, Size;
  }

  lemma {:induction false} ScanNest(cx: Context, code: seq<Byte>, c: Code, v: ScanState, labels: nat, entries: nat) returns (r: ScanResult)
    requires (c.Block? || c.Loop? || c.If?) && CodeAt(code, v.ip, c) && Enough(v, c, labels, entries)
    ensures Passes(cx, code, v, r, labels, entries) && Lands(v, c, r)
    decreases c, 0, 0
  {
    hide Passes, U, S, BlockArity, ImmAt, ScanStep, Table, CodeAt, Size, Depth;
    NestParts(code, c, v.ip);
    NestShape(c, v.ip);
    ScanOpen(cx, code, c, v);
    PassesStep(cx, code, v, labels, entries);
    var r1 := ScanStep(cx, code, v);
    if r1.Rejected? { return r1; }
    var r2 := ScanCode(cx, code, NestBody(c), r1.v, labels, entries);
    PassesThen(cx, code, v, r1, r2, labels, entries);
    if r2.Rejected? { return r2; }
    ScanClose(cx, code, r2.v);
    TableFits(v.jumps, c, v.ip + 1 + |c.bt|, r2.v.ip + 1, Table(NestBody(c), v.ip + 1 + |c.bt|), Table(c.next, r2.v.ip + 1));
    PassesStep(cx, code, r2.v, labels, entries);
    var r3 := ScanStep(cx, code, r2.v);
    PassesThen(cx, code, v, r2, r3, labels, entries);
    r := ScanCode(cx, code, c.next, r3.v, labels, entries);
    PassesThen(cx, code, v, r3, r, labels, entries);
  }

  /** Completing the entry at the front of a nested table. */
  lemma TableFits(prior: seq<JumpEntry>, c: Code, p1: nat, end: nat, body: seq<JumpEntry>, rest: seq<JumpEntry>)
    requires c.Block? || c.Loop? || c.If?
    ensures var j := prior + NewEntries(c, p1) + body;
            var head := if c.Loop? then [] else [JumpEntry(p1, end, 0)];
            && |j| + |rest| == |prior| + |head + body + rest|
            && (c.Loop? ==> j + rest == prior + (head + body + rest))
            && (!c.Loop? ==> |prior| < |j| && j[|prior| := j[|prior|].(end := end)] + rest == prior + (head + body + rest))
  {
  }

  lemma IfElseParts(code: seq<Byte>, c: Code, p: nat)
    requires c.IfElse? && CodeAt(code, p, c)
    ensures var p1 := p + 1 + |c.bt|;
            var p2 := p1 + Size(c.thn) + 1;
            var q := p2 + Size(c.els);
            && CodeAt(code, p1, c.thn) && ByteAt(code, p2 - 1, 0x05) && CodeAt(code, p2, c.els)
            && ByteAt(code, q, 0x0B) && CodeAt(code, q + 1, c.next)
  {
    hide ImmAt, U, Size;
  }

  /** From an if with else to the first byte of its else arm: the entry has its else offset. */
  lemma {:induction false} ScanThenArm(cx: Context, code: seq<Byte>, c: Code, v: ScanState, labels: nat, entries: nat) returns (r: ScanResult)
    requires c.IfElse? && CodeAt(code, v.ip, c) && Enough(v, c, labels, entries)
    ensures Passes(cx, code, v, r, labels, entries)
    ensures var p1 := v.ip + 1 + |c.bt|;
            r.Ok? ==>
              && r.v.ip == p1 + Size(c.thn) + 1
              && r.v.jumps == v.jumps + [JumpEntry(p1, 0, r.v.ip)] + Table(c.thn, p1)
              && |r.v.labels| == |v.labels| + 1 && r.v.labels[..|v.labels|] == v.labels
              && r.v.labels[|v.labels|].jump == |v.jumps|
    decreases c, 0, 0
  {
    hide Passes, U, S, BlockArity, ImmAt, ScanStep, Table, CodeAt, Size, Depth;
    var p1 := v.ip + 1 + |c.bt|;
    IfElseParts(code, c, v.ip);
    IfElseShape(c, v.ip);
    ScanOpen(cx, code, c, v);
    PassesStep(cx, code, v, labels, entries);
    var r1 := ScanStep(cx, code, v);
    if r1.Rejected? { return r1; }
    var r2 := ScanCode(cx, code, c.thn, r1.v, labels, entries);
    PassesThen(cx, code, v, r1, r2, labels, entries);
    if r2.Rejected? { return r2; }
    ScanMiddle(cx, code, r2.v);
    PatchElse(v.jumps, p1, r2.v.ip + 1, Table(c.thn, p1));
    PassesStep(cx, code, r2.v, labels, entries);
    r := ScanStep(cx, code, r2.v);
    PassesThen(cx, code, v, r2, r, labels, entries);
  }

  lemma PatchElse(prior: seq<JumpEntry>, p1: nat, p2: nat, thn: seq<JumpEntry>)
    ensures var j := prior + [JumpEntry(p1, 0, 0)] + thn;
            |prior| < |j| && j[|prior| := j[|prior|].(els := p2)] == prior + [JumpEntry(p1, 0, p2)] + thn
  {
  }

  lemma PatchEnd(prior: seq<JumpEntry>, p1: nat, p2: nat, end: nat, thn: seq<JumpEntry>, els: seq<JumpEntry>, rest: seq<JumpEntry>)
    ensures var j := prior + [JumpEntry(p1, 0, p2)] + thn + els;
            && |prior| < |j| && |j| + |rest| == |prior + ([JumpEntry(p1, end, p2)] + (thn + els) + rest)|
            && j[|prior| := j[|prior|].(end := end)] + rest == prior + ([JumpEntry(p1, end, p2)] + (thn + els) + rest)
  {
  }

  lemma {:induction false} ScanIfElse(cx: Context, code: seq<Byte>, c: Code, v: ScanState, labels: nat, entries: nat) returns (r: ScanResult)
    requires c.IfElse? && CodeAt(code, v.ip, c) && Enough(v, c, labels, entries)
    ensures Passes(cx, code, v, r, labels, entries) && Lands(v, c, r)
    decreases c, 0, 1
  {
    hide Passes, U, S, BlockArity, ImmAt, ScanStep, Table, CodeAt, Size, Depth;
    var p1 := v.ip + 1 + |c.bt|;
    IfElseParts(code, c, v.ip);
    IfElseShape(c, v.ip);
    var r3 := ScanThenArm(cx, code, c, v, labels, entries);
    if r3.Rejected? { return r3; }
    var p2, q := r3.v.ip, r3.v.ip + Size(c.els) + 1;
    PatchEnd(v.jumps, p1, p2, q, Table(c.thn, p1), Table(c.els, p2), Table(c.next, q));
    var r4 := ScanCode(cx, code, c.els, r3.v, labels, entries);
    PassesThen(cx, code, v, r3, r4, labels, entries);
    if r4.Rejected? { return r4; }
    ScanClose(cx, code, r4.v);
    PassesStep(cx, code, r4.v, labels, entries);
    var r5 := ScanStep(cx, code, r4.v);
    PassesThen(cx, code, v, r4, r5, labels, entries);
    r := ScanCode(cx, code, c.next, r5.v, labels, entries);
    PassesThen(cx, code, v, r5, r, labels, entries);
  }

  // ----- the table is sorted, so every lookup finds its own entry -----

  /** All bodies of `t` start in [lo, hi). */
  predicate BodiesIn(t: seq<JumpEntry>, lo: nat, hi: nat)
  {
    forall i :: 0 <= i < |t| ==> lo <= t[i].body < hi
  }

  predicate StrictlyIncreasing(t: seq<JumpEntry>)
  {
    forall i, j :: 0 <= i < j < |t| ==> t[i].body < t[j].body
  }

  lemma IncreasingJoin(a: seq<JumpEntry>, b: seq<JumpEntry>, lo: nat, mid: nat, hi: nat)
    requires StrictlyIncreasing(a) && StrictlyIncreasing(b) && BodiesIn(a, lo, mid) && BodiesIn(b, mid, hi) && lo <= mid <= hi
    ensures StrictlyIncreasing(a + b) && BodiesIn(a + b, lo, hi)
  {
  }

  lemma Widen(a: seq<JumpEntry>, lo: nat, hi: nat, lo': nat, hi': nat)
    requires BodiesIn(a, lo, hi) && lo' <= lo && hi <= hi'
    ensures BodiesIn(a, lo', hi')
  {
  }

  /** Entries of `c` at `p` lie strictly behind `p` and at or before its end, in increasing order. */
  lemma {:induction false} TableSorted(c: Code, p: nat)
    ensures StrictlyIncreasing(Table(c, p)) && BodiesIn(Table(c, p), p + 1, p + Size(c) + 1)
    decreases c, 1
  {
    hide Size, HeadSize, StrictlyIncreasing, BodiesIn, Table;
    if c.End? {
      EmptySorted(p + 1, p + Size(c) + 1);
      TableOfEnd(p);
    } else if !IsNest(c) {
      SimpleShape(c, p);
      TableSorted(c.next, p + HeadSize(c));
      Widen(Table(c, p), p + HeadSize(c) + 1, p + Size(c) + 1, p + 1, p + Size(c) + 1);
    } else if c.IfElse? {
      IfElseSorted(c, p);
    } else {
      NestSorted(c, p);
    }
  }

  lemma EmptySorted(lo: nat, hi: nat)
    ensures StrictlyIncreasing([]) && BodiesIn([], lo, hi)
  {
  }

  lemma HeadSorted(p1: nat, end: nat, els: nat)
    ensures StrictlyIncreasing([JumpEntry(p1, end, els)]) && BodiesIn([JumpEntry(p1, end, els)], p1, p1 + 1)
  {
  }

  lemma {:induction false} NestSorted(c: Code, p: nat)
    requires c.Block? || c.Loop? || c.If?
    ensures StrictlyIncreasing(Table(c, p)) && BodiesIn(Table(c, p), p + 1, p + Size(c) + 1)
    decreases c, 0
  {
    hide Table, Size, StrictlyIncreasing, BodiesIn;
    NestShape(c, p);
    var p1, q := p + 1 + |c.bt|, p + 1 + |c.bt| + Size(NestBody(c)) + 1;
    var head: seq<JumpEntry> := if c.Loop? then [] else [JumpEntry(p1, q, 0)];
    var body, rest := Table(NestBody(c), p1), Table(c.next, q);
    TableSorted(NestBody(c), p1);
    TableSorted(c.next, q);
    EmptySorted(p1, p1 + 1);
    HeadSorted(p1, q, 0);
    IncreasingJoin(head, body, p1, p1 + 1, q);
    Widen(rest, q + 1, q + Size(c.next) + 1, q, q + Size(c.next) + 1);
    IncreasingJoin(head + body, rest, p1, q, q + Size(c.next) + 1);
    Widen(head + body + rest, p1, q + Size(c.next) + 1, p + 1, p + Size(c) + 1);
  }

  lemma {:induction false} IfElseSorted(c: Code, p: nat)
    requires c.IfElse?
    ensures StrictlyIncreasing(Table(c, p)) && BodiesIn(Table(c, p), p + 1, p + Size(c) + 1)
    decreases c, 0
  {
    hide Table, Size, StrictlyIncreasing, BodiesIn;
    IfElseShape(c, p);
    var p1 := p + 1 + |c.bt|;
    var p2 := p1 + Size(c.thn) + 1;
    var q := p2 + Size(c.els) + 1;
    var head := [JumpEntry(p1, q, p2)];
    var thn, els, rest := Table(c.thn, p1), Table(c.els, p2), Table(c.next, q);
    TableSorted(c.thn, p1);
    TableSorted(c.els, p2);
    TableSorted(c.next, q);
    HeadSorted(p1, q, p2);
    Widen(els, p2 + 1, q, p2, q);
    IncreasingJoin(thn, els, p1 + 1, p2, q);
    IncreasingJoin(head, thn + els, p1, p1 + 1, q);
    Widen(rest, q + 1, q + Size(c.next) + 1, q, q + Size(c.next) + 1);
    IncreasingJoin(head + (thn + els), rest, p1, q, q + Size(c.next) + 1);
    Widen(head + (thn + els) + rest, p1, q + Size(c.next) + 1, p + 1, p + Size(c) + 1);
  }

  /** In a strictly increasing table the first entry with a given body is the only one. */
  lemma {:induction false} LookupSorted(t: seq<JumpEntry>, i: nat)
    requires StrictlyIncreasing(t) && i < |t|
    ensures Lookup(t, t[i].body) == Entry(t[i])
    decreases i
  {
    if i > 0 {
      assert t[0].body < t[i].body;
      LookupSorted(t[1..], i - 1);
    }
  }
}
