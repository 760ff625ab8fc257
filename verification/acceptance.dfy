// Which bodies the loader accepts: exactly those whose indices are in scope, whose operands suffice wherever the pass counts
// them, and which keep its two limits. Of the bodies that section 3.3 of the WebAssembly Core Specification 2.0 types,
// only code behind blocks nested in dead code can fail the second.
module Acceptance {
  import opened Leb128
  import opened Bytecode
  import opened Runtime
  import opened Validity
  import opened Flat
  import opened Scan
  import opened ScanProof
  import opened LoadedBody
  import opened PreScan

  // ----- what the pass counts, on the tree -----

  /** The height the pass believes in, from the bottom of the function, and whether it takes the code for dead. */
  datatype Level = Level(height: nat, dead: bool)

  /** Operands the pass wants of an instruction; for some it wants fewer than the instruction takes. */
  function OpTakes(op: PlainOp): nat
  {
    match op
    case Drop => 1
    case Select => 2
    case LocalSet(_) => 1
    case GlobalSet(_) => 1
    case Binary(_) => 1
    case _ => 0
  }

  function Takes(cx: Context, c: Code): nat
    requires !c.End? && !IsNest(c)
  {
    match c
    case Plain(op, _) => OpTakes(op)
    case BrIf(_, _) => 1
    case BrTable(_, _, _, _) => 1
    case Call(f, _) => if U(f) < |cx.funcs| then cx.funcs[U(f)].params else 0
    case _ => 0
  }

  function Gives(cx: Context, c: Code): nat
    requires !c.End? && !IsNest(c)
  {
    match c
    case Plain(op, _) => if op.LocalGet? || op.GlobalGet? || op.Const? then 1 else 0
    case Call(f, _) => if U(f) < |cx.funcs| then cx.funcs[U(f)].results else 0
    case _ => 0
  }

  /** What follows is dead. */
  predicate Stops(c: Code) { c.Unreachable? || c.Br? || c.BrTable? || c.Return? }

  /** Behind a simple instruction. In dead code missing operands are tolerated: nothing is taken, or by a call everything. */
  function Over(cx: Context, c: Code, l: Level): Level
    requires !c.End? && !IsNest(c)
  {
    var left := if Takes(cx, c) <= l.height then l.height - Takes(cx, c) else if c.Call? then 0 else l.height;
    Level(left + Gives(cx, c), l.dead || Stops(c))
  }

  function NestTakes(cx: Context, c: Code): nat
    requires IsNest(c)
  {
    if Condition(c) == 1 then 1 else NestArity(cx, c).params
  }

  /** At the first instruction inside; dead code stays dead. */
  function Inner(c: Code, l: Level): Level
    requires IsNest(c)
  {
    if Condition(c) <= l.height then l.(height := l.height - Condition(c)) else l
  }

  /** The height recorded for the end of the block. */
  function Entry(cx: Context, c: Code, l: Level): nat
    requires IsNest(c)
  {
    if Condition(c) == 1 then Inner(c, l).height
    else if NestTakes(cx, c) <= l.height then l.height - NestTakes(cx, c)
    else 0
  }

  /** Behind a block: dead code has come to life again. */
  function Behind(cx: Context, c: Code, l: Level): Level
    requires IsNest(c)
  {
    Level(Entry(cx, c, l) + NestArity(cx, c).results, false)
  }

  /** Every label, variable and function index names something; `k` labels are open. */
  predicate InScope(cx: Context, c: Code, k: nat)
  {
    match c
    case End => true
    case Plain(op, next) => OpInScope(op, cx.locals, cx.globals) && InScope(cx, next, k)
    case Unreachable(next) => InScope(cx, next, k)
    case Block(_, body, next) => InScope(cx, body, k + 1) && InScope(cx, next, k)
    case Loop(_, body, next) => InScope(cx, body, k + 1) && InScope(cx, next, k)
    case If(_, thn, next) => InScope(cx, thn, k + 1) && InScope(cx, next, k)
    case IfElse(_, thn, els, next) => InScope(cx, thn, k + 1) && InScope(cx, els, k + 1) && InScope(cx, next, k)
    case Br(l, next) => U(l) < k && InScope(cx, next, k)
    case BrIf(l, next) => U(l) < k && InScope(cx, next, k)
    case BrTable(_, ts, d, next) => TargetsInside(ts, k) && U(d) < k && InScope(cx, next, k)
    case Return(next) => InScope(cx, next, k)
    case Call(f, next) => U(f) < |cx.funcs| && InScope(cx, next, k)
  }

  predicate HeadInScope(cx: Context, c: Code, k: nat)
    requires !c.End? && !IsNest(c)
  {
    match c
    case Plain(op, _) => OpInScope(op, cx.locals, cx.globals)
    case Br(l, _) => U(l) < k
    case BrIf(l, _) => U(l) < k
    case BrTable(_, ts, d, _) => TargetsInside(ts, k) && U(d) < k
    case Call(f, _) => U(f) < |cx.funcs|
    case _ => true
  }

  /** No instruction lacks operands where the pass takes the code for alive. */
  predicate Fed(cx: Context, c: Code, l: Level)
    decreases c
  {
    if c.End? then true
    else if !IsNest(c) then (l.dead || Takes(cx, c) <= l.height) && Fed(cx, c.next, Over(cx, c, l))
    else
      && (l.dead || NestTakes(cx, c) <= l.height)
      && (if c.IfElse? then Fed(cx, c.thn, Inner(c, l)) && Fed(cx, c.els, Level(Entry(cx, c, l), false))
          else Fed(cx, NestBody(c), Inner(c, l)))
      && Fed(cx, c.next, Behind(cx, c, l))
  }

  /** The greatest height at an offset of `c`. */
  function Highest(cx: Context, c: Code, l: Level): int
    decreases c
  {
    if c.End? then l.height
    else if !IsNest(c) then Max(l.height, Highest(cx, c.next, Over(cx, c, l)))
    else
      Max(l.height,
          Max(if c.IfElse? then Max(Highest(cx, c.thn, Inner(c, l)), Highest(cx, c.els, Level(Entry(cx, c, l), false)))
              else Highest(cx, NestBody(c), Inner(c, l)),
              Highest(cx, c.next, Behind(cx, c, l))))
  }

  lemma HighestAtLeast(cx: Context, c: Code, l: Level)
    ensures Highest(cx, c, l) >= l.height
  {
    hide Over, Inner, Behind, Entry;
  }

  // ----- the pass over one instruction -----

  /** The maximum once the current height has been noted. */
  function High(v: ScanState): int { Max(v.maxDepth, v.depth) }

  function LevelOf(v: ScanState): Level
    requires v.depth >= 0
  {
    Level(v.depth, v.unreachable)
  }

  /** The pass before a sequence that keeps the label limit. */
  predicate Ahead(code: seq<Byte>, c: Code, v: ScanState)
  {
    && CodeAt(code, v.ip, c) && v.depth >= 0
    && |v.labels| + Depth(c) <= MAX_LABEL_DEPTH && |v.labels| <= v.maxLabels <= MAX_LABEL_DEPTH
  }

  /** The pass went over `c` without rejecting. */
  predicate Went(cx: Context, code: seq<Byte>, c: Code, v: ScanState, v': ScanState)
    requires v.depth >= 0
  {
    && ScanRun(cx, code, v) == ScanRun(cx, code, v')
    && v'.ip == v.ip + Size(c) && v'.labels == v.labels && |v'.labels| <= v'.maxLabels <= MAX_LABEL_DEPTH
    && High(v') == Max(v.maxDepth, Highest(cx, c, LevelOf(v)))
  }

  /** It goes over `c` if the indices are in scope and the operands suffice, and rejects otherwise. */
  predicate Decides(cx: Context, code: seq<Byte>, c: Code, v: ScanState, v': ScanState)
    requires v.depth >= 0
  {
    if InScope(cx, c, |v.labels|) && Fed(cx, c, LevelOf(v)) then Went(cx, code, c, v, v') else ScanRun(cx, code, v).Rejected?
  }

  lemma StepRuns(cx: Context, code: seq<Byte>, v: ScanState)
    requires v.ip < |code| && ScanStep(cx, code, v).Ok? && |v.labels| <= v.maxLabels <= MAX_LABEL_DEPTH
    requires |ScanStep(cx, code, v).v.labels| <= MAX_LABEL_DEPTH
    ensures var v' := ScanStep(cx, code, v).v;
            && ScanRun(cx, code, v) == ScanRun(cx, code, v') && |v'.labels| <= v'.maxLabels <= MAX_LABEL_DEPTH
            && v'.maxDepth == High(v)
  {
    hide UAt, SAt, BlockArity;
    StepExtends(cx, code, v);
  }

  lemma StepRejects(cx: Context, code: seq<Byte>, v: ScanState)
    requires v.ip < |code| && ScanStep(cx, code, v).Rejected?
    ensures ScanRun(cx, code, v).Rejected?
  {
  }

  lemma {:induction false} TargetsDecided(code: seq<Byte>, ts: seq<Imm>, d: Imm, v: ScanState)
    requires ImmsAt(code, v.ip, ts) && ImmAt(code, v.ip + ImmsSize(ts), d)
    ensures v.ip <= |code| && (ScanTargets(code, v, |ts|).Ok? <==> TargetsInside(ts, |v.labels|) && U(d) < |v.labels|)
    decreases |ts|
  {
    hide U, S;
    if ts == [] {
      ImmScanned(code, v.ip, d);
    } else {
      ImmScanned(code, v.ip, ts[0]);
      TargetsDecided(code, ts[1..], d, v.(ip := v.ip + |ts[0]|));
    }
  }

  /** One simple instruction. */
  predicate HeadDecides(cx: Context, code: seq<Byte>, c: Code, v: ScanState)
    requires v.ip < |code| && v.depth >= 0 && !c.End? && !IsNest(c)
  {
    var r := ScanStep(cx, code, v);
    && (r.Ok? <==> HeadInScope(cx, c, |v.labels|) && (v.unreachable || Takes(cx, c) <= v.depth))
    && (r.Ok? ==> r.v.depth >= 0 && LevelOf(r.v) == Over(cx, c, LevelOf(v)))
  }

  lemma OpDecided(cx: Context, code: seq<Byte>, c: Code, v: ScanState)
    requires c.Plain? && OpAt(code, v.ip, c.op) && v.ip < |code| && v.depth >= 0
    ensures HeadDecides(cx, code, c, v)
  {
    hide U, S, UAt, SAt, ImmAt, ULen;
    match c.op
    case LocalGet(i) => ImmScanned(code, v.ip + 1, i);
    case LocalSet(i) => ImmScanned(code, v.ip + 1, i);
    case LocalTee(i) => ImmScanned(code, v.ip + 1, i);
    case GlobalGet(i) => ImmScanned(code, v.ip + 1, i);
    case GlobalSet(i) => ImmScanned(code, v.ip + 1, i);
    case _ =>
  }

  lemma TableDecided(cx: Context, code: seq<Byte>, c: Code, v: ScanState)
    requires c.BrTable? && CodeAt(code, v.ip, c) && v.ip < |code| && v.depth >= 0
    ensures HeadDecides(cx, code, c, v)
  {
    hide U, S, UAt, SAt, ImmAt, ImmsAt, ULen, ScanTargets, ImmsSize, TargetsInside;
    ImmScanned(code, v.ip + 1, c.count);
    TargetsDecided(code, c.targets, c.dflt, Noted(v).(ip := v.ip + 1 + |c.count|));
    TargetsScanned(code, c.targets, c.dflt, Noted(v).(ip := v.ip + 1 + |c.count|));
  }

  lemma HeadDecided(cx: Context, code: seq<Byte>, c: Code, v: ScanState)
    requires !c.End? && !IsNest(c) && CodeAt(code, v.ip, c) && v.depth >= 0
    ensures v.ip < |code| && HeadDecides(cx, code, c, v)
  {
    hide U, S, UAt, SAt, ImmAt, ImmsAt, ULen, OpAt, OpBytes, ScanTargets, BlockArity, ImmsSize, TargetsInside;
    ScanHead(cx, code, c, v);
    match c
    case Plain(op, _) => OpDecided(cx, code, c, v);
    case Br(l, _) => ImmScanned(code, v.ip + 1, l);
    case BrIf(l, _) => ImmScanned(code, v.ip + 1, l);
    case BrTable(_, _, _, _) => TableDecided(cx, code, c, v);
    case Call(f, _) => ImmScanned(code, v.ip + 1, f);
    case _ =>
  }

  /** Opening a block, loop or if below the label limit. */
  lemma OpenDecided(cx: Context, code: seq<Byte>, c: Code, v: ScanState)
    requires IsNest(c) && CodeAt(code, v.ip, c) && v.ip < |code| && |v.labels| < MAX_LABEL_DEPTH && v.depth >= 0
    ensures ScanStep(cx, code, v).Ok? <==> v.unreachable || NestTakes(cx, c) <= v.depth
    ensures var r := ScanStep(cx, code, v);
            r.Ok? ==>
              && r.v.depth >= 0 && LevelOf(r.v) == Inner(c, LevelOf(v)) && |r.v.labels| == |v.labels| + 1
              && r.v.labels[|v.labels|].results == NestArity(cx, c).results
              && r.v.labels[|v.labels|].entry == Entry(cx, c, LevelOf(v))
  {
    hide U, S, UAt, SAt, ImmAt, ULen, BlockArity;
    assert ImmAt(code, v.ip + 1, c.bt);
    ImmScanned(code, v.ip + 1, c.bt);
  }

  /** The final `end` of a nested sequence. */
  lemma CloseRuns(cx: Context, code: seq<Byte>, v: ScanState) returns (v': ScanState)
    requires ByteAt(code, v.ip, 0x0B) && v.labels != [] && |v.labels| <= v.maxLabels <= MAX_LABEL_DEPTH
    ensures var l := v.labels[|v.labels| - 1];
            && ScanRun(cx, code, v) == ScanRun(cx, code, v') && |v'.labels| <= v'.maxLabels <= MAX_LABEL_DEPTH
            && v'.ip == v.ip + 1 && v'.labels == v.labels[..|v.labels| - 1] && !v'.unreachable
            && v'.depth == l.entry + l.results && v'.maxDepth == High(v)
  {
    hide ScanRun, ScanStep;
    ScanClose(cx, code, v);
    v' := ScanStep(cx, code, v).v;
    StepRuns(cx, code, v);
  }

  // ----- the pass over a sequence -----

  lemma ScopeOfHead(cx: Context, c: Code, k: nat)
    requires !c.End? && !IsNest(c)
    ensures InScope(cx, c, k) <==> HeadInScope(cx, c, k) && InScope(cx, c.next, k)
  {
    hide U, OpInScope, TargetsInside;
  }

  lemma ScopeOfNest(cx: Context, c: Code, k: nat)
    requires IsNest(c)
    ensures InScope(cx, c, k) <==>
            && (if c.IfElse? then InScope(cx, c.thn, k + 1) && InScope(cx, c.els, k + 1) else InScope(cx, NestBody(c), k + 1))
            && InScope(cx, c.next, k)
  {
  }

  lemma {:induction false} SequenceDecided(cx: Context, code: seq<Byte>, c: Code, v: ScanState) returns (v': ScanState)
    requires Ahead(code, c, v)
    ensures Decides(cx, code, c, v, v')
    decreases c, 2
  {
    hide CodeAt, ScanRun, Depth, Size;
    v' := v;
    if c.End? {
      EndShape(c);
    } else if !IsNest(c) {
      v' := SimpleDecided(cx, code, c, v);
    } else if c.IfElse? {
      v' := IfElseDecided(cx, code, c, v);
    } else {
      v' := NestDecided(cx, code, c, v);
    }
  }

  lemma EndShape(c: Code)
    requires c.End?
    ensures Size(c) == 0 && Depth(c) == 0
  {
  }

  lemma {:induction false} SimpleDecided(cx: Context, code: seq<Byte>, c: Code, v: ScanState) returns (v': ScanState)
    requires !c.End? && !IsNest(c) && Ahead(code, c, v)
    ensures Decides(cx, code, c, v, v')
    decreases c, 0
  {
    hide CodeAt, ScanRun, ScanStep, Size, HeadSize, Depth, U, Table, Over, Takes, InScope, HeadInScope;
    HeadDecided(cx, code, c, v);
    ScanHead(cx, code, c, v);
    SimpleShape(c, v.ip);
    SimpleNext(code, c, v.ip);
    ScopeOfHead(cx, c, |v.labels|);
    v' := v;
    if ScanStep(cx, code, v).Ok? {
      StepRuns(cx, code, v);
      var v1 := ScanStep(cx, code, v).v;
      v' := SequenceDecided(cx, code, c.next, v1);
      HighestAtLeast(cx, c.next, LevelOf(v1));
    } else {
      StepRejects(cx, code, v);
    }
  }

  lemma {:induction false} NestDecided(cx: Context, code: seq<Byte>, c: Code, v: ScanState) returns (v': ScanState)
    requires (c.Block? || c.Loop? || c.If?) && Ahead(code, c, v)
    ensures Decides(cx, code, c, v, v')
    decreases c, 0
  {
    hide CodeAt, ScanRun, ScanStep, Size, Depth, NestArity, S, U, NewEntries, Table, ByteAt, InScope, Inner, Entry, NestTakes;
    NestParts(code, c, v.ip);
    NestShape(c, v.ip);
    InBody(code, v.ip, c);
    OpenDecided(cx, code, c, v);
    ScanOpen(cx, code, c, v);
    ScopeOfNest(cx, c, |v.labels|);
    v' := v;
    if ScanStep(cx, code, v).Ok? {
      StepRuns(cx, code, v);
      var v1 := ScanStep(cx, code, v).v;
      var v2 := SequenceDecided(cx, code, NestBody(c), v1);
      HighestAtLeast(cx, NestBody(c), LevelOf(v1));
      if Went(cx, code, NestBody(c), v1, v2) {
        var v3 := CloseRuns(cx, code, v2);
        assert v3.labels == v.labels;
        v' := SequenceDecided(cx, code, c.next, v3);
        HighestAtLeast(cx, c.next, LevelOf(v3));
      }
    } else {
      StepRejects(cx, code, v);
    }
  }

  /** The then arm up to the first byte of the else arm. */
  lemma {:induction false} ThenArmDecided(cx: Context, code: seq<Byte>, c: Code, v: ScanState) returns (v': ScanState)
    requires c.IfElse? && Ahead(code, c, v)
    ensures var l, k := LevelOf(v), |v.labels|;
            if (l.dead || 1 <= l.height) && InScope(cx, c.thn, k + 1) && Fed(cx, c.thn, Inner(c, l)) then
              && ScanRun(cx, code, v) == ScanRun(cx, code, v') && |v'.labels| <= v'.maxLabels <= MAX_LABEL_DEPTH
              && v'.ip == v.ip + 1 + |c.bt| + Size(c.thn) + 1 && v'.depth >= 0 && LevelOf(v') == Level(Entry(cx, c, l), false)
              && |v'.labels| == k + 1 && v'.labels[..k] == v.labels
              && v'.labels[k].entry == Entry(cx, c, l) && v'.labels[k].results == NestArity(cx, c).results
              && v'.maxDepth == Max(Max(v.maxDepth, v.depth), Highest(cx, c.thn, Inner(c, l)))
            else ScanRun(cx, code, v).Rejected?
    decreases c, 0
  {
    hide CodeAt, ScanRun, ScanStep, Size, Depth, NestArity, S, U, NewEntries, Table, ByteAt, InScope, Inner, Entry;
    IfElseParts(code, c, v.ip);
    IfElseShape(c, v.ip);
    InBody(code, v.ip, c);
    OpenDecided(cx, code, c, v);
    ScanOpen(cx, code, c, v);
    v' := v;
    if ScanStep(cx, code, v).Ok? {
      StepRuns(cx, code, v);
      var v1 := ScanStep(cx, code, v).v;
      var v2 := SequenceDecided(cx, code, c.thn, v1);
      if Went(cx, code, c.thn, v1, v2) {
        HighestAtLeast(cx, c.thn, LevelOf(v1));
        ScanMiddle(cx, code, v2);
        StepRuns(cx, code, v2);
        v' := ScanStep(cx, code, v2).v;
      }
    } else {
      StepRejects(cx, code, v);
    }
  }

  lemma {:induction false} IfElseDecided(cx: Context, code: seq<Byte>, c: Code, v: ScanState) returns (v': ScanState)
    requires c.IfElse? && Ahead(code, c, v)
    ensures Decides(cx, code, c, v, v')
    decreases c, 1
  {
    hide CodeAt, ScanRun, ScanStep, Size, Depth, NestArity, S, U, NewEntries, Table, ByteAt, InScope, Inner, Entry;
    IfElseParts(code, c, v.ip);
    IfElseShape(c, v.ip);
    ScopeOfNest(cx, c, |v.labels|);
    var l := LevelOf(v);
    var v1 := ThenArmDecided(cx, code, c, v);
    v' := v1;
    if (l.dead || 1 <= l.height) && InScope(cx, c.thn, |v.labels| + 1) && Fed(cx, c.thn, Inner(c, l)) {
      var v2 := SequenceDecided(cx, code, c.els, v1);
      HighestAtLeast(cx, c.els, LevelOf(v1));
      if Went(cx, code, c.els, v1, v2) {
        var v3 := CloseRuns(cx, code, v2);
        assert v3.labels == v.labels;
        v' := SequenceDecided(cx, code, c.next, v3);
        HighestAtLeast(cx, c.next, LevelOf(v3));
      }
    }
  }

  // ----- whole bodies -----

  lemma FinishPass(cx: Context, code: seq<Byte>, v: ScanState)
    requires v.ip == |code|
    ensures ScanRun(cx, code, v) ==
            if v.maxLabels > MAX_LABEL_DEPTH || High(v) > MAX_STACK then Rejected else Ok(v.(maxDepth := High(v)))
  {
  }

  const START: Level := Level(0, false)

  /** At most 65535 labels, and at most as many operands. */
  predicate WithinLimits(cx: Context, c: Code)
  {
    1 + Depth(c) <= 65535 && Max(Highest(cx, c, START), cx.results) <= 65535
  }

  /** A well-encoded body, valid or not, is accepted exactly when its indices are in scope, its operands suffice wherever the
      pass counts them, and it keeps the limits; the numbers recorded are the tree's. */
  lemma AcceptedExactly(cx: Context, code: seq<Byte>, c: Code)
    requires Encodes(code, c)
    ensures var r := ScanBody(cx, code);
            && (r.Ok? <==> InScope(cx, c, 1) && Fed(cx, c, START) && WithinLimits(cx, c))
            && (r.Ok? ==> r.v.maxDepth == Max(Highest(cx, c, START), cx.results) && r.v.maxLabels == 1 + Depth(c))
  {
    hide CodeAt, ScanRun, Size, InScope, Fed, Highest, Depth, Table, Fits, StrictlyIncreasing;
    PassesAgree(cx, code, c);
    PreCounts(code, c);
    if 1 + Depth(c) <= MAX_LABEL_DEPTH {
      var v1 := SequenceDecided(cx, code, c, FirstState(cx.results));
      if InScope(cx, c, 1) && Fed(cx, c, START) {
        var v2 := CloseRuns(cx, code, v1);
        HighestAtLeast(cx, c, START);
        FinishPass(cx, code, v2);
      }
    }
  }

  // ----- bodies valid by the specification -----

  function Less(h: nat, n: nat): nat { if n <= h then h - n else 0 }

  predicate CanJump(labels: seq<nat>, depth: nat, h: nat, dead: bool)
  {
    depth < |labels| && (dead || labels[|labels| - 1 - depth] <= h)
  }

  predicate CanJumpAll(labels: seq<nat>, targets: seq<Imm>, h: nat, dead: bool)
  {
    targets == [] || (CanJump(labels, U(targets[0]), h, dead) && CanJumpAll(labels, targets[1..], h, dead))
  }

  /** Validity on heights with dead code typed as well: there, any operand that is missing may be supplied, but those that
      are there, at least `h`, and all indices count. */
  predicate Strict(cx: Context, c: Code, labels: seq<nat>, need: nat, h: nat, dead: bool)
    decreases c
  {
    match c
    case End => if dead then h <= need else h == need
    case Plain(op, next) =>
      var t := OpArity(op);
      && OpInScope(op, cx.locals, cx.globals) && (dead || t.params <= h)
      && Strict(cx, next, labels, need, Less(h, t.params) + t.results, dead)
    case Unreachable(next) => Strict(cx, next, labels, need, 0, true)
    case Block(bt, body, next) =>
      var t := BlockArity(cx.types, S(bt));
      && (dead || t.params <= h) && Strict(cx, body, labels + [t.results], t.results, t.params, false)
      && Strict(cx, next, labels, need, Less(h, t.params) + t.results, dead)
    case Loop(bt, body, next) =>
      var t := BlockArity(cx.types, S(bt));
      && (dead || t.params <= h) && Strict(cx, body, labels + [t.params], t.results, t.params, false)
      && Strict(cx, next, labels, need, Less(h, t.params) + t.results, dead)
    case If(bt, thn, next) =>
      var t := BlockArity(cx.types, S(bt));
      && (dead || 1 <= h) && t == FuncType(0, 0) && Strict(cx, thn, labels + [0], 0, 0, false)
      && Strict(cx, next, labels, need, Less(h, 1), dead)
    case IfElse(bt, thn, els, next) =>
      var t := BlockArity(cx.types, S(bt));
      && (dead || 1 <= h) && t.params == 0
      && Strict(cx, thn, labels + [t.results], t.results, 0, false) && Strict(cx, els, labels + [t.results], t.results, 0, false)
      && Strict(cx, next, labels, need, Less(h, 1) + t.results, dead)
    case Br(l, next) => CanJump(labels, U(l), h, dead) && Strict(cx, next, labels, need, 0, true)
    case BrIf(l, next) =>
      && (dead || 1 <= h) && CanJump(labels, U(l), Less(h, 1), dead)
      && Strict(cx, next, labels, need, if labels[|labels| - 1 - U(l)] <= Less(h, 1) then Less(h, 1) else labels[|labels| - 1 - U(l)], dead)
    case BrTable(_, ts, d, next) =>
      && (dead || 1 <= h) && CanJumpAll(labels, ts, Less(h, 1), dead) && CanJump(labels, U(d), Less(h, 1), dead)
      && Strict(cx, next, labels, need, 0, true)
    case Return(next) => (dead || cx.results <= h) && Strict(cx, next, labels, need, 0, true)
    case Call(f, next) =>
      && U(f) < |cx.funcs| && (dead || cx.funcs[U(f)].params <= h)
      && Strict(cx, next, labels, need, Less(h, cx.funcs[U(f)].params) + cx.funcs[U(f)].results, dead)
  }

  predicate BodyStrict(cx: Context, c: Code) { Strict(cx, c, [cx.results], cx.results, 0, false) }

  lemma {:induction false} JumpsAre(labels: seq<nat>, ts: seq<Imm>, h: nat, dead: bool)
    requires CanJumpAll(labels, ts, h, dead)
    ensures TargetsInside(ts, |labels|) && (!dead ==> CanBranchAll(labels, ts, h))
    decreases |ts|
  {
    hide U;
    if ts != [] { JumpsAre(labels, ts[1..], h, dead); }
  }

  /** Strict bodies are valid where they can be reached, and their indices are in scope everywhere. */
  lemma {:induction false} StrictIsValid(cx: Context, c: Code, labels: seq<nat>, need: nat, h: nat, dead: bool)
    requires Strict(cx, c, labels, need, h, dead)
    ensures !dead ==> Valid(cx, c, labels, need, h)
    ensures InScope(cx, c, |labels|)
    decreases c, 1
  {
    hide U, S, BlockArity;
    match c
    case End =>
    case Plain(op, next) => StrictIsValid(cx, next, labels, need, Less(h, OpArity(op).params) + OpArity(op).results, dead);
    case Unreachable(next) => StrictIsValid(cx, next, labels, need, 0, true);
    case Br(l, next) => StrictIsValid(cx, next, labels, need, 0, true);
    case BrIf(l, next) =>
      var a := labels[|labels| - 1 - U(l)];
      StrictIsValid(cx, next, labels, need, if a <= Less(h, 1) then Less(h, 1) else a, dead);
    case BrTable(_, ts, d, next) =>
      JumpsAre(labels, ts, Less(h, 1), dead);
      StrictIsValid(cx, next, labels, need, 0, true);
    case Return(next) => StrictIsValid(cx, next, labels, need, 0, true);
    case Call(f, next) => StrictIsValid(cx, next, labels, need, Less(h, cx.funcs[U(f)].params) + cx.funcs[U(f)].results, dead);
    case _ => StrictNestIsValid(cx, c, labels, need, h, dead);
  }

  lemma {:induction false} StrictNestIsValid(cx: Context, c: Code, labels: seq<nat>, need: nat, h: nat, dead: bool)
    requires IsNest(c) && Strict(cx, c, labels, need, h, dead)
    ensures !dead ==> Valid(cx, c, labels, need, h)
    ensures InScope(cx, c, |labels|)
    decreases c, 0
  {
    hide U, S, BlockArity;
    match c
    case Block(bt, body, next) =>
      var t := BlockArity(cx.types, S(bt));
      StrictIsValid(cx, body, labels + [t.results], t.results, t.params, false);
      StrictIsValid(cx, next, labels, need, Less(h, t.params) + t.results, dead);
    case Loop(bt, body, next) =>
      var t := BlockArity(cx.types, S(bt));
      StrictIsValid(cx, body, labels + [t.params], t.results, t.params, false);
      StrictIsValid(cx, next, labels, need, Less(h, t.params) + t.results, dead);
    case If(bt, thn, next) =>
      StrictIsValid(cx, thn, labels + [0], 0, 0, false);
      StrictIsValid(cx, next, labels, need, Less(h, 1), dead);
    case IfElse(bt, thn, els, next) =>
      var t := BlockArity(cx.types, S(bt));
      StrictIsValid(cx, thn, labels + [t.results], t.results, 0, false);
      StrictIsValid(cx, els, labels + [t.results], t.results, 0, false);
      StrictIsValid(cx, next, labels, need, Less(h, 1) + t.results, dead);
  }

  /** Only code that the pass brings back to life is constrained: behind a block that is nested in dead code, operands must
      suffice counted from that block's entry and results. While `sure`, validity guarantees them. */
  predicate Resumes(cx: Context, c: Code, l: Level, sure: bool)
    decreases c
  {
    if c.End? then true
    else if !IsNest(c) then
      (sure || l.dead || Takes(cx, c) <= l.height) && Resumes(cx, c.next, Over(cx, c, l), sure && !Stops(c))
    else
      && (sure || l.dead || NestTakes(cx, c) <= l.height)
      && (if c.IfElse? then Resumes(cx, c.thn, Inner(c, l), sure) && Resumes(cx, c.els, Level(Entry(cx, c, l), false), sure)
          else Resumes(cx, NestBody(c), Inner(c, l), sure))
      && Resumes(cx, c.next, Behind(cx, c, l), sure)
  }

  /** The operands of live code are there. */
  lemma {:induction false} StrictIsFed(cx: Context, c: Code, labels: seq<nat>, need: nat, h: nat, dead: bool, l: Level, sure: bool)
    requires Strict(cx, c, labels, need, h, dead) && (sure ==> !dead && !l.dead && h <= l.height)
    ensures Fed(cx, c, l) <==> Resumes(cx, c, l, sure)
    decreases c, 1
  {
    hide U, S, BlockArity, CanJump, CanJumpAll, OpInScope;
    match c
    case End =>
    case Plain(op, next) =>
      StrictIsFed(cx, next, labels, need, Less(h, OpArity(op).params) + OpArity(op).results, dead, Over(cx, c, l), sure);
    case Unreachable(next) => StrictIsFed(cx, next, labels, need, 0, true, Over(cx, c, l), false);
    case Br(_, next) => StrictIsFed(cx, next, labels, need, 0, true, Over(cx, c, l), false);
    case BrIf(target, next) => StrictBrIf(cx, c, labels, need, h, dead, l, sure);
    case BrTable(_, ts, d, next) => StrictIsFed(cx, next, labels, need, 0, true, Over(cx, c, l), false);
    case Return(next) => StrictIsFed(cx, next, labels, need, 0, true, Over(cx, c, l), false);
    case Call(f, next) => StrictIsFed(cx, next, labels, need, Less(h, cx.funcs[U(f)].params) + cx.funcs[U(f)].results, dead, Over(cx, c, l), sure);
    case _ => StrictNestIsFed(cx, c, labels, need, h, dead, l, sure);
  }

  lemma {:induction false} StrictNestIsFed(cx: Context, c: Code, labels: seq<nat>, need: nat, h: nat, dead: bool, l: Level, sure: bool)
    requires IsNest(c) && Strict(cx, c, labels, need, h, dead) && (sure ==> !dead && !l.dead && h <= l.height)
    ensures Fed(cx, c, l) <==> Resumes(cx, c, l, sure)
    decreases c, 0, 1
  {
    hide Strict, Fed, Resumes, U, S, BlockArity, CanJump, CanJumpAll, OpInScope;
    if c.IfElse? {
      StrictIfElseIsFed(cx, c, labels, need, h, dead, l, sure);
    } else if c.If? {
      StrictIfIsFed(cx, c, labels, need, h, dead, l, sure);
    } else {
      StrictBlockIsFed(cx, c, labels, need, h, dead, l, sure);
    }
  }

  lemma {:induction false} StrictBlockIsFed(cx: Context, c: Code, labels: seq<nat>, need: nat, h: nat, dead: bool, l: Level, sure: bool)
    requires (c.Block? || c.Loop?) && Strict(cx, c, labels, need, h, dead) && (sure ==> !dead && !l.dead && h <= l.height)
    ensures Fed(cx, c, l) <==> Resumes(cx, c, l, sure)
    decreases c, 0, 0
  {
    hide U, S, BlockArity, CanJump, CanJumpAll, OpInScope;
    var t := BlockArity(cx.types, S(c.bt));
    var target := if c.Block? then t.results else t.params;
    StrictIsFed(cx, c.body, labels + [target], t.results, t.params, false, Inner(c, l), sure);
    StrictIsFed(cx, c.next, labels, need, Less(h, t.params) + t.results, dead, Behind(cx, c, l), sure);
  }

  lemma {:induction false} StrictIfIsFed(cx: Context, c: Code, labels: seq<nat>, need: nat, h: nat, dead: bool, l: Level, sure: bool)
    requires c.If? && Strict(cx, c, labels, need, h, dead) && (sure ==> !dead && !l.dead && h <= l.height)
    ensures Fed(cx, c, l) <==> Resumes(cx, c, l, sure)
    decreases c, 0, 0
  {
    hide U, S, BlockArity, CanJump, CanJumpAll, OpInScope;
    StrictIsFed(cx, c.thn, labels + [0], 0, 0, false, Inner(c, l), sure);
    StrictIsFed(cx, c.next, labels, need, Less(h, 1), dead, Behind(cx, c, l), sure);
  }

  lemma {:induction false} StrictIfElseIsFed(cx: Context, c: Code, labels: seq<nat>, need: nat, h: nat, dead: bool, l: Level, sure: bool)
    requires c.IfElse? && Strict(cx, c, labels, need, h, dead) && (sure ==> !dead && !l.dead && h <= l.height)
    ensures Fed(cx, c, l) <==> Resumes(cx, c, l, sure)
    decreases c, 0, 0
  {
    hide U, S, BlockArity, CanJump, CanJumpAll, OpInScope;
    var t := BlockArity(cx.types, S(c.bt));
    StrictIsFed(cx, c.thn, labels + [t.results], t.results, 0, false, Inner(c, l), sure);
    StrictIsFed(cx, c.els, labels + [t.results], t.results, 0, false, Level(Entry(cx, c, l), false), sure);
    StrictIsFed(cx, c.next, labels, need, Less(h, 1) + t.results, dead, Behind(cx, c, l), sure);
  }

  lemma {:induction false} StrictBrIf(cx: Context, c: Code, labels: seq<nat>, need: nat, h: nat, dead: bool, l: Level, sure: bool)
    requires c.BrIf? && Strict(cx, c, labels, need, h, dead) && (sure ==> !dead && !l.dead && h <= l.height)
    ensures Fed(cx, c, l) <==> Resumes(cx, c, l, sure)
    decreases c, 0
  {
    hide U, S, BlockArity;
    var a := labels[|labels| - 1 - U(c.depth)];
    StrictIsFed(cx, c.next, labels, need, if a <= Less(h, 1) then Less(h, 1) else a, dead, Over(cx, c, l), sure);
  }

  /** No block, loop or if stands in dead code. */
  predicate FlatDead(c: Code, dead: bool)
    decreases c
  {
    if c.End? then true
    else if !IsNest(c) then FlatDead(c.next, dead || Stops(c))
    else
      && !dead && FlatDead(c.next, false)
      && (if c.IfElse? then FlatDead(c.thn, false) && FlatDead(c.els, false) else FlatDead(NestBody(c), false))
  }

  lemma {:induction false} FlatResumes(cx: Context, c: Code, l: Level, dead: bool)
    requires FlatDead(c, dead) && (dead ==> l.dead)
    ensures Resumes(cx, c, l, !dead)
    decreases c
  {
    hide Takes, Gives, NestTakes, NestArity;
    if c.End? {
    } else if !IsNest(c) {
      FlatResumes(cx, c.next, Over(cx, c, l), dead || Stops(c));
    } else {
      FlatResumes(cx, c.next, Behind(cx, c, l), false);
      if c.IfElse? {
        FlatResumes(cx, c.thn, Inner(c, l), false);
        FlatResumes(cx, c.els, Level(Entry(cx, c, l), false), false);
      } else {
        FlatResumes(cx, NestBody(c), Inner(c, l), false);
      }
    }
  }

  /** A body that the specification types is accepted if and only if it keeps the two limits and what follows the blocks nested
      in its dead code finds its operands; in particular without such blocks the limits alone decide. */
  lemma StrictAccepted(cx: Context, code: seq<Byte>, c: Code)
    requires Encodes(code, c) && BodyStrict(cx, c)
    ensures ScanBody(cx, code).Ok? <==> WithinLimits(cx, c) && Resumes(cx, c, START, true)
    ensures FlatDead(c, false) ==> (ScanBody(cx, code).Ok? <==> WithinLimits(cx, c))
    ensures ScanBody(cx, code).Ok? ==>
              ScanBody(cx, code).v.maxDepth == Max(Highest(cx, c, START), cx.results) && ScanBody(cx, code).v.maxLabels == 1 + Depth(c)
    ensures Valid(cx, c, [cx.results], cx.results, 0)
  {
    hide CodeAt, ScanBody, Strict, Resumes, Fed, InScope, FlatDead, Highest, Depth;
    AcceptedExactly(cx, code, c);
    StrictIsValid(cx, c, [cx.results], cx.results, 0, false);
    StrictIsFed(cx, c, [cx.results], cx.results, 0, false, START, true);
    if FlatDead(c, false) { FlatResumes(cx, c, START, false); }
  }

  // ----- dead code -----

  const DeadBlock: Code := Unreachable(Block([0x40], End, Plain(Drop, End)))
  const DeadBlockBytes: seq<Byte> := [0x00, 0x02, 0x40, 0x0B, 0x1A, 0x0B]

  lemma Empty40()
    ensures Legal([0x40], 5) && S([0x40]) == -64
  {
    assert PayloadAt([0x40], 0, 1) == 64;
  }

  lemma DeadBlockEncoded()
    ensures Encodes(DeadBlockBytes, DeadBlock)
  {
    Empty40();
    var code := DeadBlockBytes;
    assert HasBytes(code, 2, [0x40]);
    assert CodeAt(code, 4, Plain(Drop, End));
    assert CodeAt(code, 3, End);
    assert CodeAt(code, 1, Block([0x40], End, Plain(Drop, End)));
  }

  lemma NegativeType(types: seq<FuncType>)
    ensures BlockArity(types, -64) == FuncType(0, 0)
  {
  }

  /** The pass forgets at every `end` that the enclosing code is dead, so the body `unreachable block end drop`, whose `drop` has
      a polymorphic operand, is typed by the specification and rejected. */
  lemma DeadBlockRejected(cx: Context)
    requires cx.results == 0
    ensures Encodes(DeadBlockBytes, DeadBlock) && BodyStrict(cx, DeadBlock) && WithinLimits(cx, DeadBlock)
    ensures !Resumes(cx, DeadBlock, START, true) && ScanBody(cx, DeadBlockBytes).Rejected?
  {
    hide CodeAt, ScanBody, S;
    Empty40();
    NegativeType(cx.types);
    DeadBlockEncoded();
    StrictAccepted(cx, DeadBlockBytes, DeadBlock);
  }

  const Underfed: Code := Plain(Eqz, End)
  const UnderfedBytes: seq<Byte> := [0x45, 0x0B]

  /** The pass takes no operand for a unary operator, so the body `i32.eqz`, which has none, is accepted without being valid;
      the theorems about accepted bodies that run ask for both. */
  lemma UnderfedAccepted(cx: Context, labels: seq<nat>, need: nat)
    requires WithinLimits(cx, Underfed)
    ensures Encodes(UnderfedBytes, Underfed) && ScanBody(cx, UnderfedBytes).Ok? && !Valid(cx, Underfed, labels, need, 0)
  {
    hide ScanBody;
    assert Encodes(UnderfedBytes, Underfed);
    assert Fed(cx, End, Over(cx, Underfed, START));
    assert Fed(cx, Underfed, START) && InScope(cx, Underfed, 1);
    AcceptedExactly(cx, UnderfedBytes, Underfed);
  }

  /** `k` constants, then the rest. */
  function Constants(k: nat, c: Code): Code { if k == 0 then c else Plain(Const([0x00]), Constants(k - 1, c)) }

  lemma {:induction false} ConstantsFeed(cx: Context, k: nat, c: Code, h: nat)
    ensures Fed(cx, Constants(k, c), Level(h, false)) <==> Fed(cx, c, Level(h + k, false))
    ensures InScope(cx, Constants(k, c), 1) <==> InScope(cx, c, 1)
    decreases k
  {
    if k > 0 {
      ConstantsFeed(cx, k - 1, c, h + 1);
      var d := Constants(k, c);
      assert Over(cx, d, Level(h, false)) == Level(h + 1, false);
    }
  }

  /** How many operands the pass asks for in front of each instruction: one for drop, the two variable sets, all binary
      instructions, br_if and br_table; two for select; none for i32.eqz, local.tee, br and return; all parameters for a call. */
  lemma OperandsWanted(cx: Context, code: seq<Byte>, k: nat, c: Code)
    requires c.Plain? || c.Br? || c.BrIf? || c.BrTable? || c.Return? || c.Call? || c.Unreachable?
    requires c.next == End && Encodes(code, Constants(k, c)) && InScope(cx, c, 1) && WithinLimits(cx, Constants(k, c))
    ensures ScanBody(cx, code).Ok? <==>
              k >= match c
                   case Plain(op, _) =>
                     if op.Drop? || op.LocalSet? || op.GlobalSet? || op.Binary? then 1 else if op.Select? then 2 else 0
                   case BrIf(_, _) => 1
                   case BrTable(_, _, _, _) => 1
                   case Call(f, _) => cx.funcs[U(f)].params
                   case _ => 0
  {
    hide ScanBody, Encodes, Highest, Depth;
    AcceptedExactly(cx, code, Constants(k, c));
    ConstantsFeed(cx, k, c, 0);
    assert Fed(cx, End, Over(cx, c, Level(k, false)));
  }

  /** A block asks for its parameters, an if for its condition only. */
  lemma BlockOperandsWanted(cx: Context, code: seq<Byte>, k: nat, c: Code)
    requires (c.Block? || c.Loop? || c.If?) && NestBody(c) == End && c.next == End
    requires Encodes(code, Constants(k, c)) && WithinLimits(cx, Constants(k, c))
    ensures ScanBody(cx, code).Ok? <==> k >= (if c.If? then 1 else BlockArity(cx.types, S(c.bt)).params)
  {
    hide ScanBody, Encodes, Highest, Depth, BlockArity, S;
    AcceptedExactly(cx, code, Constants(k, c));
    ConstantsFeed(cx, k, c, 0);
    assert Fed(cx, End, Inner(c, Level(k, false))) && Fed(cx, End, Behind(cx, c, Level(k, false)));
    assert InScope(cx, c, 1);
  }
}
