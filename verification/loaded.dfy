// What the interpreter relies on after an accepting pass: every reachable offset carries the height and label depth
// that validity gives it, the maxima cover them, and every block and if finds its own jump entry.
module LoadedBody {
  import opened Leb128
  import opened Bytecode
  import opened Runtime
  import opened Validity
  import opened Flat
  import opened Scan
  import opened Simulation
  import opened ScanProof

  // ----- every entry of the table is found -----

  predicate Covers(table: seq<JumpEntry>, part: seq<JumpEntry>)
  {
    forall i :: 0 <= i < |part| ==> Lookup(table, part[i].body) == Entry(part[i])
  }

  lemma SortedCovers(t: seq<JumpEntry>)
    requires StrictlyIncreasing(t)
    ensures Covers(t, t)
  {
    hide StrictlyIncreasing, Lookup;
    forall i | 0 <= i < |t| ensures Lookup(t, t[i].body) == Entry(t[i]) { LookupSorted(t, i); }
  }

  lemma CoversParts(table: seq<JumpEntry>, a: seq<JumpEntry>, b: seq<JumpEntry>)
    requires Covers(table, a + b)
    ensures Covers(table, a) && Covers(table, b)
  {
    hide Lookup;
    forall i | 0 <= i < |a| ensures Lookup(table, a[i].body) == Entry(a[i]) { assert a[i] == (a + b)[i]; }
    forall i | 0 <= i < |b| ensures Lookup(table, b[i].body) == Entry(b[i]) { assert b[i] == (a + b)[|a| + i]; }
  }

  lemma CoversHead(table: seq<JumpEntry>, e: JumpEntry)
    requires Covers(table, [e])
    ensures Lookup(table, e.body) == Entry(e)
  {
    assert [e][0] == e;
  }

  /** A function whose numbers are those of the finished pass. */
  predicate TakesNumbers(fn: Func, code: seq<Byte>, end: ScanState)
  {
    fn.Local? && fn.code == code && fn.maxLabels == end.maxLabels && fn.maxStack == end.maxDepth && fn.jumps == end.jumps
  }

  /** The pass stands, in reachable code, before `c`, with `h` operands of the current block, and will accept. */
  ghost predicate Before(cx: Context, code: seq<Byte>, c: Code, v: ScanState, end: ScanState, table: seq<JumpEntry>,
                         labels: seq<nat>, need: nat, h: nat)
  {
    && CodeAt(code, v.ip, c) && ScanRun(cx, code, v) == Ok(end) && |v.labels| <= v.maxLabels
    && !v.unreachable && h <= v.depth
    && Valid(cx, c, labels, need, h) && Covers(table, Table(c, v.ip))
  }

  // ----- heights -----

  /** Simple instructions after which the sequence goes on. */
  predicate GoesOn(cx: Context, c: Code)
  {
    c.Plain? || c.BrIf? || (c.Call? && U(c.func) < |cx.funcs|)
  }

  function HeadArity(cx: Context, c: Code): FuncType
    requires GoesOn(cx, c)
  {
    match c
    case Plain(op, _) => OpArity(op)
    case BrIf(_, _) => FuncType(1, 0)
    case Call(f, _) => cx.funcs[U(f)]
  }

  lemma HeadHeight(cx: Context, code: seq<Byte>, c: Code, v: ScanState)
    requires GoesOn(cx, c) && CodeAt(code, v.ip, c) && v.ip < |code| && !v.unreachable && HeadArity(cx, c).params <= v.depth
    ensures var r, t := ScanStep(cx, code, v), HeadArity(cx, c);
            r.Ok? ==> !r.v.unreachable && r.v.depth == v.depth - t.params + t.results
  {
    hide U, S, UAt, SAt, ImmAt, ULen;
    if c.Call? { ImmScanned(code, v.ip + 1, c.func); }
  }

  lemma HeadValid(cx: Context, c: Code, labels: seq<nat>, need: nat, h: nat)
    requires (c.Plain? || c.BrIf? || c.Call?) && Valid(cx, c, labels, need, h)
    ensures GoesOn(cx, c) && HeadArity(cx, c).params <= h
    ensures Valid(cx, c.next, labels, need, h - HeadArity(cx, c).params + HeadArity(cx, c).results)
  {
    hide U, S;
  }

  /** Operands an if takes before its block starts. */
  function Condition(c: Code): nat
    requires IsNest(c)
  {
    if c.If? || c.IfElse? then 1 else 0
  }

  function NestArity(cx: Context, c: Code): FuncType
    requires IsNest(c)
  {
    BlockArity(cx.types, S(c.bt))
  }

  lemma OpenHeight(cx: Context, code: seq<Byte>, c: Code, v: ScanState)
    requires IsNest(c) && CodeAt(code, v.ip, c) && v.ip < |code| && !v.unreachable
    requires Condition(c) + NestArity(cx, c).params <= v.depth && (Condition(c) == 0 || NestArity(cx, c).params == 0)
    ensures var r, t := ScanStep(cx, code, v), NestArity(cx, c);
            r.Ok? ==>
              && !r.v.unreachable && r.v.depth == v.depth - Condition(c) && |r.v.labels| == |v.labels| + 1
              && r.v.labels[|v.labels|].results == t.results
              && r.v.labels[|v.labels|].entry == v.depth - Condition(c) - t.params
  {
    hide U, S, UAt, SAt, ImmAt, ULen, BlockArity;
    assert ImmAt(code, v.ip + 1, c.bt);
    ImmScanned(code, v.ip + 1, c.bt);
  }

  /** The label a block's body sees. */
  function InnerLabels(cx: Context, c: Code, labels: seq<nat>): seq<nat>
    requires IsNest(c)
  {
    labels + [if c.Loop? then NestArity(cx, c).params else NestArity(cx, c).results]
  }

  lemma NestValid(cx: Context, c: Code, labels: seq<nat>, need: nat, h: nat)
    requires (c.Block? || c.Loop? || c.If?) && Valid(cx, c, labels, need, h)
    ensures var t := NestArity(cx, c);
            && Condition(c) + t.params <= h && (Condition(c) == 0 || t.params == 0)
            && Valid(cx, NestBody(c), InnerLabels(cx, c, labels), t.results, t.params)
            && Valid(cx, c.next, labels, need, h - Condition(c) - t.params + t.results)
  {
    hide S, U, BlockArity;
  }

  lemma IfElseValid(cx: Context, c: Code, labels: seq<nat>, need: nat, h: nat)
    requires c.IfElse? && Valid(cx, c, labels, need, h)
    ensures var t := NestArity(cx, c);
            && 1 <= h && t.params == 0
            && Valid(cx, c.thn, InnerLabels(cx, c, labels), t.results, 0)
            && Valid(cx, c.els, InnerLabels(cx, c, labels), t.results, 0)
            && Valid(cx, c.next, labels, need, h - 1 + t.results)
  {
    hide S, U, BlockArity;
  }

  lemma RunOn(cx: Context, code: seq<Byte>, v: ScanState, end: ScanState)
    requires ScanRun(cx, code, v) == Ok(end) && v.ip < |code| && |v.labels| <= v.maxLabels
    ensures ScanStep(cx, code, v).Ok?
    ensures var v' := ScanStep(cx, code, v).v; ScanRun(cx, code, v') == Ok(end) && |v'.labels| <= v'.maxLabels
  {
    hide ScanStep;
    StepExtends(cx, code, v);
  }

  lemma InBody(code: seq<Byte>, p: nat, c: Code)
    requires CodeAt(code, p, c)
    ensures p < |code|
  {
    hide ImmAt, ImmsAt, U, Size, OpBytes;
  }

  // ----- the pass lays the body out -----

  ghost predicate LaidHere(cx: Context, fn: Func, end: ScanState, c: Code, v: ScanState)
    requires fn.Local?
  {
    Laid(cx.types, cx.funcs, fn, end.marks, c, v.ip, v.depth, |v.labels|)
  }

  ghost predicate Marked(fn: Func, end: ScanState, v: ScanState)
    requires fn.Local?
  {
    v.ip in end.marks && end.marks[v.ip] == Mark(v.depth, |v.labels|) && v.depth <= fn.maxStack && |v.labels| <= fn.maxLabels
  }

  lemma LaidSimple(cx: Context, fn: Func, end: ScanState, c: Code, v: ScanState, v': ScanState)
    requires fn.Local? && GoesOn(cx, c) && Marked(fn, end, v) && LaidHere(cx, fn, end, c.next, v')
    requires v'.ip == v.ip + HeadSize(c) && |v'.labels| == |v.labels|
    requires v'.depth == v.depth - HeadArity(cx, c).params + HeadArity(cx, c).results
    ensures LaidHere(cx, fn, end, c, v)
  {
    hide U, S, OpBytes, BlockArity;
  }

  lemma LaidNest(cx: Context, fn: Func, end: ScanState, c: Code, v: ScanState, v1: ScanState, v2: ScanState)
    requires fn.Local? && (c.Block? || c.Loop? || c.If?) && Marked(fn, end, v)
    requires LaidHere(cx, fn, end, NestBody(c), v1) && LaidHere(cx, fn, end, c.next, v2)
    requires v1.ip == v.ip + 1 + |c.bt| && |v1.labels| == |v.labels| + 1 && v1.depth == v.depth - Condition(c)
    requires v2.ip == v1.ip + Size(NestBody(c)) + 1 && |v2.labels| == |v.labels|
    requires c.If? ==> NestArity(cx, c).params == 0
    requires v2.depth == v.depth - Condition(c) - NestArity(cx, c).params + NestArity(cx, c).results
    requires !c.Loop? ==> Lookup(fn.jumps, v1.ip) == Entry(JumpEntry(v1.ip, v2.ip, 0))
    ensures LaidHere(cx, fn, end, c, v)
  {
    hide U, S, OpBytes, BlockArity, Size, Lookup;
  }

  lemma LaidIfElse(cx: Context, fn: Func, end: ScanState, c: Code, v: ScanState, v1: ScanState, v2: ScanState, v3: ScanState)
    requires fn.Local? && c.IfElse? && Marked(fn, end, v)
    requires LaidHere(cx, fn, end, c.thn, v1) && LaidHere(cx, fn, end, c.els, v2) && LaidHere(cx, fn, end, c.next, v3)
    requires v1.ip == v.ip + 1 + |c.bt| && v2.ip == v1.ip + Size(c.thn) + 1 && v3.ip == v2.ip + Size(c.els) + 1
    requires |v1.labels| == |v.labels| + 1 == |v2.labels| && |v3.labels| == |v.labels|
    requires v1.depth == v.depth - 1 == v2.depth && v3.depth == v.depth - 1 + NestArity(cx, c).results
    requires Lookup(fn.jumps, v1.ip) == Entry(JumpEntry(v1.ip, v3.ip, v2.ip))
    ensures LaidHere(cx, fn, end, c, v)
  {
    hide U, S, OpBytes, BlockArity, Size, Lookup;
  }

  lemma {:induction false} ScanLaid(cx: Context, code: seq<Byte>, fn: Func, c: Code, v: ScanState, end: ScanState, labels: seq<nat>, need: nat, h: nat)
    requires TakesNumbers(fn, code, end) && Before(cx, code, c, v, end, fn.jumps, labels, need, h)
    ensures LaidHere(cx, fn, end, c, v)
    decreases c, 1
  {
    hide U, S, OpAt, OpBytes, ImmAt, ImmsAt, ScanStep, Table, CodeAt, Size, BlockArity, Covers, ScanRun, ByteAt, Valid, Lookup;
    InBody(code, v.ip, c);
    MarkKept(cx, code, v, end);
    match c
    case Plain(_, _) => ScanLaidSimple(cx, code, fn, c, v, end, labels, need, h);
    case BrIf(_, _) => ScanLaidSimple(cx, code, fn, c, v, end, labels, need, h);
    case Call(_, _) => ScanLaidSimple(cx, code, fn, c, v, end, labels, need, h);
    case Block(_, _, _) => ScanLaidNest(cx, code, fn, c, v, end, labels, need, h);
    case Loop(_, _, _) => ScanLaidNest(cx, code, fn, c, v, end, labels, need, h);
    case If(_, _, _) => ScanLaidNest(cx, code, fn, c, v, end, labels, need, h);
    case IfElse(_, _, _, _) => ScanLaidIfElse(cx, code, fn, c, v, end, labels, need, h);
    case _ =>
  }

  lemma {:induction false} ScanLaidSimple(cx: Context, code: seq<Byte>, fn: Func, c: Code, v: ScanState, end: ScanState, labels: seq<nat>, need: nat, h: nat)
    requires TakesNumbers(fn, code, end) && Before(cx, code, c, v, end, fn.jumps, labels, need, h)
    requires Marked(fn, end, v) && (c.Plain? || c.BrIf? || c.Call?)
    ensures LaidHere(cx, fn, end, c, v)
    decreases c, 0
  {
    hide U, S, OpAt, OpBytes, ImmAt, ImmsAt, ScanStep, Table, CodeAt, Size, HeadSize, HeadArity, Covers, ScanRun, Valid, LaidHere, Marked, GoesOn;
    HeadValid(cx, c, labels, need, h);
    InBody(code, v.ip, c);
    ScanHead(cx, code, c, v);
    HeadHeight(cx, code, c, v);
    RunOn(cx, code, v, end);
    SimpleNext(code, c, v.ip);
    SimpleShape(c, v.ip);
    var v' := ScanStep(cx, code, v).v;
    var t := HeadArity(cx, c);
    ScanLaid(cx, code, fn, c.next, v', end, labels, need, h - t.params + t.results);
    LaidSimple(cx, fn, end, c, v, v');
  }

  /** Where the pass stands behind a nested sequence of an accepted body. */
  lemma RunPast(cx: Context, code: seq<Byte>, c: Code, v: ScanState, end: ScanState) returns (v': ScanState)
    requires CodeAt(code, v.ip, c) && ScanRun(cx, code, v) == Ok(end) && |v.labels| <= v.maxLabels
    ensures ScanRun(cx, code, v') == Ok(end) && |v'.labels| <= v'.maxLabels
    ensures v'.ip == v.ip + Size(c) && v'.labels == v.labels
  {
    hide ScanRun, Fits, CodeAt, Size;
    var r := ScanCode(cx, code, c, v, |v.labels| + Depth(c), |v.jumps| + |Table(c, v.ip)|);
    v' := r.v;
  }

  lemma {:induction false} ScanLaidNest(cx: Context, code: seq<Byte>, fn: Func, c: Code, v: ScanState, end: ScanState, labels: seq<nat>, need: nat, h: nat)
    requires TakesNumbers(fn, code, end) && Before(cx, code, c, v, end, fn.jumps, labels, need, h)
    requires Marked(fn, end, v) && (c.Block? || c.Loop? || c.If?)
    ensures LaidHere(cx, fn, end, c, v)
    decreases c, 0
  {
    hide U, S, OpAt, ImmAt, ImmsAt, ScanStep, Table, CodeAt, Size, Covers, ScanRun, Valid, LaidHere, Marked, NestArity, Lookup, NewEntries, ByteAt;
    var t := NestArity(cx, c);
    NestValid(cx, c, labels, need, h);
    NestParts(code, c, v.ip);
    NestShape(c, v.ip);
    ScanOpen(cx, code, c, v);
    OpenHeight(cx, code, c, v);
    RunOn(cx, code, v, end);
    var v1 := ScanStep(cx, code, v).v;
    var q := v1.ip + Size(NestBody(c));
    var head := if c.Loop? then [] else [JumpEntry(v1.ip, q + 1, 0)];
    CoversParts(fn.jumps, head + Table(NestBody(c), v1.ip), Table(c.next, q + 1));
    CoversParts(fn.jumps, head, Table(NestBody(c), v1.ip));
    if !c.Loop? { CoversHead(fn.jumps, JumpEntry(v1.ip, q + 1, 0)); }
    ScanLaid(cx, code, fn, NestBody(c), v1, end, InnerLabels(cx, c, labels), t.results, t.params);
    var v2 := RunPast(cx, code, NestBody(c), v1, end);
    ScanClose(cx, code, v2);
    RunOn(cx, code, v2, end);
    var v3 := ScanStep(cx, code, v2).v;
    ScanLaid(cx, code, fn, c.next, v3, end, labels, need, h - Condition(c) - t.params + t.results);
    LaidNest(cx, fn, end, c, v, v1, v3);
  }

  lemma {:induction false} ScanLaidIfElse(cx: Context, code: seq<Byte>, fn: Func, c: Code, v: ScanState, end: ScanState, labels: seq<nat>, need: nat, h: nat)
    requires TakesNumbers(fn, code, end) && Before(cx, code, c, v, end, fn.jumps, labels, need, h)
    requires Marked(fn, end, v) && c.IfElse?
    ensures LaidHere(cx, fn, end, c, v)
    decreases c, 0
  {
    hide U, S, OpAt, ImmAt, ImmsAt, ScanStep, Table, CodeAt, Size, Covers, ScanRun, Valid, LaidHere, Marked, NestArity, Lookup, NewEntries, ByteAt;
    var t := NestArity(cx, c);
    IfElseValid(cx, c, labels, need, h);
    IfElseParts(code, c, v.ip);
    IfElseShape(c, v.ip);
    ScanOpen(cx, code, c, v);
    OpenHeight(cx, code, c, v);
    RunOn(cx, code, v, end);
    var v1 := ScanStep(cx, code, v).v;
    var p2 := v1.ip + Size(c.thn) + 1;
    var q := p2 + Size(c.els) + 1;
    var inner := Table(c.thn, v1.ip) + Table(c.els, p2);
    CoversParts(fn.jumps, [JumpEntry(v1.ip, q, p2)] + inner, Table(c.next, q));
    CoversParts(fn.jumps, [JumpEntry(v1.ip, q, p2)], inner);
    CoversParts(fn.jumps, Table(c.thn, v1.ip), Table(c.els, p2));
    CoversHead(fn.jumps, JumpEntry(v1.ip, q, p2));
    ScanLaid(cx, code, fn, c.thn, v1, end, InnerLabels(cx, c, labels), t.results, 0);
    var v2 := RunPast(cx, code, c.thn, v1, end);
    ScanMiddle(cx, code, v2);
    RunOn(cx, code, v2, end);
    var v3 := ScanStep(cx, code, v2).v;
    ScanLaid(cx, code, fn, c.els, v3, end, InnerLabels(cx, c, labels), t.results, 0);
    var v4 := RunPast(cx, code, c.els, v3, end);
    ScanClose(cx, code, v4);
    RunOn(cx, code, v4, end);
    var v5 := ScanStep(cx, code, v4).v;
    ScanLaid(cx, code, fn, c.next, v5, end, labels, need, h - 1 + t.results);
    LaidIfElse(cx, fn, end, c, v, v1, v3, v5);
  }
}
