// The loader's scan of a function body: one linear pass over the bytes that tracks the operand height and the open
// labels, and records the maxima and the jump table. This module is the pass as a function; `Loader` is the code.
module Scan {
  import opened Leb128
  import opened Bytecode
  import opened Runtime
  import opened Validity

  const MAX_LABEL_DEPTH: nat := 0xFFFF
  const MAX_STACK: int := 0xFFFF

  /** An open label: height below it, results, its entry in the jump table (-1 for none), opcode (0 for the function). */
  datatype ValLabel = ValLabel(entry: int, results: nat, jump: int, op: Byte)

  /** The scan in front of offset `ip`; `marks` remembers height and label count at every offset visited. */
  datatype ScanState = ScanState(
    ip: nat,
    labels: seq<ValLabel>,
    maxLabels: nat,
    depth: int,
    maxDepth: int,
    unreachable: bool,
    jumps: seq<JumpEntry>,
    marks: map<nat, Mark>)

  datatype ScanResult = Ok(v: ScanState) | Rejected

  function Max(a: int, b: int): int { if a > b then a else b }

  // ----- immediates as the bounds-checked decoders read them -----

  function ULen(code: seq<Byte>, p: nat): nat
    requires p <= |code|
  {
    Taken(code, p, |code|, 5)
  }

  function UAt(code: seq<Byte>, p: nat): nat
    requires p <= |code|
  {
    U32At(code, p, ULen(code, p))
  }

  function SAt(code: seq<Byte>, p: nat): int
    requires p <= |code|
  {
    S32At(code, p, ULen(code, p))
  }

  lemma ImmScanned(code: seq<Byte>, p: nat, imm: Imm)
    requires ImmAt(code, p, imm)
    ensures p <= |code| && ULen(code, p) == |imm| && UAt(code, p) == U(imm) && SAt(code, p) == S(imm)
  {
    TakenLegal(code, p, |code|, 5, imm);
    PayloadOfSlice(code, p, imm, |imm|);
  }

  // ----- one opcode -----

  /** Takes `n` operands; missing ones are accepted only in unreachable code, where nothing is taken. */
  function Take(v: ScanState, n: nat): ScanResult
  {
    if v.depth < n then (if v.unreachable then Ok(v) else Rejected) else Ok(v.(depth := v.depth - n))
  }

  function Stop(r: ScanResult): ScanResult
  {
    if r.Rejected? then r else Ok(r.v.(unreachable := true))
  }

  function Open(v: ScanState, l: ValLabel, jumps: seq<JumpEntry>): ScanResult
  {
    if |v.labels| >= MAX_LABEL_DEPTH then Rejected
    else Ok(v.(labels := v.labels + [l], maxLabels := if |v.labels| + 1 > v.maxLabels then |v.labels| + 1 else v.maxLabels,
               jumps := jumps))
  }

  /** block and loop: parameters stay on the stack. */
  function ScanBlock(cx: Context, code: seq<Byte>, op: Byte, v: ScanState): ScanResult
    requires v.ip <= |code|
  {
    var t := BlockArity(cx.types, SAt(code, v.ip));
    var v1 := v.(ip := v.ip + ULen(code, v.ip));
    if v1.depth < t.params && !v1.unreachable then Rejected
    else
      var entry := if v1.depth < t.params then 0 else v1.depth - t.params;
      if op == 0x02 then Open(v1, ValLabel(entry, t.results, |v1.jumps|, op), v1.jumps + [JumpEntry(v1.ip, 0, 0)])
      else Open(v1, ValLabel(entry, t.results, -1, op), v1.jumps)
  }

  function ScanIf(cx: Context, code: seq<Byte>, v: ScanState): ScanResult
    requires v.ip <= |code|
  {
    var t := BlockArity(cx.types, SAt(code, v.ip));
    var r := Take(v.(ip := v.ip + ULen(code, v.ip)), 1);
    if r.Rejected? then r
    else Open(r.v, ValLabel(r.v.depth, t.results, |v.jumps|, 0x04), v.jumps + [JumpEntry(r.v.ip, 0, 0)])
  }

  function ScanElse(v: ScanState): ScanResult
  {
    if v.labels == [] then Ok(v.(unreachable := false))
    else
      var l := v.labels[|v.labels| - 1];
      Ok(v.(depth := l.entry, unreachable := false,
            jumps := if 0 <= l.jump < |v.jumps| then v.jumps[l.jump := v.jumps[l.jump].(els := v.ip)] else v.jumps))
  }

  function ScanEnd(v: ScanState): ScanResult
  {
    if v.labels == [] then Ok(v.(unreachable := false))
    else
      var l := v.labels[|v.labels| - 1];
      Ok(v.(depth := l.entry + l.results, unreachable := false, labels := v.labels[..|v.labels| - 1],
            jumps := if 0 <= l.jump < |v.jumps| then v.jumps[l.jump := v.jumps[l.jump].(end := v.ip)] else v.jumps))
  }

  function ScanTargets(code: seq<Byte>, v: ScanState, n: nat): ScanResult
    requires v.ip <= |code|
    ensures ScanTargets(code, v, n).Ok? ==>
              var v' := ScanTargets(code, v, n).v; v.ip <= v'.ip <= |code| && v' == v.(ip := v'.ip)
    decreases n
  {
    if UAt(code, v.ip) >= |v.labels| then Rejected
    else
      var v' := v.(ip := v.ip + ULen(code, v.ip));
      if n == 0 then Ok(v') else ScanTargets(code, v', n - 1)
  }

  function ScanBranch(code: seq<Byte>, op: Byte, v: ScanState): ScanResult
    requires v.ip <= |code|
  {
    var n := UAt(code, v.ip);
    var v1 := v.(ip := v.ip + ULen(code, v.ip));
    if op == 0x0E then
      var r := ScanTargets(code, v1, n);
      if r.Rejected? then r else Stop(Take(r.v, 1))
    else if n >= |v.labels| then Rejected
    else if op == 0x0C then Stop(Ok(v1))
    else Take(v1, 1)
  }

  function ScanCall(cx: Context, code: seq<Byte>, v: ScanState): ScanResult
    requires v.ip <= |code|
  {
    var f := UAt(code, v.ip);
    var v1 := v.(ip := v.ip + ULen(code, v.ip));
    if f >= |cx.funcs| then Rejected
    else if v1.depth < cx.funcs[f].params then
      if v1.unreachable then Ok(v1.(depth := cx.funcs[f].results)) else Rejected
    else Ok(v1.(depth := v1.depth - cx.funcs[f].params + cx.funcs[f].results))
  }

  /** local.get, local.set, local.tee, global.get, global.set */
  function ScanVariable(cx: Context, code: seq<Byte>, op: Byte, v: ScanState): ScanResult
    requires v.ip <= |code|
  {
    var v1 := v.(ip := v.ip + ULen(code, v.ip));
    if UAt(code, v.ip) >= (if op >= 0x23 then cx.globals else cx.locals) then Rejected
    else if op == 0x20 || op == 0x23 then Ok(v1.(depth := v1.depth + 1))
    else if op == 0x22 then Ok(v1)
    else Take(v1, 1)
  }

  /** `v.ip` stands behind the opcode. */
  function ScanOp(cx: Context, code: seq<Byte>, op: Byte, v: ScanState): ScanResult
    requires v.ip <= |code|
  {
    if op == 0x00 || op == 0x0F then Stop(Ok(v))
    else if op == 0x01 || op == 0x45 then Ok(v)
    else if op == 0x02 || op == 0x03 then ScanBlock(cx, code, op, v)
    else if op == 0x04 then ScanIf(cx, code, v)
    else if op == 0x05 then ScanElse(v)
    else if op == 0x0B then ScanEnd(v)
    else if 0x0C <= op <= 0x0E then ScanBranch(code, op, v)
    else if op == 0x10 then ScanCall(cx, code, v)
    else if op == 0x1A then Take(v, 1)
    else if op == 0x1B then Take(v, 2)
    else if 0x20 <= op <= 0x24 then ScanVariable(cx, code, op, v)
    else if op == 0x41 then Ok(v.(ip := v.ip + ULen(code, v.ip), depth := v.depth + 1))
    else if IsBinary(op) then Take(v, 1)
    else Rejected
  }

  /** The state in which the opcode at `v.ip` is interpreted: maximum and mark taken, opcode consumed. */
  function Noted(v: ScanState): ScanState
  {
    v.(ip := v.ip + 1, maxDepth := Max(v.maxDepth, v.depth), marks := v.marks[v.ip := Mark(v.depth, |v.labels|)])
  }

  function ScanStep(cx: Context, code: seq<Byte>, v: ScanState): ScanResult
    requires v.ip < |code|
  {
    ScanOp(cx, code, code[v.ip], Noted(v))
  }

  /** What no opcode undoes: progress, marks, maxima. */
  predicate Extends(code: seq<Byte>, v: ScanState, v': ScanState)
  {
    && v.ip < v'.ip <= |code|
    && v'.maxDepth == Max(v.maxDepth, v.depth)
    && v.maxLabels <= v'.maxLabels && (|v.labels| <= v.maxLabels ==> |v'.labels| <= v'.maxLabels)
    && (v'.maxLabels == v.maxLabels || v'.maxLabels == |v'.labels|)
    && v'.marks == v.marks[v.ip := Mark(v.depth, |v.labels|)]
  }

  lemma StepExtends(cx: Context, code: seq<Byte>, v: ScanState)
    requires v.ip < |code|
    ensures ScanStep(cx, code, v).Ok? ==> Extends(code, v, ScanStep(cx, code, v).v)
  {
    hide UAt, SAt, BlockArity;
  }

  // ----- the whole pass -----

  function ScanRun(cx: Context, code: seq<Byte>, v: ScanState): (r: ScanResult)
    decreases |code| - v.ip
  {
    if v.ip >= |code| then
      var end := v.(maxDepth := Max(v.maxDepth, v.depth));
      if end.maxLabels > MAX_LABEL_DEPTH || end.maxDepth > MAX_STACK then Rejected else Ok(end)
    else
      StepExtends(cx, code, v);
      match ScanStep(cx, code, v)
      case Ok(v') => ScanRun(cx, code, v')
      case Rejected => Rejected
  }

  function FirstState(results: nat): ScanState
  {
    ScanState(0, [ValLabel(0, results, -1, 0x00)], 1, 0, 0, false, [], map[])
  }

  /** The pass over a whole body. */
  function ScanBody(cx: Context, code: seq<Byte>): ScanResult
  {
    ScanRun(cx, code, FirstState(cx.results))
  }

  /** Marks of visited offsets and maxima survive to the end of an accepting pass. */
  lemma {:induction false} Kept(cx: Context, code: seq<Byte>, v: ScanState, end: ScanState)
    requires ScanRun(cx, code, v) == Ok(end) && |v.labels| <= v.maxLabels
    ensures forall p :: p in v.marks && p < v.ip ==> p in end.marks && end.marks[p] == v.marks[p]
    ensures v.maxDepth <= end.maxDepth && v.depth <= end.maxDepth && v.maxLabels <= end.maxLabels
    decreases |code| - v.ip
  {
    hide ScanStep;
    if v.ip < |code| {
      StepExtends(cx, code, v);
      Kept(cx, code, ScanStep(cx, code, v).v, end);
    }
  }

  /** The mark left at the current offset is in the final map, and the maxima cover it. */
  lemma MarkKept(cx: Context, code: seq<Byte>, v: ScanState, end: ScanState)
    requires ScanRun(cx, code, v) == Ok(end) && |v.labels| <= v.maxLabels && v.ip < |code|
    ensures v.ip in end.marks && end.marks[v.ip] == Mark(v.depth, |v.labels|)
    ensures v.depth <= end.maxDepth && |v.labels| <= end.maxLabels
  {
    hide ScanStep;
    StepExtends(cx, code, v);
    Kept(cx, code, v, end);
    Kept(cx, code, ScanStep(cx, code, v).v, end);
  }
}
