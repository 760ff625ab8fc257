// The loader's two passes on arbitrary bytes. The first skips an immediate up to its terminator, the main pass decodes at most
// five bytes of it; as long as no longer one is met, both see the same opcodes and the buffers suffice.
module Lockstep {
  import opened Leb128
  import opened Bytecode
  import opened Runtime
  import opened Validity
  import opened Scan
  import opened ScanProof
  import opened PreScan
  import Acceptance

  /** The immediate at `p` does not end within the five bytes that are decoded. */
  predicate Overlong(code: seq<Byte>, p: nat)
    requires p <= |code|
  {
    SkipLeb(code, p, |code|) > p + 5
  }

  /** One of `n` + 1 targets is too long. */
  predicate OverlongTarget(code: seq<Byte>, p: nat, n: nat)
    requires p <= |code|
    decreases n
  {
    Overlong(code, p) || (n > 0 && OverlongTarget(code, p + ULen(code, p), n - 1))
  }

  predicate OneImmediate(b: Byte)
  {
    0x02 <= b <= 0x04 || b == 0x0C || b == 0x0D || b == 0x10 || 0x20 <= b <= 0x24 || b == 0x41
  }

  /** Opcode `b`, whose immediates start at `p`, has one that is too long. */
  predicate HasOverlong(code: seq<Byte>, b: Byte, p: nat)
    requires p <= |code|
  {
    if b == 0x0E then Overlong(code, p) || OverlongTarget(code, p + ULen(code, p), UAt(code, p))
    else OneImmediate(b) && Overlong(code, p)
  }

  /** No opcode that the main pass gets over from `v` on has such an immediate. */
  predicate AllShort(cx: Context, code: seq<Byte>, v: ScanState)
    decreases |code| - v.ip
  {
    v.ip < |code| ==>
      var r := ScanStep(cx, code, v);
      r.Ok? ==> v.ip < r.v.ip <= |code| && !HasOverlong(code, code[v.ip], v.ip + 1) && AllShort(cx, code, r.v)
  }

  lemma {:induction false} TakenSkips(code: seq<Byte>, p: nat, max: nat)
    requires p <= |code|
    ensures Taken(code, p, |code|, max) == if SkipLeb(code, p, |code|) > p + max then max else SkipLeb(code, p, |code|) - p
    decreases max
  {
    if p < |code| && max > 0 && code[p] >= 128 { TakenSkips(code, p + 1, max - 1); }
  }

  lemma {:induction false} TargetsAligned(code: seq<Byte>, v: ScanState, n: nat)
    requires v.ip <= |code| && ScanTargets(code, v, n).Ok? && !OverlongTarget(code, v.ip, n)
    ensures ScanTargets(code, v, n).v.ip == Skip(code, v.ip, n + 1)
    decreases n
  {
    hide UAt, SkipLeb, Taken;
    TakenSkips(code, v.ip, 5);
    if v.ip == |code| { SkipAtEnd(code, n + 1); SkipAtEnd(code, n); EndTaken(code); }
    var v' := v.(ip := v.ip + ULen(code, v.ip));
    if n > 0 {
      TargetsAligned(code, v', n - 1);
    } else if v.ip < |code| {
      assert Skip(code, v'.ip, 0) == v'.ip;
    }
  }

  lemma EndTaken(code: seq<Byte>)
    ensures ULen(code, |code|) == 0
  {
  }

  lemma SkipAtEnd(code: seq<Byte>, times: nat)
    ensures Skip(code, |code|, times) == |code|
  {
  }

  /** For an opcode with one immediate the passes stay aligned if and only if it is not too long. */
  lemma StepAligned(cx: Context, code: seq<Byte>, v: ScanState)
    requires v.ip < |code| && ScanStep(cx, code, v).Ok?
    ensures var r, b, p := ScanStep(cx, code, v), code[v.ip], v.ip + 1;
            && (!HasOverlong(code, b, p) ==> r.v.ip == SkipImmediates(code, b, p))
            && (OneImmediate(b) ==> (r.v.ip == SkipImmediates(code, b, p) <==> !Overlong(code, p)))
  {
    hide UAt, SAt, SkipLeb, Taken, BlockArity, ScanTargets, OverlongTarget, CountAt, Skip;
    var b, p := code[v.ip], v.ip + 1;
    TakenSkips(code, p, 5);
    if b == 0x0E && !HasOverlong(code, b, p) {
      CountIsRead(code, p);
      TargetsAligned(code, Noted(v).(ip := p + ULen(code, p)), UAt(code, p));
    }
  }

  lemma CountIsRead(code: seq<Byte>, p: nat)
    requires p <= |code| && !Overlong(code, p)
    ensures CountAt(code, p) == UAt(code, p) && SkipLeb(code, p, |code|) == p + ULen(code, p)
  {
    hide U32At;
    TakenSkips(code, p, 5);
  }

  /** What a step does to labels and table, by its opcode. */
  lemma StepCounts(cx: Context, code: seq<Byte>, v: ScanState)
    requires v.ip < |code| && ScanStep(cx, code, v).Ok?
    ensures var r, b := ScanStep(cx, code, v), code[v.ip];
            && |r.v.labels| == (if 0x02 <= b <= 0x04 then |v.labels| + 1 else if b == 0x0B && v.labels != [] then |v.labels| - 1 else |v.labels|)
            && |r.v.jumps| == |v.jumps| + (if b == 0x02 || b == 0x04 then 1 else 0)
            && (0x02 <= b <= 0x04 ==> |v.labels| < MAX_LABEL_DEPTH)
  {
    hide UAt, SAt, Taken, BlockArity;
  }

  /** The first pass never takes back a maximum or a count. */
  lemma {:induction false} PreGrows(code: seq<Byte>, s: PreState)
    requires PreRun(code, s).Counted?
    ensures PreRun(code, s).s.max >= s.max && PreRun(code, s).s.count >= s.count
    decreases |code| - s.p
  {
    hide SkipImmediates;
    if s.p < |code| { PreGrows(code, PreStep(code, s).s); }
  }

  /** While no immediate is too long, both passes see the same opcodes. */
  lemma {:induction false} SideBySide(cx: Context, code: seq<Byte>, v: ScanState, s: PreState)
    requires AllShort(cx, code, v) && PreRun(code, s).Counted?
    requires s.p == v.ip && |v.labels| <= s.top <= s.max && s.top >= 1 && s.count == |v.jumps|
    ensures Fits(cx, code, v, PreRun(code, s).s.max, PreRun(code, s).s.count)
    ensures ScanRun(cx, code, v).Ok? ==> |ScanRun(cx, code, v).v.jumps| == PreRun(code, s).s.count
    decreases |code| - v.ip
  {
    hide ScanStep, HasOverlong, SkipImmediates;
    PreGrows(code, s);
    if v.ip < |code| && ScanStep(cx, code, v).Ok? {
      StepAligned(cx, code, v);
      StepCounts(cx, code, v);
      SideBySide(cx, code, ScanStep(cx, code, v).v, PreStep(code, s).s);
    }
  }

  /** On any bytes in which the main pass meets no immediate that is too long, the buffers sized by the first pass suffice,
      and the table is full when the main pass accepts. */
  lemma BuffersSuffice(cx: Context, code: seq<Byte>)
    requires AllShort(cx, code, FirstState(cx.results)) && PreBody(code).Counted?
    ensures Fits(cx, code, FirstState(cx.results), PreBody(code).s.max, PreBody(code).s.count)
    ensures ScanBody(cx, code).Ok? ==> |ScanBody(cx, code).v.jumps| == PreBody(code).s.count
  {
    hide ScanRun, AllShort, Fits, PreRun;
    SideBySide(cx, code, FirstState(cx.results), PreState(0, 1, 1, 0));
  }

  // ----- an immediate that is too long -----

  const OverlongBytes: seq<Byte> := [0x02, 0x40, 0x0B, 0x41, 0x80, 0x80, 0x80, 0x80, 0x80, 0x02, 0x40, 0x0B, 0x0B]

  lemma OverlongCounted()
    ensures PreBody(OverlongBytes) == Counted(PreState(13, 1, 2, 1))
  {
    hide PreStep;
    var code := OverlongBytes;
    OverlongSteps();
    assert PreRun(code, PreState(13, 1, 2, 1)) == Counted(PreState(13, 1, 2, 1));
    assert PreRun(code, PreState(12, 1, 2, 1)) == PreRun(code, PreState(13, 1, 2, 1));
    assert PreRun(code, PreState(10, 1, 2, 1)) == PreRun(code, PreState(12, 1, 2, 1));
    assert PreRun(code, PreState(3, 1, 2, 1)) == PreRun(code, PreState(10, 1, 2, 1));
    assert PreRun(code, PreState(2, 2, 2, 1)) == PreRun(code, PreState(3, 1, 2, 1));
  }

  lemma OverlongSteps()
    ensures var code := OverlongBytes;
            && PreStep(code, PreState(0, 1, 1, 0)) == Counted(PreState(2, 2, 2, 1))
            && PreStep(code, PreState(2, 2, 2, 1)) == Counted(PreState(3, 1, 2, 1))
            && PreStep(code, PreState(3, 1, 2, 1)) == Counted(PreState(10, 1, 2, 1))
            && PreStep(code, PreState(10, 1, 2, 1)) == Counted(PreState(12, 1, 2, 1))
            && PreStep(code, PreState(12, 1, 2, 1)) == Counted(PreState(13, 1, 2, 1))
  {
    hide CountAt, Skip, PreRun, SkipLeb;
    SkippedBytes();
  }

  lemma SkippedBytes()
    ensures SkipLeb(OverlongBytes, 1, 13) == 2 && SkipLeb(OverlongBytes, 4, 13) == SkipLeb(OverlongBytes, 7, 13) == 10
  {
    var code := OverlongBytes;
    assert SkipLeb(code, 9, 13) == 10;
  }

  /** An empty block is opened at `v.ip`. */
  lemma OpensEmpty(cx: Context, code: seq<Byte>, v: ScanState)
    requires v.ip + 1 < |code| && code[v.ip] == 0x02 && code[v.ip + 1] == 0x40 && v.depth >= 0 && |v.labels| < MAX_LABEL_DEPTH
    ensures var r := ScanStep(cx, code, v);
            r.Ok? && r.v.ip == v.ip + 2 && |r.v.jumps| == |v.jumps| + 1 && |r.v.labels| == |v.labels| + 1 && r.v.depth == v.depth
            && r.v.labels[|v.labels|] == ValLabel(v.depth, 0, |v.jumps|, 0x02)
  {
    hide UAt, SAt, ULen;
    var imm := [0x40];
    assert Legal(imm, 5) && HasBytes(code, v.ip + 1, imm);
    ImmScanned(code, v.ip + 1, imm);
    Acceptance.Empty40();
    Acceptance.NegativeType(cx.types);
  }

  lemma OverlongScanned(cx: Context)
    ensures !Fits(cx, OverlongBytes, FirstState(cx.results), 2, 1)
  {
    hide BlockArity, UAt, SAt;
    var code, v0 := OverlongBytes, FirstState(cx.results);
    OpensEmpty(cx, code, v0);
    var v1 := ScanStep(cx, code, v0).v;
    var v2 := ScanStep(cx, code, v1).v;
    assert v2.ip == 3 && v2.depth == 0 && |v2.jumps| == 1 && |v2.labels| == 1;
    TakenSkips(code, 4, 5);
    SkippedBytes();
    assert ULen(code, 4) == 5;
    var v3 := ScanStep(cx, code, v2).v;
    assert v3.ip == 9 && v3.depth == 1 && |v3.jumps| == 1 && |v3.labels| == 1;
    OpensEmpty(cx, code, v3);
    var v4 := ScanStep(cx, code, v3).v;
    assert !Fits(cx, code, v4, 2, 1);
    assert !Fits(cx, code, v3, 2, 1);
    assert !Fits(cx, code, v2, 2, 1);
    assert !Fits(cx, code, v1, 2, 1);
  }

  /** The first pass takes the second `block` for the last byte of a constant and counts one; the main pass stops reading the
      constant after five bytes and writes two entries. */
  lemma OverlongOverruns(cx: Context)
    ensures PreBody(OverlongBytes) == Counted(PreState(13, 1, 2, 1))
    ensures !Fits(cx, OverlongBytes, FirstState(cx.results), 2, 1)
  {
    OverlongCounted();
    OverlongScanned(cx);
  }
}
