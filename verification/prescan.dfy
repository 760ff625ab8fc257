// The loader's first pass: it only skips immediates and counts, to size the buffers of the second pass. On every
// well-encoded body its counts are exactly what the second pass fills.
module PreScan {
  import opened Leb128
  import opened Bytecode
  import opened Runtime
  import opened Validity
  import opened Flat
  import opened Scan
  import opened Simulation
  import opened ScanProof
  import opened LoadedBody

  /** `top` labels open in front of `p`, at most `max` so far, `count` blocks and ifs seen. */
  datatype PreState = PreState(p: nat, top: nat, max: nat, count: nat)

  datatype PreResult = Counted(s: PreState) | TooDeep

  function Skip(code: seq<Byte>, p: nat, times: nat): (q: nat)
    requires p <= |code|
    ensures p <= q <= |code|
    decreases times
  {
    if times == 0 || p == |code| then p else Skip(code, SkipLeb(code, p, |code|), times - 1)
  }

  /** The count of a br_table or select, read up to its terminator. */
  function CountAt(code: seq<Byte>, p: nat): nat
    requires p <= |code|
  {
    U32At(code, p, SkipLeb(code, p, |code|) - p)
  }

  function Jumped(code: seq<Byte>, p: nat, n: nat): nat
    requires p <= |code|
  {
    if n <= |code| - p then p + n else |code|
  }

  /** Where the immediates of opcode `b` end, read from `p`. */
  function SkipImmediates(code: seq<Byte>, b: Byte, p: nat): (q: nat)
    requires p <= |code|
    ensures p <= q <= |code|
  {
    if b == 0x0E then Skip(code, SkipLeb(code, p, |code|), CountAt(code, p) + 1)
    else if 0x02 <= b <= 0x04 || b == 0x0C || b == 0x0D || b == 0x10 || 0x20 <= b <= 0x26 || b == 0xD2 || b == 0x41
            || b == 0x42 || b == 0xD0 then SkipLeb(code, p, |code|)
    else if b == 0x11 || 0x28 <= b <= 0x3E then Skip(code, p, 2)
    else if b == 0x1C then Jumped(code, SkipLeb(code, p, |code|), CountAt(code, p))
    else if b == 0x3F || b == 0x40 then Jumped(code, p, 1)
    else if b == 0x43 then Jumped(code, p, 4)
    else if b == 0x44 then Jumped(code, p, 8)
    else if b == 0xFC then
      var sub, q := CountAt(code, p), SkipLeb(code, p, |code|);
      if sub == 8 || sub == 10 || sub == 12 || sub == 14 then Skip(code, q, 2)
      else if 9 <= sub <= 17 then Skip(code, q, 1)
      else q
    else p
  }

  /** `s.p` stands behind opcode `b`. */
  function PreOp(code: seq<Byte>, b: Byte, s: PreState): PreResult
    requires s.p <= |code|
  {
    var s' := s.(p := SkipImmediates(code, b, s.p));
    if 0x02 <= b <= 0x04 then
      if s.top >= MAX_LABEL_DEPTH then TooDeep
      else Counted(s'.(top := s.top + 1, max := if s.top + 1 > s.max then s.top + 1 else s.max,
                       count := if b != 0x03 then s.count + 1 else s.count))
    else if b == 0x0B then Counted(s'.(top := if s.top > 1 then s.top - 1 else s.top))
    else Counted(s')
  }

  function PreStep(code: seq<Byte>, s: PreState): (r: PreResult)
    requires s.p < |code|
    ensures r.Counted? ==> s.p < r.s.p <= |code|
  {
    PreOp(code, code[s.p], s.(p := s.p + 1))
  }

  function PreRun(code: seq<Byte>, s: PreState): PreResult
    decreases |code| - s.p
  {
    if s.p >= |code| then Counted(s)
    else
      match PreStep(code, s)
      case Counted(s') => PreRun(code, s')
      case TooDeep => TooDeep
  }

  function PreBody(code: seq<Byte>): PreResult { PreRun(code, PreState(0, 1, 1, 0)) }

  // ----- skipping a well-encoded immediate -----

  lemma {:induction false} SkipImm(code: seq<Byte>, p: nat, imm: Imm)
    requires ImmAt(code, p, imm)
    ensures p + |imm| <= |code| && SkipLeb(code, p, |code|) == p + |imm| && CountAt(code, p) == U(imm)
  {
    hide U32At;
    ImmInside(code, p, imm);
    SkipMatchesDecoders(code, p, |code|, 5, imm);
    ImmScanned(code, p, imm);
    TakenLegal(code, p, |code|, 5, imm);
  }

  lemma {:induction false} ImmInside(code: seq<Byte>, p: nat, imm: Imm)
    requires ImmAt(code, p, imm)
    ensures p + |imm| <= |code|
  {
    ByteOf(code, p, imm, |imm| - 1);
  }

  lemma {:induction false} SkipImms(code: seq<Byte>, p: nat, ts: seq<Imm>, d: Imm)
    requires ImmsAt(code, p, ts) && ImmAt(code, p + ImmsSize(ts), d)
    ensures p + ImmsSize(ts) + |d| <= |code| && Skip(code, p, |ts| + 1) == p + ImmsSize(ts) + |d|
    decreases |ts|
  {
    hide SkipLeb, ImmAt;
    if ts == [] {
      SkipImm(code, p, d);
      ImmNonEmpty(code, p, d);
      assert Skip(code, p + |d|, 0) == p + |d|;
    } else {
      SkipImm(code, p, ts[0]);
      ImmNonEmpty(code, p, ts[0]);
      SkipImms(code, p + |ts[0]|, ts[1..], d);
    }
  }

  lemma ImmNonEmpty(code: seq<Byte>, p: nat, imm: Imm)
    requires ImmAt(code, p, imm)
    ensures |imm| > 0
  {
  }

  lemma SkipOp(code: seq<Byte>, op: PlainOp, p: nat)
    requires OpAt(code, p, op)
    ensures p < |code| && code[p] !in {0x02, 0x03, 0x04, 0x0B} && SkipImmediates(code, code[p], p + 1) == p + |OpBytes(op)|
  {
    hide SkipLeb, Skip, ImmAt, CountAt;
    match op
    case LocalGet(i) => SkipImm(code, p + 1, i);
    case LocalSet(i) => SkipImm(code, p + 1, i);
    case LocalTee(i) => SkipImm(code, p + 1, i);
    case GlobalGet(i) => SkipImm(code, p + 1, i);
    case GlobalSet(i) => SkipImm(code, p + 1, i);
    case Const(i) => SkipImm(code, p + 1, i);
    case _ =>
  }

  lemma SkipHead(code: seq<Byte>, c: Code, p: nat)
    requires !c.End? && !IsNest(c) && CodeAt(code, p, c)
    ensures p < |code| && code[p] !in {0x02, 0x03, 0x04, 0x0B} && SkipImmediates(code, code[p], p + 1) == p + HeadSize(c)
  {
    hide SkipLeb, Skip, OpAt, ImmAt, CountAt, OpBytes;
    match c
    case Plain(op, _) => SkipOp(code, op, p);
    case Br(l, _) => SkipImm(code, p + 1, l);
    case BrIf(l, _) => SkipImm(code, p + 1, l);
    case BrTable(n, ts, d, _) => SkipImm(code, p + 1, n); SkipImms(code, p + 1 + |n|, ts, d);
    case Call(f, _) => SkipImm(code, p + 1, f);
    case _ =>
  }

  /** The opcodes whose bodies are not followed otherwise are skipped with the immediates that section 5.4 of the WebAssembly
      Core Specification 2.0 gives them: call_indirect and memory accesses, table and reference instructions, typed select,
      memory.size and memory.grow, and the constants of 64 bits and of floating point. */
  lemma SkipsOthers(code: seq<Byte>, op: Byte, p: nat, x: Imm, y: Imm)
    requires p <= |code|
    ensures (op == 0x11 || 0x28 <= op <= 0x3E) && ImmAt(code, p, x) && ImmAt(code, p + |x|, y) ==> SkipImmediates(code, op, p) == p + |x| + |y|
    ensures op in {0x25, 0x26, 0xD0, 0xD2} && ImmAt(code, p, x) ==> SkipImmediates(code, op, p) == p + |x|
    ensures op == 0x42 && Legal(x, 10) && HasBytes(code, p, x) ==> SkipImmediates(code, op, p) == p + |x|
    ensures op == 0x1C && ImmAt(code, p, x) && p + |x| + U(x) <= |code| ==> SkipImmediates(code, op, p) == p + |x| + U(x)
    ensures (op == 0x3F || op == 0x40) && p + 1 <= |code| ==> SkipImmediates(code, op, p) == p + 1
    ensures op == 0x43 && p + 4 <= |code| ==> SkipImmediates(code, op, p) == p + 4
    ensures op == 0x44 && p + 8 <= |code| ==> SkipImmediates(code, op, p) == p + 8
    ensures op in {0x00, 0x01, 0x05, 0x0B, 0x0F, 0x1A, 0x1B, 0xD1} || 0x45 <= op <= 0xC4 ==> SkipImmediates(code, op, p) == p
  {
    hide ImmAt, CountAt, SkipLeb, U;
    if ImmAt(code, p, x) {
      SkipImm(code, p, x);
      ImmNonEmpty(code, p, x);
      if ImmAt(code, p + |x|, y) {
        SkipImm(code, p + |x|, y);
        ImmNonEmpty(code, p + |x|, y);
        SkipTwo(code, p, |x|, |y|);
      }
    }
    if op == 0x42 && Legal(x, 10) && HasBytes(code, p, x) {
      ByteOf(code, p, x, |x| - 1);
      SkipMatchesDecoders(code, p, |code|, 10, x);
      TakenLegal(code, p, |code|, 10, x);
    }
  }

  lemma SkipTwo(code: seq<Byte>, p: nat, m: nat, n: nat)
    requires m > 0 && n > 0 && p + m + n <= |code| && SkipLeb(code, p, |code|) == p + m && SkipLeb(code, p + m, |code|) == p + m + n
    ensures Skip(code, p, 2) == p + m + n
  {
    assert Skip(code, p + m + n, 0) == p + m + n;
    assert Skip(code, p + m, 1) == p + m + n;
  }

  /** The bulk instructions behind 0xFC: `sub` selects two indices, one, or none. */
  lemma SkipsBulk(code: seq<Byte>, p: nat, sub: Imm, x: Imm, y: Imm)
    requires p <= |code| && ImmAt(code, p, sub)
    ensures var q := p + |sub|;
            && (U(sub) in {8, 10, 12, 14} && ImmAt(code, q, x) && ImmAt(code, q + |x|, y) ==> SkipImmediates(code, 0xFC, p) == q + |x| + |y|)
            && (U(sub) in {9, 11, 13, 15, 16, 17} && ImmAt(code, q, x) ==> SkipImmediates(code, 0xFC, p) == q + |x|)
            && (U(sub) < 8 ==> SkipImmediates(code, 0xFC, p) == q)
  {
    hide ImmAt, CountAt, SkipLeb, U;
    var q := p + |sub|;
    SkipImm(code, p, sub);
    if ImmAt(code, q, x) {
      SkipImm(code, q, x);
      ImmNonEmpty(code, q, x);
      assert Skip(code, q + |x|, 0) == q + |x|;
      if ImmAt(code, q + |x|, y) {
        SkipImm(code, q + |x|, y);
        ImmNonEmpty(code, q + |x|, y);
        SkipTwo(code, q, |x|, |y|);
      }
    }
  }

  // ----- the first pass over a sequence -----

  /** The first pass behind `c`. */
  function PreBehind(c: Code, s: PreState): PreResult
  {
    if s.top + Depth(c) > MAX_LABEL_DEPTH then TooDeep
    else
      Counted(PreState(s.p + Size(c), s.top, if s.top + Depth(c) > s.max then s.top + Depth(c) else s.max,
                       s.count + |Table(c, s.p)|))
  }

  function PreFrom(code: seq<Byte>, r: PreResult): PreResult
  {
    if r.TooDeep? then r else PreRun(code, r.s)
  }

  /** Behind the opening of `c`. */
  function Opened(c: Code, s: PreState): PreState
    requires IsNest(c)
  {
    PreState(s.p + 1 + |c.bt|, s.top + 1, if s.top + 1 > s.max then s.top + 1 else s.max,
             if c.Loop? then s.count else s.count + 1)
  }

  lemma PreOpen(code: seq<Byte>, c: Code, s: PreState)
    requires IsNest(c) && CodeAt(code, s.p, c)
    ensures PreRun(code, s) == PreFrom(code, if s.top >= MAX_LABEL_DEPTH then TooDeep else Counted(Opened(c, s)))
  {
    hide SkipLeb, CountAt, ImmAt, Skip;
    assert ImmAt(code, s.p + 1, c.bt);
    SkipImm(code, s.p + 1, c.bt);
  }

  lemma PreClose(code: seq<Byte>, s: PreState)
    requires ByteAt(code, s.p, 0x0B) && s.top > 1
    ensures PreRun(code, s) == PreRun(code, s.(p := s.p + 1, top := s.top - 1))
  {
    hide SkipLeb, CountAt, Skip;
  }

  lemma PreMiddle(code: seq<Byte>, s: PreState)
    requires ByteAt(code, s.p, 0x05)
    ensures PreRun(code, s) == PreRun(code, s.(p := s.p + 1))
  {
    hide SkipLeb, CountAt, Skip;
  }

  lemma PreHead(code: seq<Byte>, c: Code, s: PreState)
    requires !c.End? && !IsNest(c) && CodeAt(code, s.p, c)
    ensures PreRun(code, s) == PreRun(code, s.(p := s.p + HeadSize(c)))
  {
    hide SkipLeb, CountAt, Skip, CodeAt, SkipImmediates, HeadSize;
    SkipHead(code, c, s.p);
  }

  lemma {:induction false} PreCode(code: seq<Byte>, c: Code, s: PreState)
    requires CodeAt(code, s.p, c) && 1 <= s.top <= s.max && s.top <= MAX_LABEL_DEPTH
    ensures PreRun(code, s) == PreFrom(code, PreBehind(c, s))
    decreases c, 1
  {
    hide PreRun, CodeAt, Size, Table;
    if c.End? {
      TableOfEnd(s.p);
      assert Size(c) == 0 by { EndSize(c); }
    } else if !IsNest(c) {
      PreHead(code, c, s);
      SimpleNext(code, c, s.p);
      SimpleShape(c, s.p);
      PreCode(code, c.next, s.(p := s.p + HeadSize(c)));
    } else if c.IfElse? {
      PreIfElse(code, c, s);
    } else {
      PreNest(code, c, s);
    }
  }

  lemma EndSize(c: Code)
    requires c.End?
    ensures Size(c) == 0
  {
  }

  lemma DepthOfNest(c: Code)
    requires IsNest(c)
    ensures !c.IfElse? ==> Depth(c) == Max(1 + Depth(NestBody(c)), Depth(c.next))
    ensures c.IfElse? ==> Depth(c) == Max(1 + Max(Depth(c.thn), Depth(c.els)), Depth(c.next))
  {
  }

  lemma {:induction false} PreNest(code: seq<Byte>, c: Code, s: PreState)
    requires (c.Block? || c.Loop? || c.If?) && CodeAt(code, s.p, c) && 1 <= s.top <= s.max && s.top <= MAX_LABEL_DEPTH
    ensures PreRun(code, s) == PreFrom(code, PreBehind(c, s))
    decreases c, 0
  {
    hide PreRun, CodeAt, Size, Table, Depth;
    NestParts(code, c, s.p);
    NestShape(c, s.p);
    DepthOfNest(c);
    PreOpen(code, c, s);
    if s.top < MAX_LABEL_DEPTH {
      var s1 := Opened(c, s);
      PreCode(code, NestBody(c), s1);
      if PreBehind(NestBody(c), s1).Counted? {
        var s2 := PreBehind(NestBody(c), s1).s;
        PreClose(code, s2);
        PreCode(code, c.next, s2.(p := s2.p + 1, top := s.top));
      }
    }
  }

  lemma {:induction false} PreIfElse(code: seq<Byte>, c: Code, s: PreState)
    requires c.IfElse? && CodeAt(code, s.p, c) && 1 <= s.top <= s.max && s.top <= MAX_LABEL_DEPTH
    ensures PreRun(code, s) == PreFrom(code, PreBehind(c, s))
    decreases c, 0
  {
    hide PreRun, CodeAt, Size, Table, Depth;
    IfElseParts(code, c, s.p);
    IfElseShape(c, s.p);
    DepthOfNest(c);
    PreOpen(code, c, s);
    if s.top < MAX_LABEL_DEPTH {
      var s1 := Opened(c, s);
      PreCode(code, c.thn, s1);
      if PreBehind(c.thn, s1).Counted? {
        var s2 := PreBehind(c.thn, s1).s;
        PreMiddle(code, s2);
        var s3 := s2.(p := s2.p + 1);
        PreCode(code, c.els, s3);
        if PreBehind(c.els, s3).Counted? {
          var s4 := PreBehind(c.els, s3).s;
          PreClose(code, s4);
          PreCode(code, c.next, s4.(p := s4.p + 1, top := s.top));
        }
      }
    }
  }

  /** The first pass over a whole body: exact nesting depth and exact number of entries. */
  lemma PreCounts(code: seq<Byte>, c: Code)
    requires Encodes(code, c)
    ensures PreBody(code) ==
            if 1 + Depth(c) > 65535 then TooDeep
            else Counted(PreState(|code|, 1, 1 + Depth(c), |Table(c, 0)|))
  {
    hide CodeAt, Depth, Table, Size;
    PreCode(code, c, PreState(0, 1, 1, 0));
    if 1 + Depth(c) <= MAX_LABEL_DEPTH {
      PreLast(code, PreBehind(c, PreState(0, 1, 1, 0)).s);
    }
  }

  lemma PreLast(code: seq<Byte>, s: PreState)
    requires ByteAt(code, s.p, 0x0B) && s.top == 1 && |code| == s.p + 1
    ensures PreRun(code, s) == Counted(s.(p := s.p + 1))
  {
    hide SkipLeb, CountAt, Skip;
  }

  // ----- the second pass needs exactly what the first one counted -----

  /** An accepting pass has met the deepest nesting. */
  lemma {:induction false} ReachesDepth(cx: Context, code: seq<Byte>, c: Code, v: ScanState, end: ScanState)
    requires CodeAt(code, v.ip, c) && ScanRun(cx, code, v) == Ok(end) && |v.labels| <= v.maxLabels
    ensures |v.labels| + Depth(c) <= end.maxLabels
    decreases c, 1
  {
    hide CodeAt, ScanRun, ScanStep, Size, Table, Depth, HeadSize, BlockArity, S, U, ByteAt, NewEntries;
    InBody(code, v.ip, c);
    if c.End? {
      MarkKept(cx, code, v, end);
      EndDepth(c);
    } else if !IsNest(c) {
      ScanHead(cx, code, c, v);
      RunOn(cx, code, v, end);
      SimpleNext(code, c, v.ip);
      SimpleShape(c, v.ip);
      ReachesDepth(cx, code, c.next, ScanStep(cx, code, v).v, end);
    } else if c.IfElse? {
      ReachesDepthIfElse(cx, code, c, v, end);
    } else {
      DepthOfNest(c);
      NestParts(code, c, v.ip);
      ScanOpen(cx, code, c, v);
      RunOn(cx, code, v, end);
      var v1 := ScanStep(cx, code, v).v;
      ReachesDepth(cx, code, NestBody(c), v1, end);
      var v2 := RunPast(cx, code, NestBody(c), v1, end);
      ScanClose(cx, code, v2);
      RunOn(cx, code, v2, end);
      ReachesDepth(cx, code, c.next, ScanStep(cx, code, v2).v, end);
    }
  }

  lemma EndDepth(c: Code)
    requires c.End?
    ensures Depth(c) == 0
  {
  }

  lemma {:induction false} ReachesDepthIfElse(cx: Context, code: seq<Byte>, c: Code, v: ScanState, end: ScanState)
    requires c.IfElse? && CodeAt(code, v.ip, c) && ScanRun(cx, code, v) == Ok(end) && |v.labels| <= v.maxLabels
    ensures |v.labels| + Depth(c) <= end.maxLabels
    decreases c, 0
  {
    hide CodeAt, ScanRun, ScanStep, Size, Table, Depth, BlockArity, S, U, ByteAt, NewEntries;
    InBody(code, v.ip, c);
    DepthOfNest(c);
    IfElseParts(code, c, v.ip);
    ScanOpen(cx, code, c, v);
    RunOn(cx, code, v, end);
    var v1 := ScanStep(cx, code, v).v;
    ReachesDepth(cx, code, c.thn, v1, end);
    var v2 := RunPast(cx, code, c.thn, v1, end);
    ScanMiddle(cx, code, v2);
    RunOn(cx, code, v2, end);
    var v3 := ScanStep(cx, code, v2).v;
    ReachesDepth(cx, code, c.els, v3, end);
    var v4 := RunPast(cx, code, c.els, v3, end);
    ScanClose(cx, code, v4);
    RunOn(cx, code, v4, end);
    ReachesDepth(cx, code, c.next, ScanStep(cx, code, v4).v, end);
  }

  lemma {:induction false} FitsBound(cx: Context, code: seq<Byte>, v: ScanState, end: ScanState, labels: nat, entries: nat)
    requires Fits(cx, code, v, labels, entries) && v.maxLabels <= labels && ScanRun(cx, code, v) == Ok(end)
    ensures end.maxLabels <= labels
    decreases |code| - v.ip
  {
    hide ScanStep;
    if v.ip < |code| {
      StepExtends(cx, code, v);
      FitsBound(cx, code, ScanStep(cx, code, v).v, end, labels, entries);
    }
  }

  /** The passes agree: on every well-encoded body the second pass, whether it accepts or not, stays within the label
      and jump buffers the first one sized; when it accepts, the buffers are full, the recorded label depth is the first
      pass's maximum, and the table is the body's own, strictly increasing. */
  lemma PassesAgree(cx: Context, code: seq<Byte>, c: Code)
    requires Encodes(code, c)
    ensures var pre := PreBody(code);
            && (pre.TooDeep? ==> ScanBody(cx, code).Rejected?)
            && (pre.Counted? ==>
                  && pre.s.max == 1 + Depth(c) && pre.s.count == |Table(c, 0)|
                  && Fits(cx, code, FirstState(cx.results), pre.s.max, pre.s.count)
                  && (ScanBody(cx, code).Ok? ==>
                        var end := ScanBody(cx, code).v;
                        && end.jumps == Table(c, 0) && |end.jumps| == pre.s.count && StrictlyIncreasing(end.jumps)
                        && end.maxLabels == pre.s.max))
  {
    hide CodeAt, ScanRun, ScanStep, Size, Table, Depth, Fits, StrictlyIncreasing;
    PreCounts(code, c);
    TableSorted(c, 0);
    var v := FirstState(cx.results);
    var labels, entries := 1 + Depth(c), |Table(c, 0)|;
    var r := WholePass(cx, code, c, labels, entries);
    if ScanBody(cx, code).Ok? {
      var end := ScanBody(cx, code).v;
      ReachesDepth(cx, code, c, v, end);
      FitsBound(cx, code, v, end, labels, entries);
      AcceptedDepth(cx, code, v, end);
    }
  }

  lemma {:induction false} AcceptedDepth(cx: Context, code: seq<Byte>, v: ScanState, end: ScanState)
    requires ScanRun(cx, code, v) == Ok(end)
    ensures end.maxLabels <= MAX_LABEL_DEPTH && end.maxDepth <= MAX_STACK
    decreases |code| - v.ip
  {
    hide ScanStep;
    if v.ip < |code| {
      StepExtends(cx, code, v);
      AcceptedDepth(cx, code, ScanStep(cx, code, v).v, end);
    }
  }

  /** The second pass over a whole body. */
  lemma WholePass(cx: Context, code: seq<Byte>, c: Code, labels: nat, entries: nat) returns (r: ScanResult)
    requires Encodes(code, c) && 1 + Depth(c) <= labels && |Table(c, 0)| <= entries
    ensures Fits(cx, code, FirstState(cx.results), labels, entries)
    ensures ScanBody(cx, code).Ok? ==> ScanBody(cx, code).v.jumps == Table(c, 0)
  {
    hide CodeAt, ScanRun, ScanStep, Size, Table, Depth, Fits;
    var v := FirstState(cx.results);
    r := ScanCode(cx, code, c, v, labels, entries);
    if r.Ok? { LastEnd(cx, code, r.v, labels, entries); }
  }

  lemma LastEnd(cx: Context, code: seq<Byte>, v: ScanState, labels: nat, entries: nat)
    requires ByteAt(code, v.ip, 0x0B) && |code| == v.ip + 1 && |v.labels| == 1 && v.labels[0].jump == -1
    requires 1 <= labels && |v.jumps| <= entries
    ensures Fits(cx, code, v, labels, entries)
    ensures ScanRun(cx, code, v).Ok? ==> ScanRun(cx, code, v).v.jumps == v.jumps
  {
    hide ScanStep;
    ScanClose(cx, code, v);
    var r := ScanStep(cx, code, v);
    assert Fits(cx, code, r.v, labels, entries);
  }

  // ----- the loaded body -----

  /** A well-encoded, valid body that the pass accepts is laid out as the interpreter expects it. */
  lemma AcceptedIsLaid(cx: Context, fn: Func, c: Code)
    requires fn.Local? && Encodes(fn.code, c) && Valid(cx, c, [cx.results], cx.results, 0)
    requires ScanBody(cx, fn.code).Ok? && TakesNumbers(fn, fn.code, ScanBody(cx, fn.code).v)
    ensures Laid(cx.types, cx.funcs, fn, ScanBody(cx, fn.code).v.marks, c, 0, 0, 1)
  {
    hide CodeAt, ScanRun, ScanStep, Size, Table, Depth, Fits, StrictlyIncreasing, Covers, Valid, Laid;
    var code, v, end := fn.code, FirstState(cx.results), ScanBody(cx, fn.code).v;
    PassesAgree(cx, code, c);
    PreCounts(code, c);
    SortedCovers(Table(c, 0));
    ScanLaid(cx, code, fn, c, v, end, [cx.results], cx.results, 0);
  }
}
