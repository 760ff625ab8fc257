// The loader's code: the counting loop, the two buffers it sizes, the scanning loop over label and jump arrays, and
// the binary search the interpreter uses on the resulting table.
module Loader {
  import opened Leb128
  import opened Bytecode
  import opened Runtime
  import opened Validity
  import opened Structured
  import opened Flat
  import opened Scan
  import opened Simulation
  import opened ScanProof
  import opened LoadedBody
  import opened PreScan
  import opened Lockstep
  import opened Acceptance

  // ----- first pass -----

  /** `n |= (*p++ & 0x7F) << s` up to the terminator. */
  method ReadCount(code: seq<Byte>, start: nat) returns (n: nat, p: nat)
    requires start <= |code|
    ensures p == SkipLeb(code, start, |code|) && n == CountAt(code, start)
  {
    p := start;
    n := 0;
    while p < |code| && code[p] >= 0x80
      invariant start <= p <= |code|
      invariant SkipLeb(code, start, |code|) == SkipLeb(code, p, |code|)
      invariant n == U32At(code, start, p - start)
    {
      Or32Step(code, start, p - start);
      n := Or32(n, code[p], 7 * (p - start));
      p := p + 1;
    }
    if p < |code| {
      Or32Step(code, start, p - start);
      n := Or32(n, code[p], 7 * (p - start));
      p := p + 1;
    }
  }

  method SkipSome(code: seq<Byte>, start: nat, times: nat) returns (p: nat)
    requires start <= |code|
    ensures p == Skip(code, start, times)
  {
    p := start;
    var i := 0;
    while i < times && p < |code|
      invariant start <= p <= |code| && i <= times
      invariant Skip(code, start, times) == Skip(code, p, times - i)
    {
      p := SkipLebBytes(code, p, |code|);
      i := i + 1;
    }
  }

  method SkipOperands(code: seq<Byte>, b: Byte, start: nat) returns (p: nat)
    requires start <= |code|
    ensures p == SkipImmediates(code, b, start)
  {
    hide SkipLeb, CountAt, Skip;
    p := start;
    if b == 0x0E {
      var n;
      n, p := ReadCount(code, p);
      p := SkipSome(code, p, n + 1);
    } else if 0x02 <= b <= 0x04 || b == 0x0C || b == 0x0D || b == 0x10 || 0x20 <= b <= 0x26 || b == 0xD2
              || b == 0x41 || b == 0x42 || b == 0xD0 {
      p := SkipLebBytes(code, p, |code|);
    } else if b == 0x11 || 0x28 <= b <= 0x3E {
      p := SkipSome(code, p, 2);
    } else if b == 0x1C {
      var n;
      n, p := ReadCount(code, p);
      p := if n <= |code| - p then p + n else |code|;
    } else if b == 0x3F || b == 0x40 {
      if p < |code| { p := p + 1; }
    } else if b == 0x43 {
      p := if |code| - p >= 4 then p + 4 else |code|;
    } else if b == 0x44 {
      p := if |code| - p >= 8 then p + 8 else |code|;
    } else if b == 0xFC {
      var sub;
      sub, p := ReadCount(code, p);
      if sub == 8 || sub == 10 || sub == 12 || sub == 14 {
        p := SkipSome(code, p, 2);
      } else if 9 <= sub <= 17 {
        p := SkipSome(code, p, 1);
      }
    }
  }

  /** The counting loop. */
  method CountLabels(code: seq<Byte>) returns (ok: bool, preMax: nat, blockIfCount: nat)
    ensures ok == PreBody(code).Counted?
    ensures ok ==> preMax == PreBody(code).s.max && blockIfCount == PreBody(code).s.count && preMax >= 1
  {
    hide SkipImmediates;
    var p, preTop := 0, 1;
    ok, preMax, blockIfCount := true, 1, 0;
    while p < |code|
      invariant p <= |code| && preMax >= 1
      invariant PreBody(code) == PreRun(code, PreState(p, preTop, preMax, blockIfCount))
    {
      var b := code[p];
      p := p + 1;
      if b == 0x02 || b == 0x03 || b == 0x04 {
        p := SkipOperands(code, b, p);
        if preTop >= MAX_LABEL_DEPTH { return false, preMax, blockIfCount; }
        preTop := preTop + 1;
        if preTop > preMax { preMax := preTop; }
        if b != 0x03 { blockIfCount := blockIfCount + 1; }
      } else if b == 0x0B {
        p := SkipOperands(code, b, p);
        if preTop > 1 { preTop := preTop - 1; }
      } else {
        p := SkipOperands(code, b, p);
      }
    }
  }

  // ----- second pass -----

  /** The state of the scanning loop. `View` is that state as the specification sees it. */
  class BodyScanner {
    const cx: Context
    const code: seq<Byte>
    const valLabels: array<ValLabel>
    const tmpJumps: array<JumpEntry>
    var ip: nat
    var labelTop: nat
    var maxLabelDepth: nat
    var stackDepth: int
    var maxStackDepth: int
    var isUnreachable: bool
    var nextJump: nat
    ghost var marks: map<nat, Mark>

    predicate Valid()
      reads this
    {
      ip <= |code| && labelTop <= valLabels.Length && nextJump <= tmpJumps.Length
    }

    ghost function View(): ScanState
      reads this, valLabels, tmpJumps
      requires Valid()
    {
      ScanState(ip, valLabels[..labelTop], maxLabelDepth, stackDepth, maxStackDepth, isUnreachable, tmpJumps[..nextJump], marks)
    }

    /** The buffers hold whatever `r` asks for. */
    ghost predicate Holds(r: ScanResult)
    {
      r.Ok? ==> |r.v.labels| <= valLabels.Length && |r.v.jumps| <= tmpJumps.Length
    }

    constructor (cx: Context, code: seq<Byte>, preMax: nat, blockIfCount: nat)
      requires preMax >= 1
      ensures Valid() && View() == FirstState(cx.results)
      ensures this.cx == cx && this.code == code
      ensures fresh(valLabels) && fresh(tmpJumps) && valLabels.Length == preMax && tmpJumps.Length == blockIfCount
    {
      this.cx := cx;
      this.code := code;
      valLabels := new ValLabel[preMax];
      tmpJumps := new JumpEntry[blockIfCount];
      ip, labelTop, maxLabelDepth, stackDepth, maxStackDepth, isUnreachable, nextJump := 0, 1, 1, 0, 0, false, 0;
      marks := map[];
      new;
      valLabels[0] := ValLabel(0, cx.results, -1, 0x00);
    }

    /** Pops `n` operands; too few are tolerated in unreachable code. */
    method PopOperands(n: nat) returns (ok: bool)
      requires Valid()
      modifies this`stackDepth
      ensures Valid()
      ensures var r := Take(old(View()), n); ok == r.Ok? && (ok ==> View() == r.v)
    {
      if stackDepth < n {
        ok := isUnreachable;
      } else {
        stackDepth := stackDepth - n;
        ok := true;
      }
    }

    /** Pushes a label, and for a block or if its jump entry. */
    method OpenLabel(entry: int, results: nat, op: Byte, hasJump: bool) returns (ok: bool)
      requires Valid()
      requires var v := View();
               var j := if hasJump then v.jumps + [JumpEntry(v.ip, 0, 0)] else v.jumps;
               Holds(Open(v, ValLabel(entry, results, if hasJump then |v.jumps| else -1, op), j))
      modifies this`labelTop, this`maxLabelDepth, this`nextJump, valLabels, tmpJumps
      ensures Valid()
      ensures var v := old(View());
              var j := if hasJump then v.jumps + [JumpEntry(v.ip, 0, 0)] else v.jumps;
              var r := Open(v, ValLabel(entry, results, if hasJump then |v.jumps| else -1, op), j);
              ok == r.Ok? && (ok ==> View() == r.v)
    {
      ghost var v := View();
      if labelTop >= MAX_LABEL_DEPTH { return false; }
      if hasJump {
        assert |v.jumps + [JumpEntry(v.ip, 0, 0)]| == nextJump + 1;
        tmpJumps[nextJump] := JumpEntry(ip, 0, 0);
        valLabels[labelTop] := ValLabel(entry, results, nextJump, op);
        nextJump := nextJump + 1;
      } else {
        valLabels[labelTop] := ValLabel(entry, results, -1, op);
      }
      labelTop := labelTop + 1;
      if labelTop > maxLabelDepth { maxLabelDepth := labelTop; }
      return true;
    }

    method BlockOrLoop(op: Byte) returns (ok: bool)
      requires Valid() && (op == 0x02 || op == 0x03) && Holds(ScanBlock(cx, code, op, View()))
      modifies this, valLabels, tmpJumps
      ensures Valid() && marks == old(marks)
      ensures var r := ScanBlock(cx, code, op, old(View())); ok == r.Ok? && (ok ==> View() == r.v)
    {
      hide S32At, U32At, Taken, BlockArity;
      ghost var v := View();
      var blockType;
      blockType, ip := DecodeVarInt32(code, ip, |code|);
      var t := BlockArity(cx.types, blockType);
      var entry := 0;
      if stackDepth < t.params {
        if !isUnreachable { return false; }
      } else {
        entry := stackDepth - t.params;
      }
      assert View() == v.(ip := ip);
      ok := OpenLabel(entry, t.results, op, op == 0x02);
    }

    method If() returns (ok: bool)
      requires Valid() && Holds(ScanIf(cx, code, View()))
      modifies this, valLabels, tmpJumps
      ensures Valid() && marks == old(marks)
      ensures var r := ScanIf(cx, code, old(View())); ok == r.Ok? && (ok ==> View() == r.v)
    {
      hide S32At, U32At, Taken, BlockArity;
      ghost var v := View();
      var blockType;
      blockType, ip := DecodeVarInt32(code, ip, |code|);
      var t := BlockArity(cx.types, blockType);
      assert View() == v.(ip := ip);
      ok := PopOperands(1);
      if !ok { return; }
      ok := OpenLabel(stackDepth, t.results, 0x04, true);
    }

    method Else()
      requires Valid()
      modifies this, tmpJumps
      ensures Valid() && marks == old(marks)
      ensures Ok(View()) == ScanElse(old(View()))
    {
      if labelTop > 0 {
        var l := valLabels[labelTop - 1];
        stackDepth := l.entry;
        if 0 <= l.jump < nextJump { tmpJumps[l.jump] := tmpJumps[l.jump].(els := ip); }
      }
      isUnreachable := false;
    }

    method CloseLabel()
      requires Valid()
      modifies this, tmpJumps
      ensures Valid() && marks == old(marks)
      ensures Ok(View()) == ScanEnd(old(View()))
    {
      if labelTop > 0 {
        labelTop := labelTop - 1;
        var l := valLabels[labelTop];
        stackDepth := l.entry + l.results;
        if 0 <= l.jump < nextJump { tmpJumps[l.jump] := tmpJumps[l.jump].(end := ip); }
      }
      isUnreachable := false;
    }

    method Targets(n: nat) returns (ok: bool)
      requires Valid()
      modifies this`ip
      ensures Valid()
      ensures var r := ScanTargets(code, old(View()), n); ok == r.Ok? && (ok ==> View() == r.v)
    {
      hide S32At, U32At, Taken;
      ghost var v := View();
      var i := 0;
      while i <= n
        invariant i <= n + 1 && Valid() && View() == v.(ip := ip)
        invariant i <= n ==> ScanTargets(code, v, n) == ScanTargets(code, View(), n - i)
        invariant i == n + 1 ==> ScanTargets(code, v, n) == Ok(View())
        decreases n + 1 - i
      {
        var target;
        target, ip := DecodeVarUint32(code, ip, |code|);
        if target >= labelTop { return false; }
        i := i + 1;
      }
      return true;
    }

    method Branch(op: Byte) returns (ok: bool)
      requires Valid() && 0x0C <= op <= 0x0E
      modifies this
      ensures Valid() && marks == old(marks)
      ensures var r := ScanBranch(code, op, old(View())); ok == r.Ok? && (ok ==> View() == r.v)
    {
      hide S32At, U32At, Taken, ScanTargets;
      ghost var v := View();
      var n;
      n, ip := DecodeVarUint32(code, ip, |code|);
      assert View() == v.(ip := ip);
      if op == 0x0E {
        ok := Targets(n);
        if ok { ok := PopOperands(1); }
        if ok { isUnreachable := true; }
      } else if n >= labelTop {
        ok := false;
      } else if op == 0x0C {
        isUnreachable := true;
        ok := true;
      } else {
        ok := PopOperands(1);
      }
    }

    method Call() returns (ok: bool)
      requires Valid()
      modifies this
      ensures Valid() && marks == old(marks)
      ensures var r := ScanCall(cx, code, old(View())); ok == r.Ok? && (ok ==> View() == r.v)
    {
      hide S32At, U32At, Taken;
      ghost var v := View();
      var f;
      f, ip := DecodeVarUint32(code, ip, |code|);
      assert View() == v.(ip := ip);
      if f >= |cx.funcs| { return false; }
      var t := cx.funcs[f];
      if stackDepth < t.params {
        if !isUnreachable { return false; }
        stackDepth := 0;
      } else {
        stackDepth := stackDepth - t.params;
      }
      stackDepth := stackDepth + t.results;
      return true;
    }

    method Variable(op: Byte) returns (ok: bool)
      requires Valid() && 0x20 <= op <= 0x24
      modifies this
      ensures Valid() && marks == old(marks)
      ensures var r := ScanVariable(cx, code, op, old(View())); ok == r.Ok? && (ok ==> View() == r.v)
    {
      hide S32At, U32At, Taken;
      ghost var v := View();
      var i;
      i, ip := DecodeVarUint32(code, ip, |code|);
      assert View() == v.(ip := ip);
      if i >= (if op >= 0x23 then cx.globals else cx.locals) { return false; }
      ok := true;
      if op == 0x20 || op == 0x23 {
        stackDepth := stackDepth + 1;
      } else if op != 0x22 {
        ok := PopOperands(1);
      }
    }

    /** One opcode, `ip` behind it. */
    method Opcode(op: Byte) returns (ok: bool)
      requires Valid() && Holds(ScanOp(cx, code, op, View()))
      modifies this, valLabels, tmpJumps
      ensures Valid() && marks == old(marks)
      ensures var r := ScanOp(cx, code, op, old(View())); ok == r.Ok? && (ok ==> View() == r.v)
    {
      hide S32At, U32At, Taken, ScanBlock, ScanIf, ScanElse, ScanEnd, ScanBranch, ScanCall, ScanVariable, SAt, UAt;
      ok := true;
      if op == 0x00 || op == 0x0F {
        isUnreachable := true;
      } else if op == 0x01 || op == 0x45 {
      } else if op == 0x02 || op == 0x03 {
        ok := BlockOrLoop(op);
      } else if op == 0x04 {
        ok := If();
      } else if op == 0x05 {
        Else();
      } else if op == 0x0B {
        CloseLabel();
      } else if 0x0C <= op <= 0x0E {
        ok := Branch(op);
      } else if op == 0x10 {
        ok := Call();
      } else if op == 0x1A {
        ok := PopOperands(1);
      } else if op == 0x1B {
        ok := PopOperands(2);
      } else if 0x20 <= op <= 0x24 {
        ok := Variable(op);
      } else if op == 0x41 {
        var value;
        value, ip := DecodeVarInt32(code, ip, |code|);
        stackDepth := stackDepth + 1;
      } else if IsBinary(op) {
        ok := PopOperands(1);
      } else {
        ok := false;
      }
    }

    /** The scanning loop: it never leaves its buffers when they fit the whole pass. */
    method Scan() returns (ok: bool)
      requires Valid() && Fits(cx, code, View(), valLabels.Length, tmpJumps.Length)
      modifies this, valLabels, tmpJumps
      ensures Valid()
      ensures var r := ScanRun(cx, code, old(View())); ok == r.Ok? && (ok ==> View() == r.v)
    {
      ghost var first := View();
      ok := true;
      while ip < |code|
        invariant Valid() && Fits(cx, code, View(), valLabels.Length, tmpJumps.Length)
        invariant ScanRun(cx, code, View()) == ScanRun(cx, code, first)
        decreases |code| - ip
      {
        ghost var v := View();
        marks := marks[ip := Mark(stackDepth, labelTop)];
        if stackDepth > maxStackDepth { maxStackDepth := stackDepth; }
        var op := code[ip];
        ip := ip + 1;
        assert View() == Noted(v);
        ok := Opcode(op);
        if !ok { return; }
      }
      if stackDepth > maxStackDepth { maxStackDepth := stackDepth; }
      if maxLabelDepth > MAX_LABEL_DEPTH || maxStackDepth > MAX_STACK { ok := false; }
    }
  }

  // ----- the loader -----

  /** What the loader writes into a function. */
  datatype Recorded = Recorded(maxLabels: nat, maxStack: nat, jumps: seq<JumpEntry>) | Invalid

  /** The buffers sized by the first pass hold all that the main pass writes. */
  predicate BuffersHold(cx: Context, code: seq<Byte>)
  {
    PreBody(code).Counted? ==> Fits(cx, code, FirstState(cx.results), PreBody(code).s.max, PreBody(code).s.count)
  }

  /** Validates the body of one function, on bytes for which the buffers suffice: well-encoded ones, and all others in which
      no immediate is too long. The table recorded is as long as the first pass says. */
  method ValidateFunctionBody(cx: Context, code: seq<Byte>) returns (r: Recorded)
    requires BuffersHold(cx, code)
    ensures r.Recorded? <==> PreBody(code).Counted? && ScanBody(cx, code).Ok?
    ensures r.Recorded? ==>
              var v := ScanBody(cx, code).v;
              && r.maxLabels == v.maxLabels && r.maxStack == v.maxDepth
              && |r.jumps| == PreBody(code).s.count && v.jumps <= r.jumps
    ensures AllShort(cx, code, FirstState(cx.results)) && r.Recorded? ==> r.jumps == ScanBody(cx, code).v.jumps
    ensures forall c :: Encodes(code, c) && r.Recorded? ==> r.maxLabels == 1 + Depth(c) && r.jumps == Table(c, 0)
    ensures forall c :: Encodes(code, c) ==> (r.Recorded? <==> ScanBody(cx, code).Ok?)
  {
    hide ScanRun, Encodes, Depth, Table, Fits, StrictlyIncreasing, PreBody, AllShort;
    EncodedHolds(cx, code);
    var ok, preMax, blockIfCount := CountLabels(code);
    if !ok { return Invalid; }
    if AllShort(cx, code, FirstState(cx.results)) { BuffersSuffice(cx, code); }
    var scanner := new BodyScanner(cx, code, preMax, blockIfCount);
    ok := scanner.Scan();
    if !ok { return Invalid; }
    ScanGrows(cx, code, FirstState(cx.results), ScanBody(cx, code).v);
    r := Recorded(scanner.maxLabelDepth, if scanner.maxStackDepth < 0 then 0 else scanner.maxStackDepth, scanner.tmpJumps[..]);
  }

  /** What `PassesAgree` says of any tree the bytes encode. */
  lemma EncodedHolds(cx: Context, code: seq<Byte>)
    ensures forall c :: Encodes(code, c) ==>
              && BuffersHold(cx, code) && (PreBody(code).TooDeep? ==> ScanBody(cx, code).Rejected?)
              && (PreBody(code).Counted? && ScanBody(cx, code).Ok? ==>
                    && ScanBody(cx, code).v.jumps == Table(c, 0) && |Table(c, 0)| == PreBody(code).s.count
                    && ScanBody(cx, code).v.maxLabels == 1 + Depth(c))
  {
    hide ScanBody, Encodes, Depth, Table, Fits, StrictlyIncreasing, PreBody;
    forall c | Encodes(code, c)
      ensures BuffersHold(cx, code) && (PreBody(code).TooDeep? ==> ScanBody(cx, code).Rejected?)
      ensures PreBody(code).Counted? && ScanBody(cx, code).Ok? ==>
                && ScanBody(cx, code).v.jumps == Table(c, 0) && |Table(c, 0)| == PreBody(code).s.count
                && ScanBody(cx, code).v.maxLabels == 1 + Depth(c)
    {
      PassesAgree(cx, code, c);
    }
  }

  /** When the buffers hold: on well-encoded bytes, and when no immediate met is too long. On `Lockstep.OverlongBytes` they do
      not. */
  lemma WhenBuffersHold(cx: Context, code: seq<Byte>)
    ensures AllShort(cx, code, FirstState(cx.results)) ==> BuffersHold(cx, code)
    ensures forall c :: Encodes(code, c) ==> BuffersHold(cx, code)
    ensures !BuffersHold(cx, OverlongBytes)
  {
    hide AllShort, Encodes, Fits, PreBody, ScanBody, Depth, Table;
    EncodedHolds(cx, code);
    OverlongOverruns(cx);
    if AllShort(cx, code, FirstState(cx.results)) && PreBody(code).Counted? { BuffersSuffice(cx, code); }
  }

  lemma ScanGrows(cx: Context, code: seq<Byte>, v: ScanState, end: ScanState)
    requires ScanRun(cx, code, v) == Ok(end) && |v.labels| <= v.maxLabels
    ensures v.maxDepth <= end.maxDepth
  {
    hide ScanRun;
    Kept(cx, code, v, end);
  }

  // ----- the table in use -----

  /** Binary search by body offset. */
  method FindBlockJump(table: seq<JumpEntry>, body: nat) returns (found: Found)
    requires StrictlyIncreasing(table)
    ensures found == Lookup(table, body)
  {
    var lo, hi := 0, |table|;
    while lo < hi
      invariant lo <= hi <= |table|
      invariant forall i :: 0 <= i < lo ==> table[i].body < body
      invariant forall i :: hi <= i < |table| ==> table[i].body >= body
    {
      var mid := (lo + hi) / 2;
      if table[mid].body < body { lo := mid + 1; } else { hi := mid; }
    }
    if lo < |table| && table[lo].body == body {
      LookupSorted(table, lo);
      return Entry(table[lo]);
    }
    LookupMissing(table, body);
    return Missing;
  }

  lemma {:induction false} LookupMissing(t: seq<JumpEntry>, body: nat)
    requires forall i :: 0 <= i < |t| ==> t[i].body != body
    ensures Lookup(t, body) == Missing
    decreases |t|
  {
    if t != [] {
      assert forall i :: 0 <= i < |t| - 1 ==> t[1..][i] == t[i + 1];
      LookupMissing(t[1..], body);
    }
  }

  // ----- a loaded program -----

  /** Every local function carries the numbers the loader computes for its bytes. */
  ghost predicate Accepted(pr: Program, globals: nat)
  {
    && |pr.bodies| == |pr.env.funcs|
    && forall f: nat :: f < |pr.env.funcs| && pr.env.funcs[f].Local? ==> BodyAccepted(pr, globals, f)
  }

  predicate BodyAccepted(pr: Program, globals: nat, f: nat)
    requires f < |pr.env.funcs| == |pr.bodies| && pr.env.funcs[f].Local?
  {
    var cx, fn := ContextOf(pr.env, globals, f), pr.env.funcs[f];
    Encodes(fn.code, pr.bodies[f]) && ScanBody(cx, fn.code).Ok? && TakesNumbers(fn, fn.code, ScanBody(cx, fn.code).v)
  }

  function MarksOf(pr: Program, globals: nat, f: nat): map<nat, Mark>
    requires f < |pr.env.funcs|
  {
    if !pr.env.funcs[f].Local? then map[]
    else match ScanBody(ContextOf(pr.env, globals, f), pr.env.funcs[f].code) case Ok(v) => v.marks case Rejected => map[]
  }

  /** A program of valid, well-encoded bodies accepted by the loader is loaded in the interpreter's sense. */
  lemma AcceptedIsLoaded(pr: Program, globals: nat) returns (im: Image)
    requires ProgramValid(pr, globals) && Accepted(pr, globals)
    ensures Loaded(im) && im.pr == pr && im.globals == globals
  {
    hide Encodes, ScanBody, Laid, Structured.Eval, HostFits, BodyValid;
    im := Image(pr, globals, seq(|pr.env.funcs|, f requires 0 <= f < |pr.env.funcs| => MarksOf(pr, globals, f)));
    forall f: nat | f < |pr.env.funcs| && pr.env.funcs[f].Local? ensures BodyLoaded(im, f) {
      assert BodyAccepted(pr, globals, f);
      assert BodyValid(pr, globals, f);
      BodyValidParts(pr, globals, f);
      AcceptedIsLaid(ContextOf(pr.env, globals, f), pr.env.funcs[f], pr.bodies[f]);
    }
  }

  lemma BodyValidParts(pr: Program, globals: nat, f: nat)
    requires f < |pr.env.funcs| && pr.env.funcs[f].Local? && BodyValid(pr, globals, f)
    ensures var cx := ContextOf(pr.env, globals, f); f < |pr.bodies| && Valid(cx, pr.bodies[f], [cx.results], cx.results, 0)
  {
  }
}
