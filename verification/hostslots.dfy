// Which operand slot of a host call means what, and that signature, pops, call arguments and prototype all mean the same one.
module HostSlots {
  import opened Wit
  import opened HostCodegen

  /** What a slot holds of the value named `of`. */
  datatype Role = Whole | Pointer | Length | HasValue | IsOk | Tag | Payload

  datatype Slot = Slot(of: string, role: Role, kind: Kind)

  function Suffix(r: Role): string
  {
    match r
    case Whole => ""
    case Pointer => "_ptr"
    case Length => "_len"
    case HasValue => "_has_value"
    case IsOk => "_is_ok"
    case Tag => "_tag"
    case Payload => "_payload_ptr"
  }

  /** The slots of a parameter, bottom of the stack first: pointer before length, flag before value, tag before payload. */
  function Slots(defs: TypeDefs, ghost rank: map<string, nat>, ghost k: nat, name: string, t: WitType): seq<Slot>
    requires Acyclic(defs, rank) && Ranked(defs, rank, k, t)
    decreases k, t
  {
    match t
    case Primitive(n) =>
      [Slot(name, Whole, if n in {"s64", "u64"} then I64 else if n == "f32" then F32 else if n == "f64" then F64 else I32)]
    case Str => [Slot(name, Pointer, I32), Slot(name, Length, I32)]
    case List(_) => [Slot(name, Pointer, I32), Slot(name, Length, I32)]
    case Opt(i) => [Slot(name, HasValue, I32)] + Slots(defs, rank, k, name + "_val", i)
    case ResultOf(ok, _) => [Slot(name, IsOk, I32)] + (if ok.None? then [] else Slots(defs, rank, k, name + "_ok", ok.t))
    case Tuple(ps) => PartSlots(defs, rank, k, name, 0, ps)
    case Borrow(h) => Slots(defs, rank, k, name, h)
    case Own(h) => Slots(defs, rank, k, name, h)
    case Named(n) =>
      if n in defs && defs[n].Alias? then Slots(defs, rank, rank[n], name, defs[n].t)
      else if n in defs && defs[n].Variant? then [Slot(name, Tag, I32), Slot(name, Payload, I32)]
      else [Slot(name, if n in defs && defs[n].Record? then Pointer else Whole, I32)]
    case _ => [Slot(name, Whole, I32)]
  }

  function PartSlots(defs: TypeDefs, ghost rank: map<string, nat>, ghost k: nat, name: string, i: nat, ps: Types): seq<Slot>
    requires Acyclic(defs, rank) && AllRanked(defs, rank, k, ps)
    decreases k, ps
  {
    if ps.NoTypes? then []
    else Slots(defs, rank, k, name + "_" + Decimal(i), ps.head) + PartSlots(defs, rank, k, name, i + 1, ps.tail)
  }

  /** One slot: the checked type, the line that pops it, the argument made of it and the parameter that gets it. The variable
      is named after value and role; a pointer is passed as an address in the memory, of the elements the parameter points to;
      everything else by value or, for a handle that is lent, by reference. */
  predicate Fits(s: Slot, sig: Kind, pop: Pop, arg: Arg, param: Param)
  {
    && sig == pop.kind == s.kind && arg.v == pop.v == "_" + (s.of + Suffix(s.role))
    && (arg.InMemory? <==> s.role.Pointer?)
    && param.name == (if s.role.Pointer? then s.of else s.of + Suffix(s.role))
    && if arg.InMemory? then pop.cpp == "uint32_t" && param.cpp == "const " + arg.cpp + "*"
       else param.cpp == pop.cpp || param.cpp == "const " + pop.cpp + "&"
  }

  /** The lists of a whole parameter, or of several; the lines pop from the top of the stack down. */
  predicate AllFit(slots: seq<Slot>, sig: seq<Kind>, pops: seq<Pop>, args: seq<Arg>, params: seq<Param>)
  {
    && |slots| == |sig| == |pops| == |args| == |params|
    && forall i :: 0 <= i < |slots| ==> Fits(slots[i], sig[i], pops[|pops| - 1 - i], args[i], params[i])
  }

  lemma JoinFit(s: seq<Slot>, g: seq<Kind>, p: seq<Pop>, a: seq<Arg>, q: seq<Param>,
                s': seq<Slot>, g': seq<Kind>, p': seq<Pop>, a': seq<Arg>, q': seq<Param>)
    requires AllFit(s, g, p, a, q) && AllFit(s', g', p', a', q')
    ensures AllFit(s + s', g + g', p' + p, a + a', q + q')
  {
    hide Fits;
    forall i | 0 <= i < |s + s'| ensures Fits((s + s')[i], (g + g')[i], (p' + p)[|p' + p| - 1 - i], (a + a')[i], (q + q')[i]) {
      if i < |s| {
        assert Fits(s[i], g[i], p[|p| - 1 - i], a[i], q[i]);
      } else {
        var j := i - |s|;
        assert Fits(s'[j], g'[j], p'[|p'| - 1 - j], a'[j], q'[j]);
      }
    }
  }

  /** For every type the signature, the pops, the arguments and the prototype have as many entries as the parameter has slots,
      and all entries of a slot fit it. */
  lemma {:induction false} EverySlotFits(defs: TypeDefs, rank: map<string, nat>, k: nat, name: string, t: WitType)
    requires Acyclic(defs, rank) && Ranked(defs, rank, k, t)
    ensures AllFit(Slots(defs, rank, k, name, t), WasmTypes(defs, rank, k, t), Pops(defs, rank, k, name, t),
                   CallArgs(defs, rank, k, name, t), ProtoParams(defs, rank, k, name, t))
    decreases k, t
  {
    hide Acyclic, AllFit;
    match t
    case Opt(i) =>
      EverySlotFits(defs, rank, k, name + "_val", i);
      FlagFits(name, HasValue, Slots(defs, rank, k, name + "_val", i), WasmTypes(defs, rank, k, i), Pops(defs, rank, k, name + "_val", i),
               CallArgs(defs, rank, k, name + "_val", i), ProtoParams(defs, rank, k, name + "_val", i));
    case ResultOf(ok, _) =>
      if ok.Some? {
        EverySlotFits(defs, rank, k, name + "_ok", ok.t);
        FlagFits(name, IsOk, Slots(defs, rank, k, name + "_ok", ok.t), WasmTypes(defs, rank, k, ok.t), Pops(defs, rank, k, name + "_ok", ok.t),
                 CallArgs(defs, rank, k, name + "_ok", ok.t), ProtoParams(defs, rank, k, name + "_ok", ok.t));
      } else {
        NothingFits();
        FlagFits(name, IsOk, [], [], [], [], []);
      }
    case Tuple(ps) => PartsFit(defs, rank, k, name, 0, ps);
    case Borrow(h) => HandleFits(defs, rank, k, name, t);
    case Own(h) => HandleFits(defs, rank, k, name, t);
    case Named(n) => NamedFits(defs, rank, k, name, t);
    case _ => PlainFits(defs, rank, k, name, t);
  }

  lemma NothingFits()
    ensures AllFit([], [], [], [], [])
  {
  }

  lemma FlagFits(name: string, flag: Role, s: seq<Slot>, g: seq<Kind>, p: seq<Pop>, a: seq<Arg>, q: seq<Param>)
    requires AllFit(s, g, p, a, q) && (flag.HasValue? || flag.IsOk?)
    ensures var v := name + Suffix(flag);
            AllFit([Slot(name, flag, I32)] + s, [I32] + g, p + [Pop("bool", VarOf(v), I32)], [Value(VarOf(v))] + a, [Param("bool", v)] + q)
  {
    var v := name + Suffix(flag);
    JoinFit([Slot(name, flag, I32)], [I32], [Pop("bool", VarOf(v), I32)], [Value(VarOf(v))], [Param("bool", v)], s, g, p, a, q);
  }

  lemma PlainFits(defs: TypeDefs, rank: map<string, nat>, k: nat, name: string, t: WitType)
    requires Acyclic(defs, rank) && Ranked(defs, rank, k, t) && (t.Primitive? || t.Bool? || t.Char? || t.Str? || t.List?)
    ensures AllFit(Slots(defs, rank, k, name, t), WasmTypes(defs, rank, k, t), Pops(defs, rank, k, name, t),
                   CallArgs(defs, rank, k, name, t), ProtoParams(defs, rank, k, name, t))
  {
    assert name + "" == name;
  }

  lemma {:induction false} NamedFits(defs: TypeDefs, rank: map<string, nat>, k: nat, name: string, t: WitType)
    requires Acyclic(defs, rank) && Ranked(defs, rank, k, t) && t.Named?
    ensures AllFit(Slots(defs, rank, k, name, t), WasmTypes(defs, rank, k, t), Pops(defs, rank, k, name, t),
                   CallArgs(defs, rank, k, name, t), ProtoParams(defs, rank, k, name, t))
    decreases k, t, 0
  {
    assert name + "" == name;
    if t.name in defs && defs[t.name].Alias? { EverySlotFits(defs, rank, rank[t.name], name, defs[t.name].t); }
  }

  /** A handle is its resource, or whatever else it is declared with. */
  lemma {:induction false} HandleFits(defs: TypeDefs, rank: map<string, nat>, k: nat, name: string, t: WitType)
    requires Acyclic(defs, rank) && Ranked(defs, rank, k, t) && (t.Borrow? || t.Own?)
    ensures AllFit(Slots(defs, rank, k, name, t), WasmTypes(defs, rank, k, t), Pops(defs, rank, k, name, t),
                   CallArgs(defs, rank, k, name, t), ProtoParams(defs, rank, k, name, t))
    decreases k, t, 0
  {
    EverySlotFits(defs, rank, k, name, t.handle);
    if IsResource(defs, t.handle) {
      assert name + "" == name;
      assert Pops(defs, rank, k, name, t) == [Pop(t.handle.name, VarOf(name), I32)];
    }
  }

  lemma {:induction false} PartsFit(defs: TypeDefs, rank: map<string, nat>, k: nat, name: string, i: nat, ps: Types)
    requires Acyclic(defs, rank) && AllRanked(defs, rank, k, ps)
    ensures AllFit(PartSlots(defs, rank, k, name, i, ps), WasmTypesAll(defs, rank, k, ps), PopsAll(defs, rank, k, name, i, ps),
                   CallArgsAll(defs, rank, k, name, i, ps), ProtoParamsAll(defs, rank, k, name, i, ps))
    decreases k, ps
  {
    hide AllFit, Acyclic;
    if ps.More? {
      var part := name + "_" + Decimal(i);
      EverySlotFits(defs, rank, k, part, ps.head);
      PartsFit(defs, rank, k, name, i + 1, ps.tail);
      JoinFit(Slots(defs, rank, k, part, ps.head), WasmTypes(defs, rank, k, ps.head), Pops(defs, rank, k, part, ps.head),
              CallArgs(defs, rank, k, part, ps.head), ProtoParams(defs, rank, k, part, ps.head),
              PartSlots(defs, rank, k, name, i + 1, ps.tail), WasmTypesAll(defs, rank, k, ps.tail), PopsAll(defs, rank, k, name, i + 1, ps.tail),
              CallArgsAll(defs, rank, k, name, i + 1, ps.tail), ProtoParamsAll(defs, rank, k, name, i + 1, ps.tail));
    } else {
      NothingFits();
    }
  }

  // ----- whole functions -----

  /** The slots of all parameters in their order. */
  function AllSlots(defs: TypeDefs, ghost rank: map<string, nat>, ghost k: nat, ds: seq<Decl>): seq<Slot>
    requires Acyclic(defs, rank) && DeclsRanked(defs, rank, k, ds)
  {
    if ds == [] then [] else Slots(defs, rank, k, ds[0].name, ds[0].t) + AllSlots(defs, rank, k, ds[1..])
  }

  lemma {:induction false} SlotsOfLast(defs: TypeDefs, rank: map<string, nat>, k: nat, ds: seq<Decl>)
    requires Acyclic(defs, rank) && DeclsRanked(defs, rank, k, ds) && ds != []
    ensures var d := ds[|ds| - 1]; AllSlots(defs, rank, k, ds) == AllSlots(defs, rank, k, ds[..|ds| - 1]) + Slots(defs, rank, k, d.name, d.t)
    decreases |ds|
  {
    hide Slots, Acyclic;
    if |ds| == 1 {
      assert ds[1..] == [] && ds[..0] == [];
    } else {
      SlotsOfLast(defs, rank, k, ds[1..]);
      assert ds[1..][..|ds| - 2] == ds[..|ds| - 1][1..];
    }
  }

  /** The same for every parameter list: argument `i` reads the slot the signature has at `i`. */
  lemma {:induction false} EveryCallFits(defs: TypeDefs, rank: map<string, nat>, k: nat, ds: seq<Decl>)
    requires Acyclic(defs, rank) && DeclsRanked(defs, rank, k, ds)
    ensures AllFit(AllSlots(defs, rank, k, ds), Signature(defs, rank, k, ds), AllPops(defs, rank, k, ds), AllArgs(defs, rank, k, ds), AllParams(defs, rank, k, ds))
    decreases |ds|
  {
    hide AllFit, Acyclic, Slots;
    if ds == [] {
      NothingFits();
    } else {
      var d, front := ds[|ds| - 1], ds[..|ds| - 1];
      SlotsOfLast(defs, rank, k, ds);
      EveryCallFits(defs, rank, k, front);
      EverySlotFits(defs, rank, k, d.name, d.t);
      JoinFit(AllSlots(defs, rank, k, front), Signature(defs, rank, k, front), AllPops(defs, rank, k, front), AllArgs(defs, rank, k, front),
              AllParams(defs, rank, k, front), Slots(defs, rank, k, d.name, d.t), WasmTypes(defs, rank, k, d.t), Pops(defs, rank, k, d.name, d.t),
              CallArgs(defs, rank, k, d.name, d.t), ProtoParams(defs, rank, k, d.name, d.t));
    }
  }

  /** The C++ type of a number has its width and sign. */
  lemma Numbers(n: string)
    ensures n == "s8" ==> PrimitiveCpp(n) == "int8_t"
    ensures n == "u8" ==> PrimitiveCpp(n) == "uint8_t"
    ensures n == "s16" ==> PrimitiveCpp(n) == "int16_t"
    ensures n == "u16" ==> PrimitiveCpp(n) == "uint16_t"
    ensures n == "s32" ==> PrimitiveCpp(n) == "int32_t"
    ensures n == "u32" ==> PrimitiveCpp(n) == "uint32_t"
    ensures n == "s64" ==> PrimitiveCpp(n) == "int64_t"
    ensures n == "u64" ==> PrimitiveCpp(n) == "uint64_t"
    ensures n == "f32" ==> PrimitiveCpp(n) == "float"
    ensures n == "f64" ==> PrimitiveCpp(n) == "double"
    ensures n in ["s8", "u8", "s16", "u16", "s32", "u32", "s64", "u64", "f32", "f64"] ==> ElemCpp(Primitive(n)) == PrimitiveCpp(n)
  {
  }

  // ----- results -----

  /** The kind of the one value pushed for a result. */
  function PushKind(defs: TypeDefs, ghost rank: map<string, nat>, ghost k: nat, t: WitType): Kind
    requires Acyclic(defs, rank) && Ranked(defs, rank, k, t)
    decreases k, t
  {
    match t
    case Primitive(n) => PrimitiveKind(n)
    case Named(n) => if n in defs && defs[n].Alias? then PushKind(defs, rank, rank[n], defs[n].t) else I32
    case _ => I32
  }

  /** A number, perhaps under other names. */
  predicate IsNumber(defs: TypeDefs, ghost rank: map<string, nat>, ghost k: nat, t: WitType)
    requires Acyclic(defs, rank) && Ranked(defs, rank, k, t)
    decreases k, t
  {
    t.Primitive? || (t.Named? && t.name in defs && defs[t.name].Alias? && IsNumber(defs, rank, rank[t.name], defs[t.name].t))
  }

  /** What is pushed for a result is what the checked signature says if and only if the result has one slot, which is a number
      under any name or a 32-bit integer. */
  lemma {:induction false} ResultFits(defs: TypeDefs, rank: map<string, nat>, k: nat, name: string, t: WitType)
    requires Acyclic(defs, rank) && Ranked(defs, rank, k, t)
    ensures [PushKind(defs, rank, k, t)] == WasmTypes(defs, rank, k, t) <==>
            var slots := Slots(defs, rank, k, name, t); |slots| == 1 && (IsNumber(defs, rank, k, t) || slots[0].kind == I32)
    decreases k, t
  {
    hide Acyclic;
    EverySlotFits(defs, rank, k, name, t);
    KindPushed(defs, rank, k, t);
  }

  lemma {:induction false} KindPushed(defs: TypeDefs, rank: map<string, nat>, k: nat, t: WitType)
    requires Acyclic(defs, rank) && Ranked(defs, rank, k, t)
    ensures IsNumber(defs, rank, k, t) ==> WasmTypes(defs, rank, k, t) == [PushKind(defs, rank, k, t)]
    ensures !IsNumber(defs, rank, k, t) ==> PushKind(defs, rank, k, t) == I32
    decreases k, t
  {
    if t.Named? && t.name in defs && defs[t.name].Alias? { KindPushed(defs, rank, rank[t.name], defs[t.name].t); }
  }

  /** A string as a result has two slots in the signature, and one value is pushed. */
  lemma StringResultDoesNotFit()
    ensures Acyclic(map[], map[]) && Ranked(map[], map[], 0, Str)
    ensures |WasmTypes(map[], map[], 0, Str)| == 2 && [PushKind(map[], map[], 0, Str)] != WasmTypes(map[], map[], 0, Str)
  {
  }

  // ----- names -----

  function DigitValue(c: char): int { c as int - '0' as int }

  function ValueOf(s: string): int { if s == [] then 0 else 10 * ValueOf(s[..|s| - 1]) + DigitValue(s[|s| - 1]) }

  predicate AllDigits(s: string) { forall i :: 0 <= i < |s| ==> '0' <= s[i] <= '9' }

  /** The number of a part is written in digits that read back as that number. */
  lemma {:induction false} DecimalReads(i: nat)
    ensures Decimal(i) != [] && AllDigits(Decimal(i)) && ValueOf(Decimal(i)) == i
    decreases i
  {
    var d := Digit(i % 10);
    DigitReads(i % 10);
    if i >= 10 {
      DecimalReads(i / 10);
      var s := Decimal(i);
      assert s == Decimal(i / 10) + [d] && s[..|s| - 1] == Decimal(i / 10);
    } else {
      assert [d][..0] == [];
      assert ValueOf([d]) == 10 * ValueOf([]) + DigitValue(d);
    }
  }

  lemma DigitReads(d: nat)
    requires d < 10
    ensures '0' <= Digit(d) <= '9' && DigitValue(Digit(d)) == d
  {
  }

  function Prefixed(pre: string, ts: seq<string>): (r: seq<string>)
    ensures |r| == |ts| && forall i :: 0 <= i < |ts| ==> r[i] == pre + ts[i]
  {
    seq(|ts|, i requires 0 <= i < |ts| => pre + ts[i])
  }

  /** What the variables of a parameter have behind its name. */
  function Tails(defs: TypeDefs, ghost rank: map<string, nat>, ghost k: nat, t: WitType): seq<string>
    requires Acyclic(defs, rank) && Ranked(defs, rank, k, t)
    decreases k, t
  {
    match t
    case Str => ["_ptr", "_len"]
    case List(_) => ["_ptr", "_len"]
    case Opt(i) => ["_has_value"] + Prefixed("_val", Tails(defs, rank, k, i))
    case ResultOf(ok, _) => ["_is_ok"] + (if ok.None? then [] else Prefixed("_ok", Tails(defs, rank, k, ok.t)))
    case Tuple(ps) => PartTails(defs, rank, k, 0, ps)
    case Borrow(h) => Tails(defs, rank, k, h)
    case Own(h) => Tails(defs, rank, k, h)
    case Named(n) =>
      if n in defs && defs[n].Alias? then Tails(defs, rank, rank[n], defs[n].t)
      else if n in defs && defs[n].Variant? then ["_tag", "_payload_ptr"]
      else if n in defs && defs[n].Record? then ["_ptr"]
      else [""]
    case _ => [""]
  }

  function PartTails(defs: TypeDefs, ghost rank: map<string, nat>, ghost k: nat, i: nat, ps: Types): seq<string>
    requires Acyclic(defs, rank) && AllRanked(defs, rank, k, ps)
    decreases k, ps
  {
    if ps.NoTypes? then []
    else Prefixed("_" + Decimal(i), Tails(defs, rank, k, ps.head)) + PartTails(defs, rank, k, i + 1, ps.tail)
  }

  predicate Unlike(ts: seq<string>) { forall i, j :: 0 <= i < j < |ts| ==> ts[i] != ts[j] }

  /** Empty, or set off by an underscore. */
  predicate SetOff(ts: seq<string>) { forall i :: 0 <= i < |ts| ==> ts[i] == "" || ts[i][0] == '_' }

  /** Part `n` or a later one. */
  predicate OfPart(s: string, n: nat, x: string) { s == "_" + Decimal(n) + x && (x == "" || x[0] == '_') }

  ghost predicate LaterPart(s: string, n: nat) { exists m: nat, x :: m >= n && OfPart(s, m, x) }

  ghost predicate PartsFrom(ts: seq<string>, n: nat) { forall i :: 0 <= i < |ts| ==> LaterPart(ts[i], n) }

  lemma PrefixedUnlike(pre: string, ts: seq<string>)
    requires Unlike(ts)
    ensures Unlike(Prefixed(pre, ts))
  {
    var r := Prefixed(pre, ts);
    forall i, j | 0 <= i < j < |r| ensures r[i] != r[j] {
      assert r[i][|pre|..] == ts[i] && r[j][|pre|..] == ts[j];
    }
  }

  lemma FlagUnlike(flag: string, pre: string, ts: seq<string>)
    requires Unlike(ts) && |flag| > 1 && |pre| > 1 && flag[0] == pre[0] == '_' && flag[1] != pre[1]
    ensures Unlike([flag] + Prefixed(pre, ts)) && SetOff([flag] + Prefixed(pre, ts))
  {
    PrefixedUnlike(pre, ts);
    var r := [flag] + Prefixed(pre, ts);
    forall j | 0 < j < |r| ensures r[j][1] == pre[1] && r[j][0] == '_' { assert r[j] == pre + ts[j - 1]; }
  }

  /** A part's number ends where something that is no digit begins. */
  lemma OtherPart(m: nat, n: nat, x: string, y: string)
    requires (x == "" || x[0] == '_') && (y == "" || y[0] == '_') && "_" + Decimal(m) + x == "_" + Decimal(n) + y
    ensures m == n
  {
    hide Decimal, ValueOf, AllDigits;
    DecimalReads(m);
    DecimalReads(n);
    var a, b := Decimal(m), Decimal(n);
    assert ("_" + a + x)[1..] == a + x && ("_" + b + y)[1..] == b + y;
    DigitsEnd(a, b, x, y);
  }

  lemma DigitsEnd(a: string, b: string, x: string, y: string)
    requires AllDigits(a) && AllDigits(b) && (x == "" || x[0] == '_') && (y == "" || y[0] == '_') && a + x == b + y
    ensures a == b
  {
    FirstBehind(a, b, x, y);
    FirstBehind(b, a, y, x);
    assert a == (a + x)[..|a|] && b == (b + y)[..|b|];
  }

  lemma FirstBehind(a: string, b: string, x: string, y: string)
    requires a + x == b + y
    ensures |a| < |b| ==> x != "" && x[0] == b[|a|]
  {
    var s := a + x;
    assert forall i :: |a| <= i < |s| ==> s[i] == x[i - |a|];
    assert forall i :: 0 <= i < |b| ==> s[i] == b[i];
  }

  lemma {:induction false} TailsUnlike(defs: TypeDefs, rank: map<string, nat>, k: nat, t: WitType)
    requires Acyclic(defs, rank) && Ranked(defs, rank, k, t)
    ensures Unlike(Tails(defs, rank, k, t)) && SetOff(Tails(defs, rank, k, t))
    decreases k, t
  {
    hide Unlike, SetOff;
    match t
    case Opt(i) =>
      TailsUnlike(defs, rank, k, i);
      FlagUnlike("_has_value", "_val", Tails(defs, rank, k, i));
    case ResultOf(ok, _) =>
      if ok.Some? {
        TailsUnlike(defs, rank, k, ok.t);
        FlagUnlike("_is_ok", "_ok", Tails(defs, rank, k, ok.t));
      } else {
        assert Tails(defs, rank, k, t) == ["_is_ok"];
        FewUnlike(["_is_ok"]);
      }
    case Tuple(ps) =>
      PartTailsUnlike(defs, rank, k, 0, ps);
      PartsSetOff(PartTails(defs, rank, k, 0, ps));
    case Borrow(h) => TailsUnlike(defs, rank, k, h);
    case Own(h) => TailsUnlike(defs, rank, k, h);
    case Named(n) =>
      if n in defs && defs[n].Alias? { TailsUnlike(defs, rank, rank[n], defs[n].t); } else { FewUnlike(Tails(defs, rank, k, t)); }
    case _ => FewUnlike(Tails(defs, rank, k, t));
  }

  lemma FewUnlike(ts: seq<string>)
    requires |ts| == 1 || (|ts| == 2 && |ts[0]| > 2 && |ts[1]| > 2 && ts[0][1] != ts[1][1])
    requires forall i :: 0 <= i < |ts| ==> ts[i] == "" || ts[i][0] == '_'
    ensures Unlike(ts) && SetOff(ts)
  {
  }

  lemma PartsSetOff(ts: seq<string>)
    requires PartsFrom(ts, 0)
    ensures SetOff(ts)
  {
    forall i | 0 <= i < |ts| ensures ts[i][0] == '_' {
      assert LaterPart(ts[i], 0);
      var m: nat, x :| OfPart(ts[i], m, x);
      assert ts[i] == "_" + Decimal(m) + x;
    }
  }

  lemma {:induction false} PartTailsUnlike(defs: TypeDefs, rank: map<string, nat>, k: nat, i: nat, ps: Types)
    requires Acyclic(defs, rank) && AllRanked(defs, rank, k, ps)
    ensures Unlike(PartTails(defs, rank, k, i, ps)) && PartsFrom(PartTails(defs, rank, k, i, ps), i)
    decreases k, ps
  {
    hide Acyclic, Tails;
    if ps.More? {
      TailsUnlike(defs, rank, k, ps.head);
      PartTailsUnlike(defs, rank, k, i + 1, ps.tail);
      PrefixedUnlike("_" + Decimal(i), Tails(defs, rank, k, ps.head));
      JoinUnlike(i, Tails(defs, rank, k, ps.head), PartTails(defs, rank, k, i + 1, ps.tail));
    }
  }

  lemma JoinUnlike(i: nat, ts: seq<string>, us: seq<string>)
    requires SetOff(ts) && Unlike(Prefixed("_" + Decimal(i), ts)) && Unlike(us) && PartsFrom(us, i + 1)
    ensures var r := Prefixed("_" + Decimal(i), ts) + us; Unlike(r) && PartsFrom(r, i)
  {
    hide Unlike;
    var front := Prefixed("_" + Decimal(i), ts);
    var r := front + us;
    forall a | 0 <= a < |r| ensures LaterPart(r[a], i) {
      if a < |ts| {
        assert OfPart(r[a], i, ts[a]);
      } else {
        assert LaterPart(us[a - |ts|], i + 1);
        var m: nat, x :| m >= i + 1 && OfPart(us[a - |ts|], m, x);
        assert OfPart(r[a], m, x);
      }
    }
    forall a, b | 0 <= a < |front| && 0 <= b < |us| ensures front[a] != us[b] {
      assert LaterPart(us[b], i + 1);
      var m: nat, x :| m >= i + 1 && OfPart(us[b], m, x);
      assert OfPart(front[a], i, ts[a]);
      if front[a] == us[b] { OtherPart(i, m, ts[a], x); }
    }
    UnlikeBoth(front, us);
  }

  lemma UnlikeBoth(a: seq<string>, b: seq<string>)
    requires Unlike(a) && Unlike(b) && forall i, j :: 0 <= i < |a| && 0 <= j < |b| ==> a[i] != b[j]
    ensures Unlike(a + b)
  {
  }

  /** A slot's variable is the parameter's name and the slot's tail. */
  predicate IsNamed(slots: seq<Slot>, name: string, ts: seq<string>)
  {
    |slots| == |ts| && forall i :: 0 <= i < |ts| ==> slots[i].of + Suffix(slots[i].role) == name + ts[i]
  }

  lemma Renamed(slots: seq<Slot>, name: string, pre: string, ts: seq<string>)
    requires IsNamed(slots, name + pre, ts)
    ensures IsNamed(slots, name, Prefixed(pre, ts))
  {
    forall i | 0 <= i < |ts| ensures slots[i].of + Suffix(slots[i].role) == name + Prefixed(pre, ts)[i] {
      assert name + pre + ts[i] == name + (pre + ts[i]);
    }
  }

  lemma {:induction false} TailsName(defs: TypeDefs, rank: map<string, nat>, k: nat, name: string, t: WitType)
    requires Acyclic(defs, rank) && Ranked(defs, rank, k, t)
    ensures IsNamed(Slots(defs, rank, k, name, t), name, Tails(defs, rank, k, t))
    decreases k, t
  {
    match t
    case Opt(i) =>
      TailsName(defs, rank, k, name + "_val", i);
      Renamed(Slots(defs, rank, k, name + "_val", i), name, "_val", Tails(defs, rank, k, i));
    case ResultOf(ok, _) =>
      if ok.Some? {
        TailsName(defs, rank, k, name + "_ok", ok.t);
        Renamed(Slots(defs, rank, k, name + "_ok", ok.t), name, "_ok", Tails(defs, rank, k, ok.t));
      }
    case Tuple(ps) => PartTailsName(defs, rank, k, name, 0, ps);
    case Borrow(h) => TailsName(defs, rank, k, name, h);
    case Own(h) => TailsName(defs, rank, k, name, h);
    case Named(n) => if n in defs && defs[n].Alias? { TailsName(defs, rank, rank[n], name, defs[n].t); }
    case _ =>
  }

  lemma NothingNamed(name: string)
    ensures IsNamed([], name, [])
  {
  }

  lemma JoinNamed(a: seq<Slot>, b: seq<Slot>, name: string, ts: seq<string>, us: seq<string>)
    requires IsNamed(a, name, ts) && IsNamed(b, name, us)
    ensures IsNamed(a + b, name, ts + us)
  {
  }

  lemma {:induction false} PartTailsName(defs: TypeDefs, rank: map<string, nat>, k: nat, name: string, i: nat, ps: Types)
    requires Acyclic(defs, rank) && AllRanked(defs, rank, k, ps)
    ensures IsNamed(PartSlots(defs, rank, k, name, i, ps), name, PartTails(defs, rank, k, i, ps))
    decreases k, ps
  {
    hide Acyclic, Slots, Tails, IsNamed;
    if ps.NoTypes? {
      NothingNamed(name);
    } else {
      var pre := "_" + Decimal(i);
      assert name + "_" + Decimal(i) == name + pre;
      TailsName(defs, rank, k, name + pre, ps.head);
      Renamed(Slots(defs, rank, k, name + pre, ps.head), name, pre, Tails(defs, rank, k, ps.head));
      PartTailsName(defs, rank, k, name, i + 1, ps.tail);
      JoinNamed(Slots(defs, rank, k, name + pre, ps.head), PartSlots(defs, rank, k, name, i + 1, ps.tail), name,
                Prefixed(pre, Tails(defs, rank, k, ps.head)), PartTails(defs, rank, k, i + 1, ps.tail));
    }
  }

  lemma VariableOf(defs: TypeDefs, rank: map<string, nat>, k: nat, name: string, t: WitType, i: nat)
    requires Acyclic(defs, rank) && Ranked(defs, rank, k, t) && i < |Pops(defs, rank, k, name, t)|
    ensures var pops, ts := Pops(defs, rank, k, name, t), Tails(defs, rank, k, t);
            |ts| == |pops| && pops[i].v == "_" + (name + ts[|pops| - 1 - i])
  {
    hide Acyclic, Ranked, Pops, Slots, Tails, WasmTypes, CallArgs, ProtoParams, Suffix;
    EverySlotFits(defs, rank, k, name, t);
    TailsName(defs, rank, k, name, t);
    var pops := Pops(defs, rank, k, name, t);
    var a := |pops| - 1 - i;
    assert Fits(Slots(defs, rank, k, name, t)[a], WasmTypes(defs, rank, k, t)[a], pops[|pops| - 1 - a], CallArgs(defs, rank, k, name, t)[a],
                ProtoParams(defs, rank, k, name, t)[a]);
  }

  /** No two variables of one parameter have the same name. */
  lemma VariablesDiffer(defs: TypeDefs, rank: map<string, nat>, k: nat, name: string, t: WitType, i: nat, j: nat)
    requires Acyclic(defs, rank) && Ranked(defs, rank, k, t)
    requires i < j < |Pops(defs, rank, k, name, t)|
    ensures Pops(defs, rank, k, name, t)[i].v != Pops(defs, rank, k, name, t)[j].v
  {
    hide Acyclic, Ranked, Pops, Tails;
    VariableOf(defs, rank, k, name, t, i);
    VariableOf(defs, rank, k, name, t, j);
    TailsUnlike(defs, rank, k, t);
    var n, ts := |Pops(defs, rank, k, name, t)|, Tails(defs, rank, k, t);
    Behind(name, ts[n - 1 - i], ts[n - 1 - j]);
  }

  lemma Behind(name: string, x: string, y: string)
    requires x != y
    ensures "_" + (name + x) != "_" + (name + y)
  {
    assert ("_" + (name + x))[1..][|name|..] == x && ("_" + (name + y))[1..][|name|..] == y;
  }

  /** Two parameters can share one: a string `a` and a number `a_len`. */
  lemma ParametersCollide()
    ensures Acyclic(map[], map[]) && DeclsRanked(map[], map[], 0, [Decl("a", Str), Decl("a_len", Primitive("u32"))])
    ensures var pops := AllPops(map[], map[], 0, [Decl("a", Str), Decl("a_len", Primitive("u32"))]);
            |pops| == 3 && pops[0].v == pops[1].v
  {
    var ds := [Decl("a", Str), Decl("a_len", Primitive("u32"))];
    assert ds[..1] == [Decl("a", Str)] && ds[..1][..0] == [];
    assert AllPops(map[], map[], 0, ds[..1]) == Pops(map[], map[], 0, "a", Str) + [];
    assert VarOf("a" + "_len") == VarOf("a_len");
  }
}
