// WIT types as the tools see them.
module Wit {
  datatype WitType =
    | Primitive(name: string)
    | Bool
    | Char
    | Str
    | List(elem: WitType)
    | Opt(inner: WitType)
    | ResultOf(ok: MaybeType, err: ErrPart)
    | Tuple(parts: Types)
    | Borrow(handle: WitType)
    | Own(handle: WitType)
    | Named(name: string)

  datatype Types = NoTypes | More(head: WitType, tail: Types)

  datatype MaybeType = None | Some(t: WitType)

  /** The second parameter of `result<…>`, if it is written. */
  datatype ErrPart = NoErr | Err(e: MaybeType)

  datatype TypeDef = Record | Resource | Enum | Flags | Variant | Alias(t: WitType)

  type TypeDefs = map<string, TypeDef>

  /** Aliases mentioned in `t` have rank below `k`. */
  predicate Ranked(defs: TypeDefs, rank: map<string, nat>, k: nat, t: WitType)
  {
    match t
    case List(e) => Ranked(defs, rank, k, e)
    case Opt(i) => Ranked(defs, rank, k, i)
    case ResultOf(ok, _) => ok.None? || Ranked(defs, rank, k, ok.t)
    case Tuple(ps) => AllRanked(defs, rank, k, ps)
    case Borrow(h) => Ranked(defs, rank, k, h)
    case Own(h) => Ranked(defs, rank, k, h)
    case Named(n) => n in defs && defs[n].Alias? ==> n in rank && rank[n] < k
    case _ => true
  }

  predicate AllRanked(defs: TypeDefs, rank: map<string, nat>, k: nat, ps: Types)
  {
    ps.NoTypes? || (Ranked(defs, rank, k, ps.head) && AllRanked(defs, rank, k, ps.tail))
  }

  /** No alias leads back to itself. */
  ghost predicate Acyclic(defs: TypeDefs, rank: map<string, nat>)
  {
    forall n :: n in defs && defs[n].Alias? ==> n in rank && Ranked(defs, rank, rank[n], defs[n].t)
  }
}

// The host-call generator: signature slots, prototype parameters, pops and call arguments of a parameter.
module HostCodegen {
  import opened Wit
  import opened Sequences

  datatype Kind = I32 | I64 | F32 | F64

  function PrimitiveKind(n: string): Kind
  {
    if n == "s64" || n == "u64" then I64
    else if n == "f32" then F32
    else if n == "f64" then F64
    else I32
  }

  /** Operand slots of a parameter, bottom first. */
  function WasmTypes(defs: TypeDefs, ghost rank: map<string, nat>, ghost k: nat, t: WitType): seq<Kind>
    requires Acyclic(defs, rank) && Ranked(defs, rank, k, t)
    decreases k, t
  {
    match t
    case Primitive(n) => [PrimitiveKind(n)]
    case Str => [I32, I32]
    case List(_) => [I32, I32]
    case Opt(i) => [I32] + WasmTypes(defs, rank, k, i)
    case Tuple(ps) => WasmTypesAll(defs, rank, k, ps)
    case ResultOf(ok, _) => [I32] + (if ok.None? then [] else WasmTypes(defs, rank, k, ok.t))
    case Borrow(h) => WasmTypes(defs, rank, k, h)
    case Own(h) => WasmTypes(defs, rank, k, h)
    case Named(n) =>
      if n !in defs then [I32]
      else if defs[n].Variant? then [I32, I32]
      else if defs[n].Alias? then WasmTypes(defs, rank, rank[n], defs[n].t)
      else [I32]
    case _ => [I32]
  }

  function WasmTypesAll(defs: TypeDefs, ghost rank: map<string, nat>, ghost k: nat, ps: Types): seq<Kind>
    requires Acyclic(defs, rank) && AllRanked(defs, rank, k, ps)
    decreases k, ps
  {
    if ps.NoTypes? then [] else WasmTypes(defs, rank, k, ps.head) + WasmTypesAll(defs, rank, k, ps.tail)
  }

  // ----- names -----

  function Digit(d: nat): char
    requires d < 10
  {
    "0123456789"[d]
  }

  function Decimal(i: nat): string { if i < 10 then [Digit(i)] else Decimal(i / 10) + [Digit(i % 10)] }

  /** The C++ variable of parameter or part `name`. */
  function VarOf(name: string): string { "_" + name }

  function PrimitiveCpp(n: string): string
  {
    if n == "s32" then "int32_t" else if n == "u32" then "uint32_t"
    else if n == "s8" then "int8_t" else if n == "u8" then "uint8_t"
    else if n == "s16" then "int16_t" else if n == "u16" then "uint16_t"
    else if n == "s64" then "int64_t" else if n == "u64" then "uint64_t"
    else if n == "f32" then "float" else if n == "f64" then "double"
    else "uint32_t"
  }

  function ElemCpp(t: WitType): string
  {
    match t
    case Primitive(n) => if n in {"s32", "u32", "s8", "u8", "s16", "u16", "s64", "u64", "f32", "f64"} then PrimitiveCpp(n) else "uint8_t"
    case Bool => "bool"
    case Char => "char32_t"
    case _ => "uint8_t"
  }

  // ----- pops -----

  /** One generated line: a variable declared from the slot popped as `kind`. */
  datatype Pop = Pop(cpp: string, v: string, kind: Kind)

  function NamedPops(defs: TypeDefs, name: string, n: string): seq<Pop>
    requires n in defs && !defs[n].Alias?
  {
    match defs[n]
    case Record => [Pop("uint32_t", VarOf(name + "_ptr"), I32)]
    case Variant => [Pop("uint32_t", VarOf(name + "_payload_ptr"), I32), Pop("int32_t", VarOf(name + "_tag"), I32)]
    case Flags => [Pop("uint32_t", VarOf(name), I32)]
    case _ => [Pop(n, VarOf(name), I32)]
  }

  /** Lines popping a parameter, top of the stack first. */
  function Pops(defs: TypeDefs, ghost rank: map<string, nat>, ghost k: nat, name: string, t: WitType): seq<Pop>
    requires Acyclic(defs, rank) && Ranked(defs, rank, k, t)
    decreases k, t
  {
    match t
    case Primitive(n) => [Pop(PrimitiveCpp(n), VarOf(name), PrimitiveKind(n))]
    case Bool => [Pop("bool", VarOf(name), I32)]
    case Char => [Pop("char32_t", VarOf(name), I32)]
    case Str => [Pop("uint32_t", VarOf(name + "_len"), I32), Pop("uint32_t", VarOf(name + "_ptr"), I32)]
    case List(_) => [Pop("uint32_t", VarOf(name + "_len"), I32), Pop("uint32_t", VarOf(name + "_ptr"), I32)]
    case Opt(i) => Pops(defs, rank, k, name + "_val", i) + [Pop("bool", VarOf(name + "_has_value"), I32)]
    case Tuple(ps) => PopsAll(defs, rank, k, name, 0, ps)
    case ResultOf(ok, _) =>
      (if ok.None? then [] else Pops(defs, rank, k, name + "_ok", ok.t)) + [Pop("bool", VarOf(name + "_is_ok"), I32)]
    case Borrow(h) => Pops(defs, rank, k, name, h)
    case Own(h) => Pops(defs, rank, k, name, h)
    case Named(n) =>
      if n !in defs then [Pop("uint32_t", VarOf(name), I32)]
      else if defs[n].Alias? then Pops(defs, rank, rank[n], name, defs[n].t)
      else NamedPops(defs, name, n)
  }

  /** Parts from number `i` on, last part first. */
  function PopsAll(defs: TypeDefs, ghost rank: map<string, nat>, ghost k: nat, name: string, i: nat, ps: Types): seq<Pop>
    requires Acyclic(defs, rank) && AllRanked(defs, rank, k, ps)
    decreases k, ps
  {
    if ps.NoTypes? then []
    else PopsAll(defs, rank, k, name, i + 1, ps.tail) + Pops(defs, rank, k, name + "_" + Decimal(i), ps.head)
  }

  // ----- prototype and call -----

  datatype Param = Param(cpp: string, name: string)

  /** A variable, or a pointer into the linear memory at the offset a variable holds. */
  datatype Arg = Value(v: string) | InMemory(cpp: string, v: string)

  function NamedParams(defs: TypeDefs, name: string, n: string): seq<Param>
    requires n in defs && !defs[n].Alias?
  {
    match defs[n]
    case Record => [Param("const " + n + "*", name)]
    case Variant => [Param("int32_t", name + "_tag"), Param("uint32_t", name + "_payload_ptr")]
    case Flags => [Param("uint32_t", name)]
    case _ => [Param(n, name)]
  }

  function ProtoParams(defs: TypeDefs, ghost rank: map<string, nat>, ghost k: nat, name: string, t: WitType): seq<Param>
    requires Acyclic(defs, rank) && Ranked(defs, rank, k, t)
    decreases k, t
  {
    match t
    case Primitive(n) => [Param(PrimitiveCpp(n), name)]
    case Bool => [Param("bool", name)]
    case Char => [Param("char32_t", name)]
    case Str => [Param("const char*", name), Param("uint32_t", name + "_len")]
    case List(e) => [Param("const " + ElemCpp(e) + "*", name), Param("uint32_t", name + "_len")]
    case Opt(i) => [Param("bool", name + "_has_value")] + ProtoParams(defs, rank, k, name + "_val", i)
    case Tuple(ps) => ProtoParamsAll(defs, rank, k, name, 0, ps)
    case ResultOf(ok, _) =>
      [Param("bool", name + "_is_ok")] + (if ok.None? then [] else ProtoParams(defs, rank, k, name + "_ok", ok.t))
    case Borrow(h) =>
      if IsResource(defs, h) then [Param("const " + h.name + "&", name)] else ProtoParams(defs, rank, k, name, h)
    case Own(h) =>
      if IsResource(defs, h) then [Param(h.name, name)] else ProtoParams(defs, rank, k, name, h)
    case Named(n) =>
      if n !in defs then [Param("uint32_t", name)]
      else if defs[n].Alias? then ProtoParams(defs, rank, rank[n], name, defs[n].t)
      else NamedParams(defs, name, n)
  }

  predicate IsResource(defs: TypeDefs, t: WitType) { t.Named? && t.name in defs && defs[t.name].Resource? }

  function ProtoParamsAll(defs: TypeDefs, ghost rank: map<string, nat>, ghost k: nat, name: string, i: nat, ps: Types): seq<Param>
    requires Acyclic(defs, rank) && AllRanked(defs, rank, k, ps)
    decreases k, ps
  {
    if ps.NoTypes? then []
    else ProtoParams(defs, rank, k, name + "_" + Decimal(i), ps.head) + ProtoParamsAll(defs, rank, k, name, i + 1, ps.tail)
  }

  function NamedArgs(defs: TypeDefs, name: string, n: string): seq<Arg>
    requires n in defs && !defs[n].Alias?
  {
    match defs[n]
    case Record => [InMemory(n, VarOf(name + "_ptr"))]
    case Variant => [Value(VarOf(name + "_tag")), Value(VarOf(name + "_payload_ptr"))]
    case _ => [Value(VarOf(name))]
  }

  function CallArgs(defs: TypeDefs, ghost rank: map<string, nat>, ghost k: nat, name: string, t: WitType): seq<Arg>
    requires Acyclic(defs, rank) && Ranked(defs, rank, k, t)
    decreases k, t
  {
    match t
    case Str => [InMemory("char", VarOf(name + "_ptr")), Value(VarOf(name + "_len"))]
    case List(e) => [InMemory(ElemCpp(e), VarOf(name + "_ptr")), Value(VarOf(name + "_len"))]
    case Opt(i) => [Value(VarOf(name + "_has_value"))] + CallArgs(defs, rank, k, name + "_val", i)
    case Tuple(ps) => CallArgsAll(defs, rank, k, name, 0, ps)
    case ResultOf(ok, _) =>
      [Value(VarOf(name + "_is_ok"))] + (if ok.None? then [] else CallArgs(defs, rank, k, name + "_ok", ok.t))
    case Borrow(h) => CallArgs(defs, rank, k, name, h)
    case Own(h) => CallArgs(defs, rank, k, name, h)
    case Named(n) =>
      if n !in defs then [Value(VarOf(name))]
      else if defs[n].Alias? then CallArgs(defs, rank, rank[n], name, defs[n].t)
      else NamedArgs(defs, name, n)
    case _ => [Value(VarOf(name))]
  }

  function CallArgsAll(defs: TypeDefs, ghost rank: map<string, nat>, ghost k: nat, name: string, i: nat, ps: Types): seq<Arg>
    requires Acyclic(defs, rank) && AllRanked(defs, rank, k, ps)
    decreases k, ps
  {
    if ps.NoTypes? then []
    else CallArgs(defs, rank, k, name + "_" + Decimal(i), ps.head) + CallArgsAll(defs, rank, k, name, i + 1, ps.tail)
  }

  // ----- pops consume the signature backwards -----

  function Kinds(ps: seq<Pop>): (r: seq<Kind>)
    ensures |r| == |ps| && forall i :: 0 <= i < |ps| ==> r[i] == ps[i].kind
  {
    seq(|ps|, i requires 0 <= i < |ps| => ps[i].kind)
  }

  lemma ReverseJoin(a: seq<Pop>, b: seq<Pop>, x: seq<Kind>, y: seq<Kind>)
    requires Kinds(a) == Reverse(x) && Kinds(b) == Reverse(y)
    ensures Kinds(b + a) == Reverse(x + y)
  {
  }

  /** The slots a parameter's lines pop are those of its signature, from the top of the stack down. */
  lemma {:induction false} PopsAreReversed(defs: TypeDefs, rank: map<string, nat>, k: nat, name: string, t: WitType)
    requires Acyclic(defs, rank) && Ranked(defs, rank, k, t)
    ensures Kinds(Pops(defs, rank, k, name, t)) == Reverse(WasmTypes(defs, rank, k, t))
    decreases k, t
  {
    match t
    case Opt(i) =>
      PopsAreReversed(defs, rank, k, name + "_val", i);
      ReverseJoin([Pop("bool", VarOf(name + "_has_value"), I32)], Pops(defs, rank, k, name + "_val", i), [I32], WasmTypes(defs, rank, k, i));
    case Tuple(ps) => PopsAllReversed(defs, rank, k, name, 0, ps);
    case ResultOf(ok, _) =>
      if ok.Some? {
        PopsAreReversed(defs, rank, k, name + "_ok", ok.t);
        ReverseJoin([Pop("bool", VarOf(name + "_is_ok"), I32)], Pops(defs, rank, k, name + "_ok", ok.t), [I32], WasmTypes(defs, rank, k, ok.t));
      }
    case Borrow(h) => PopsAreReversed(defs, rank, k, name, h);
    case Own(h) => PopsAreReversed(defs, rank, k, name, h);
    case Named(n) => if n in defs && defs[n].Alias? { PopsAreReversed(defs, rank, rank[n], name, defs[n].t); }
    case _ =>
  }

  lemma {:induction false} PopsAllReversed(defs: TypeDefs, rank: map<string, nat>, k: nat, name: string, i: nat, ps: Types)
    requires Acyclic(defs, rank) && AllRanked(defs, rank, k, ps)
    ensures Kinds(PopsAll(defs, rank, k, name, i, ps)) == Reverse(WasmTypesAll(defs, rank, k, ps))
    decreases k, ps
  {
    if ps.More? {
      PopsAreReversed(defs, rank, k, name + "_" + Decimal(i), ps.head);
      PopsAllReversed(defs, rank, k, name, i + 1, ps.tail);
      ReverseJoin(Pops(defs, rank, k, name + "_" + Decimal(i), ps.head), PopsAll(defs, rank, k, name, i + 1, ps.tail),
                  WasmTypes(defs, rank, k, ps.head), WasmTypesAll(defs, rank, k, ps.tail));
    }
  }

  // ----- arguments fit the prototype and are declared -----

  /** An argument passes what the prototype's parameter is named after. */
  predicate Passes(a: Arg, p: Param)
  {
    match a
    case Value(v) => v == VarOf(p.name)
    case InMemory(_, v) => v == VarOf(p.name + "_ptr")
  }

  predicate AllPass(args: seq<Arg>, ps: seq<Param>)
  {
    |args| == |ps| && forall i :: 0 <= i < |args| ==> Passes(args[i], ps[i])
  }

  predicate Declares(pops: seq<Pop>, a: Arg) { exists i :: 0 <= i < |pops| && pops[i].v == a.v }

  predicate AllDeclared(args: seq<Arg>, pops: seq<Pop>)
  {
    forall i :: 0 <= i < |args| ==> Declares(pops, args[i])
  }

  lemma DeclaredJoin(args: seq<Arg>, more: seq<Arg>, pops: seq<Pop>, others: seq<Pop>)
    requires AllDeclared(args, pops) && AllDeclared(more, others)
    ensures AllDeclared(args + more, pops + others) && AllDeclared(args + more, others + pops)
  {
    forall i | 0 <= i < |args + more| ensures Declares(pops + others, (args + more)[i]) && Declares(others + pops, (args + more)[i]) {
      var a := (args + more)[i];
      if i < |args| {
        assert a == args[i];
        var j :| 0 <= j < |pops| && pops[j].v == a.v;
        assert (pops + others)[j] == pops[j] && (others + pops)[|others| + j] == pops[j];
      } else {
        assert a == more[i - |args|];
        var j :| 0 <= j < |others| && others[j].v == a.v;
        assert (pops + others)[|pops| + j] == others[j] && (others + pops)[j] == others[j];
      }
    }
  }

  lemma One(args: seq<Arg>, pops: seq<Pop>)
    requires |args| == |pops| == 1 && args[0].v == pops[0].v
    ensures AllDeclared(args, pops)
  {
    assert Declares(pops, args[0]);
  }

  lemma Two(args: seq<Arg>, pops: seq<Pop>)
    requires |args| == |pops| == 2 && args[0].v == pops[1].v && args[1].v == pops[0].v
    ensures AllDeclared(args, pops)
  {
    assert Declares(pops, args[0]) && Declares(pops, args[1]);
  }

  /** The call passes one argument for every prototype parameter, the one named after it, and uses only popped variables. */
  lemma {:induction false} ArgsFit(defs: TypeDefs, rank: map<string, nat>, k: nat, name: string, t: WitType)
    requires Acyclic(defs, rank) && Ranked(defs, rank, k, t)
    ensures AllPass(CallArgs(defs, rank, k, name, t), ProtoParams(defs, rank, k, name, t))
    ensures AllDeclared(CallArgs(defs, rank, k, name, t), Pops(defs, rank, k, name, t))
    decreases k, t
  {
    hide AllDeclared, VarOf, Acyclic;
    var args, pops := CallArgs(defs, rank, k, name, t), Pops(defs, rank, k, name, t);
    match t
    case Str => Two(args, pops);
    case List(_) => Two(args, pops);
    case Opt(i) =>
      ArgsFit(defs, rank, k, name + "_val", i);
      Flagged(name + "_has_value", CallArgs(defs, rank, k, name + "_val", i), Pops(defs, rank, k, name + "_val", i));
    case Tuple(ps) => ArgsFitAll(defs, rank, k, name, 0, ps);
    case ResultOf(ok, _) =>
      if ok.Some? {
        ArgsFit(defs, rank, k, name + "_ok", ok.t);
        Flagged(name + "_is_ok", CallArgs(defs, rank, k, name + "_ok", ok.t), Pops(defs, rank, k, name + "_ok", ok.t));
      } else {
        One(args, pops);
      }
    case Borrow(h) => ArgsFit(defs, rank, k, name, h);
    case Own(h) => ArgsFit(defs, rank, k, name, h);
    case Named(n) => NamedFit(defs, rank, k, name, t);
    case _ => One(args, pops);
  }

  lemma {:induction false} NamedFit(defs: TypeDefs, rank: map<string, nat>, k: nat, name: string, t: WitType)
    requires Acyclic(defs, rank) && Ranked(defs, rank, k, t) && t.Named?
    ensures AllPass(CallArgs(defs, rank, k, name, t), ProtoParams(defs, rank, k, name, t))
    ensures AllDeclared(CallArgs(defs, rank, k, name, t), Pops(defs, rank, k, name, t))
    decreases k, t, 0
  {
    hide AllDeclared, VarOf;
    var args, pops := CallArgs(defs, rank, k, name, t), Pops(defs, rank, k, name, t);
    if t.name in defs && defs[t.name].Alias? {
      ArgsFit(defs, rank, rank[t.name], name, defs[t.name].t);
    } else if t.name in defs && defs[t.name].Variant? {
      Two(args, pops);
    } else {
      One(args, pops);
    }
  }

  lemma Flagged(flag: string, args: seq<Arg>, pops: seq<Pop>)
    requires AllDeclared(args, pops)
    ensures AllDeclared([Value(VarOf(flag))] + args, pops + [Pop("bool", VarOf(flag), I32)])
  {
    hide AllDeclared, VarOf;
    One([Value(VarOf(flag))], [Pop("bool", VarOf(flag), I32)]);
    DeclaredJoin([Value(VarOf(flag))], args, [Pop("bool", VarOf(flag), I32)], pops);
  }

  lemma {:induction false} ArgsFitAll(defs: TypeDefs, rank: map<string, nat>, k: nat, name: string, i: nat, ps: Types)
    requires Acyclic(defs, rank) && AllRanked(defs, rank, k, ps)
    ensures AllPass(CallArgsAll(defs, rank, k, name, i, ps), ProtoParamsAll(defs, rank, k, name, i, ps))
    ensures AllDeclared(CallArgsAll(defs, rank, k, name, i, ps), PopsAll(defs, rank, k, name, i, ps))
    decreases k, ps
  {
    hide Passes, Declares;
    if ps.More? {
      var part := name + "_" + Decimal(i);
      ArgsFit(defs, rank, k, part, ps.head);
      ArgsFitAll(defs, rank, k, name, i + 1, ps.tail);
      DeclaredJoin(CallArgs(defs, rank, k, part, ps.head), CallArgsAll(defs, rank, k, name, i + 1, ps.tail),
                   Pops(defs, rank, k, part, ps.head), PopsAll(defs, rank, k, name, i + 1, ps.tail));
    }
  }

  // ----- whole functions -----

  datatype Decl = Decl(name: string, t: WitType)

  predicate DeclsRanked(defs: TypeDefs, rank: map<string, nat>, k: nat, ds: seq<Decl>)
  {
    forall i :: 0 <= i < |ds| ==> Ranked(defs, rank, k, ds[i].t)
  }

  /** The signature checked when the function is linked; a method has its handle first. */
  function Signature(defs: TypeDefs, ghost rank: map<string, nat>, ghost k: nat, ds: seq<Decl>): seq<Kind>
    requires Acyclic(defs, rank) && DeclsRanked(defs, rank, k, ds)
  {
    if ds == [] then [] else Signature(defs, rank, k, ds[..|ds| - 1]) + WasmTypes(defs, rank, k, ds[|ds| - 1].t)
  }

  /** Pops of all parameters, last parameter first. */
  function AllPops(defs: TypeDefs, ghost rank: map<string, nat>, ghost k: nat, ds: seq<Decl>): seq<Pop>
    requires Acyclic(defs, rank) && DeclsRanked(defs, rank, k, ds)
  {
    if ds == [] then []
    else Pops(defs, rank, k, ds[|ds| - 1].name, ds[|ds| - 1].t) + AllPops(defs, rank, k, ds[..|ds| - 1])
  }

  function AllArgs(defs: TypeDefs, ghost rank: map<string, nat>, ghost k: nat, ds: seq<Decl>): seq<Arg>
    requires Acyclic(defs, rank) && DeclsRanked(defs, rank, k, ds)
  {
    if ds == [] then [] else AllArgs(defs, rank, k, ds[..|ds| - 1]) + CallArgs(defs, rank, k, ds[|ds| - 1].name, ds[|ds| - 1].t)
  }

  function AllParams(defs: TypeDefs, ghost rank: map<string, nat>, ghost k: nat, ds: seq<Decl>): seq<Param>
    requires Acyclic(defs, rank) && DeclsRanked(defs, rank, k, ds)
  {
    if ds == [] then [] else AllParams(defs, rank, k, ds[..|ds| - 1]) + ProtoParams(defs, rank, k, ds[|ds| - 1].name, ds[|ds| - 1].t)
  }

  const SELF: Pop := Pop("Resource", "_self", I32)

  /** For every parameter list the generated pops consume exactly the checked signature backwards, the handle of a method
      last; the call passes one declared argument for every parameter of the prototype. */
  lemma {:induction false} DispatchMatchesSignature(defs: TypeDefs, rank: map<string, nat>, k: nat, ds: seq<Decl>)
    requires Acyclic(defs, rank) && DeclsRanked(defs, rank, k, ds)
    ensures Kinds(AllPops(defs, rank, k, ds)) == Reverse(Signature(defs, rank, k, ds))
    ensures Kinds(AllPops(defs, rank, k, ds) + [SELF]) == Reverse([I32] + Signature(defs, rank, k, ds))
    ensures AllPass(AllArgs(defs, rank, k, ds), AllParams(defs, rank, k, ds))
    ensures AllDeclared(AllArgs(defs, rank, k, ds), AllPops(defs, rank, k, ds))
    decreases |ds|
  {
    hide Passes, Declares;
    if ds != [] {
      var d, front := ds[|ds| - 1], ds[..|ds| - 1];
      DispatchMatchesSignature(defs, rank, k, front);
      PopsAreReversed(defs, rank, k, d.name, d.t);
      ReverseJoin(AllPops(defs, rank, k, front), Pops(defs, rank, k, d.name, d.t), Signature(defs, rank, k, front), WasmTypes(defs, rank, k, d.t));
      ArgsFit(defs, rank, k, d.name, d.t);
      DeclaredJoin(AllArgs(defs, rank, k, front), CallArgs(defs, rank, k, d.name, d.t), AllPops(defs, rank, k, front), Pops(defs, rank, k, d.name, d.t));
    }
    ReverseJoin([SELF], AllPops(defs, rank, k, ds), [I32], Signature(defs, rank, k, ds));
  }

  // ----- the memory base -----

  /** The generator's test for "needs the linear memory". */
  function IsPointer(defs: TypeDefs, ghost rank: map<string, nat>, ghost k: nat, t: WitType): bool
    requires Acyclic(defs, rank) && Ranked(defs, rank, k, t)
    decreases k, t
  {
    match t
    case Str => true
    case List(_) => true
    case Borrow(h) => IsPointer(defs, rank, k, h)
    case Own(h) => IsPointer(defs, rank, k, h)
    case Named(n) =>
      n in defs && (defs[n].Record? || (defs[n].Alias? && IsPointer(defs, rank, rank[n], defs[n].t)))
    case _ => false
  }

  predicate UsesMemory(args: seq<Arg>) { exists i :: 0 <= i < |args| && args[i].InMemory? }

  /** Behind aliases and handles stands an option, a tuple or a result. */
  function IsContainer(defs: TypeDefs, ghost rank: map<string, nat>, ghost k: nat, t: WitType): bool
    requires Acyclic(defs, rank) && Ranked(defs, rank, k, t)
    decreases k, t
  {
    match t
    case Opt(_) => true
    case Tuple(_) => true
    case ResultOf(_, _) => true
    case Borrow(h) => IsContainer(defs, rank, k, h)
    case Own(h) => IsContainer(defs, rank, k, h)
    case Named(n) => n in defs && defs[n].Alias? && IsContainer(defs, rank, rank[n], defs[n].t)
    case _ => false
  }

  /** The test finds exactly the parameters that use the memory and are no option, tuple or result: whatever those hold, it
      never declares the memory base for them. */
  lemma {:induction false} PointerTestIsExact(defs: TypeDefs, rank: map<string, nat>, k: nat, name: string, t: WitType)
    requires Acyclic(defs, rank) && Ranked(defs, rank, k, t)
    ensures IsPointer(defs, rank, k, t) <==>
              UsesMemory(CallArgs(defs, rank, k, name, t)) && !IsContainer(defs, rank, k, t)
    decreases k, t
  {
    match t
    case Str => assert CallArgs(defs, rank, k, name, t)[0].InMemory?;
    case List(_) => assert CallArgs(defs, rank, k, name, t)[0].InMemory?;
    case Borrow(h) => PointerTestIsExact(defs, rank, k, name, h);
    case Own(h) => PointerTestIsExact(defs, rank, k, name, h);
    case Named(n) =>
      if n in defs {
        if defs[n].Alias? { PointerTestIsExact(defs, rank, rank[n], name, defs[n].t); }
        if defs[n].Record? { assert CallArgs(defs, rank, k, name, t)[0].InMemory?; }
      }
    case _ =>
  }

  /** Some parameter passes the test: the base is declared, once for the function. */
  predicate DeclaresMemory(defs: TypeDefs, ghost rank: map<string, nat>, ghost k: nat, ds: seq<Decl>)
    requires Acyclic(defs, rank) && DeclsRanked(defs, rank, k, ds)
  {
    exists i :: 0 <= i < |ds| && IsPointer(defs, rank, k, ds[i].t)
  }

  /** A parameter that is an option, a tuple or a result and uses the memory. */
  predicate HidesMemory(defs: TypeDefs, ghost rank: map<string, nat>, ghost k: nat, d: Decl)
    requires Acyclic(defs, rank) && Ranked(defs, rank, k, d.t)
  {
    IsContainer(defs, rank, k, d.t) && UsesMemory(CallArgs(defs, rank, k, d.name, d.t))
  }

  lemma {:induction false} SomeUsesMemory(defs: TypeDefs, rank: map<string, nat>, k: nat, ds: seq<Decl>)
    requires Acyclic(defs, rank) && DeclsRanked(defs, rank, k, ds)
    ensures UsesMemory(AllArgs(defs, rank, k, ds)) <==> exists i :: 0 <= i < |ds| && UsesMemory(CallArgs(defs, rank, k, ds[i].name, ds[i].t))
    decreases |ds|
  {
    hide CallArgs;
    if ds != [] {
      var front, d := ds[..|ds| - 1], ds[|ds| - 1];
      SomeUsesMemory(defs, rank, k, front);
      UsesEither(AllArgs(defs, rank, k, front), CallArgs(defs, rank, k, d.name, d.t));
      assert forall i :: 0 <= i < |front| ==> front[i] == ds[i];
    }
  }

  lemma UsesEither(a: seq<Arg>, b: seq<Arg>)
    ensures UsesMemory(a + b) <==> UsesMemory(a) || UsesMemory(b)
  {
    if UsesMemory(a) {
      var i :| 0 <= i < |a| && a[i].InMemory?;
      assert (a + b)[i].InMemory?;
    }
    if UsesMemory(b) {
      var i :| 0 <= i < |b| && b[i].InMemory?;
      assert (a + b)[|a| + i].InMemory?;
    }
  }

  /** A generated function uses the memory base without declaring it if and only if some option, tuple or result among its
      parameters uses it and no parameter passes the test. */
  lemma UndeclaredMemory(defs: TypeDefs, rank: map<string, nat>, k: nat, ds: seq<Decl>)
    requires Acyclic(defs, rank) && DeclsRanked(defs, rank, k, ds)
    ensures UsesMemory(AllArgs(defs, rank, k, ds)) && !DeclaresMemory(defs, rank, k, ds) <==>
            (exists i :: 0 <= i < |ds| && HidesMemory(defs, rank, k, ds[i])) && !DeclaresMemory(defs, rank, k, ds)
  {
    hide CallArgs, AllArgs, UsesMemory, IsPointer, IsContainer;
    SomeUsesMemory(defs, rank, k, ds);
    forall i | 0 <= i < |ds|
      ensures IsPointer(defs, rank, k, ds[i].t) <==> UsesMemory(CallArgs(defs, rank, k, ds[i].name, ds[i].t)) && !IsContainer(defs, rank, k, ds[i].t)
    {
      PointerTestIsExact(defs, rank, k, ds[i].name, ds[i].t);
    }
    if !DeclaresMemory(defs, rank, k, ds) {
      forall i | 0 <= i < |ds| && UsesMemory(CallArgs(defs, rank, k, ds[i].name, ds[i].t)) ensures HidesMemory(defs, rank, k, ds[i]) {
        assert !IsPointer(defs, rank, k, ds[i].t);
      }
    }
  }

  /** An option of a string uses the memory base although the test says it is not needed. */
  lemma OptionStringUsesUndeclaredMemory(name: string)
    ensures Acyclic(map[], map[]) && Ranked(map[], map[], 0, Opt(Str))
    ensures !IsPointer(map[], map[], 0, Opt(Str)) && UsesMemory(CallArgs(map[], map[], 0, name, Opt(Str)))
  {
    var inner := CallArgs(map[], map[], 0, name + "_val", Str);
    assert CallArgs(map[], map[], 0, name, Opt(Str)) == [Value(VarOf(name + "_has_value"))] + inner;
    assert CallArgs(map[], map[], 0, name, Opt(Str))[1].InMemory?;
  }
}
