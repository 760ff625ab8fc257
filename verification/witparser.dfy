// The WIT type grammar: recursive descent over tokens, a printer, and their round trip.
module WitGrammar {
  import opened Wit
  import opened Sequences

  datatype Token = Ident(s: string) | Punct(c: char) | Arrow | Int(s: string) | Eof

  /** Tokens still to be read; the last one is Eof and is never passed. */
  predicate Stream(r: seq<Token>) { r != [] && r[|r| - 1] == Eof }

  function Next(r: seq<Token>): (r': seq<Token>)
    requires r != []
    ensures Stream(r) ==> Stream(r') && |r'| <= |r| && (r[0] != Eof ==> |r'| < |r|)
  {
    if |r| > 1 then r[1..] else r
  }

  datatype Parsed<T> = Ok(v: T, rest: seq<Token>) | SyntaxError

  predicate IsPrimitive(n: string)
  {
    n in {"s8", "u8", "s16", "u16", "s32", "u32", "s64", "u64", "f32", "f64"}
  }

  /** A successful parse leaves a stream that is not longer than `bound`. */
  predicate Leaves<T>(p: Parsed<T>, bound: int) { p.Ok? ==> Stream(p.rest) && |p.rest| <= bound }

  function Expect<T>(p: Parsed<T>, c: char): (q: Parsed<T>)
    requires p.Ok? ==> Stream(p.rest)
    ensures q.Ok? ==> p.Ok? && q.v == p.v && Stream(q.rest) && |q.rest| < |p.rest| && p.rest[0] == Punct(c)
  {
    if p.Ok? && p.rest[0] == Punct(c) then Ok(p.v, Next(p.rest)) else SyntaxError
  }

  function Map1(p: Parsed<WitType>, name: string): Parsed<WitType>
    requires name in {"list", "option", "borrow", "own"}
  {
    if p.SyntaxError? then SyntaxError
    else
      var t := if name == "list" then List(p.v) else if name == "option" then Opt(p.v) else if name == "borrow" then Borrow(p.v) else Own(p.v);
      Ok(t, p.rest)
  }

  function ParseType(r: seq<Token>): (p: Parsed<WitType>)
    requires Stream(r)
    ensures Leaves(p, |r|) && (r[0] != Eof ==> Leaves(p, |r| - 1))
    decreases |r|, 1
  {
    if !r[0].Ident? then Ok(Primitive("u32"), Next(r))
    else
      var name, r1 := r[0].s, Next(r);
      if IsPrimitive(name) then Ok(Primitive(name), r1)
      else if name == "string" then Ok(Str, r1)
      else if name == "bool" then Ok(Bool, r1)
      else if name == "char" then Ok(Char, r1)
      else if name in {"list", "option", "borrow", "own"} then
        if r1[0] != Punct('<') then SyntaxError else Map1(Expect(ParseType(Next(r1)), '>'), name)
      else if name == "result" then
        if r1[0] != Punct('<') then Ok(ResultOf(None, Err(None)), r1) else ParseResultParts(Next(r1))
      else if name == "tuple" then
        if r1[0] != Punct('<') then SyntaxError
        else
          match ParseParts(Next(r1))
          case Ok(ps, r2) => Expect(Ok(Tuple(ps), r2), '>')
          case SyntaxError => SyntaxError
      else Ok(Named(Underscored(name)), r1)
  }

  /** `_`, nothing before a closing token, or a type. `stop` also ends the first parameter at a comma. */
  function ParseMaybe(r: seq<Token>, first: bool): (p: Parsed<MaybeType>)
    requires Stream(r)
    ensures Leaves(p, |r|)
    decreases |r|, 2
  {
    if r[0] == Ident("_") then Ok(None, Next(r))
    else if r[0] == Punct('>') || (first && r[0] == Punct(',')) then Ok(None, r)
    else
      match ParseType(r)
      case Ok(t, rest) => Ok(Some(t), rest)
      case SyntaxError => SyntaxError
  }

  function ParseResultParts(r: seq<Token>): (p: Parsed<WitType>)
    requires Stream(r)
    ensures Leaves(p, |r|)
    decreases |r|, 3
  {
    match ParseMaybe(r, true)
    case SyntaxError => SyntaxError
    case Ok(ok, r1) =>
      if r1[0] != Punct(',') then Expect(Ok(ResultOf(ok, NoErr), r1), '>')
      else
        match ParseMaybe(Next(r1), false)
        case SyntaxError => SyntaxError
        case Ok(e, r2) => Expect(Ok(ResultOf(ok, Err(e)), r2), '>')
  }

  /** One or more types between commas; a trailing comma is accepted. */
  function ParseParts(r: seq<Token>): (p: Parsed<Types>)
    requires Stream(r)
    ensures Leaves(p, |r|)
    decreases |r|, 2
  {
    match ParseType(r)
    case SyntaxError => SyntaxError
    case Ok(t, r1) =>
      if r1[0] != Punct(',') then Ok(More(t, NoTypes), r1)
      else if Next(r1)[0] == Punct('>') then Ok(More(t, NoTypes), Next(r1))
      else
        match ParseParts(Next(r1))
        case SyntaxError => SyntaxError
        case Ok(ps, r2) => Ok(More(t, ps), r2)
  }

  // ----- printing -----

  function PrintMaybe(m: MaybeType): seq<Token> { if m.None? then [Ident("_")] else Print(m.t) }

  function Print(t: WitType): seq<Token>
  {
    match t
    case Primitive(n) => [Ident(n)]
    case Bool => [Ident("bool")]
    case Char => [Ident("char")]
    case Str => [Ident("string")]
    case List(e) => Bracketed("list", Print(e))
    case Opt(i) => Bracketed("option", Print(i))
    case Borrow(h) => Bracketed("borrow", Print(h))
    case Own(h) => Bracketed("own", Print(h))
    case ResultOf(ok, err) => Bracketed("result", PrintMaybe(ok) + (if err.NoErr? then [] else [Punct(',')] + PrintMaybe(err.e)))
    case Tuple(ps) => Bracketed("tuple", PrintParts(ps))
    case Named(n) => [Ident(n)]
  }

  function PrintParts(ps: Types): seq<Token>
  {
    if ps.NoTypes? then []
    else if ps.tail.NoTypes? then Print(ps.head)
    else Print(ps.head) + ([Punct(',')] + PrintParts(ps.tail))
  }

  function Bracketed(name: string, inner: seq<Token>): seq<Token>
  {
    [Ident(name), Punct('<')] + (inner + [Punct('>')])
  }

  predicate IsKeyword(n: string)
  {
    IsPrimitive(n) || n in {"string", "bool", "char", "list", "option", "borrow", "own", "result", "tuple", "_"}
  }

  /** Types that can be written: primitives by their names, other names that are no keywords, tuples with a part. */
  predicate Writable(t: WitType)
  {
    match t
    case Primitive(n) => IsPrimitive(n)
    case List(e) => Writable(e)
    case Opt(i) => Writable(i)
    case Borrow(h) => Writable(h)
    case Own(h) => Writable(h)
    case ResultOf(ok, err) => (ok.None? || Writable(ok.t)) && (err.NoErr? || err.e.None? || Writable(err.e.t))
    case Tuple(ps) => ps.More? && AllWritable(ps)
    case Named(n) => !IsKeyword(n)
    case _ => true
  }

  predicate AllWritable(ps: Types) { ps.NoTypes? || (Writable(ps.head) && AllWritable(ps.tail)) }

  /** The same type with '_' for '-' in names. */
  function Normal(t: WitType): WitType
  {
    match t
    case List(e) => List(Normal(e))
    case Opt(i) => Opt(Normal(i))
    case Borrow(h) => Borrow(Normal(h))
    case Own(h) => Own(Normal(h))
    case ResultOf(ok, err) => ResultOf(NormalMaybe(ok), if err.NoErr? then NoErr else Err(NormalMaybe(err.e)))
    case Tuple(ps) => Tuple(NormalParts(ps))
    case Named(n) => Named(Underscored(n))
    case _ => t
  }

  function NormalMaybe(m: MaybeType): MaybeType { if m.None? then None else Some(Normal(m.t)) }

  function NormalParts(ps: Types): Types { if ps.NoTypes? then NoTypes else More(Normal(ps.head), NormalParts(ps.tail)) }

  // ----- the round trip -----

  /** A printed type starts with a word that is not `_`. */
  lemma StartsWithWord(t: WitType)
    requires Writable(t)
    ensures Print(t) != [] && Print(t)[0].Ident? && Print(t)[0] != Ident("_")
  {
  }

  lemma NextOfCons(x: Token, r: seq<Token>)
    requires Stream(r)
    ensures Stream([x] + r) && Next([x] + r) == r
  {
    assert ([x] + r)[1..] == r;
  }

  /** Whatever follows, a printed type is parsed back, with its names normalised, and exactly its tokens are consumed. */
  lemma {:induction false} TypeRoundTrip(t: WitType, rest: seq<Token>)
    requires Writable(t) && Stream(rest)
    ensures Stream(Print(t) + rest) && ParseType(Print(t) + rest) == Ok(Normal(t), rest)
    decreases t, 1
  {
    hide ParseType, Next, IsPrimitive, IsKeyword;
    match t
    case List(e) => BracketedRoundTrip("list", e, rest);
    case Opt(i) => BracketedRoundTrip("option", i, rest);
    case Borrow(h) => BracketedRoundTrip("borrow", h, rest);
    case Own(h) => BracketedRoundTrip("own", h, rest);
    case ResultOf(ok, err) => ResultRoundTrip(t, rest);
    case Tuple(ps) => TupleRoundTrip(ps, rest);
    case Primitive(n) => PrimitiveRoundTrip(n, rest);
    case Named(n) => NameRoundTrip(n, rest);
    case _ => WordRoundTrip(t, rest);
  }

  lemma PrimitiveRoundTrip(n: string, rest: seq<Token>)
    requires IsPrimitive(n) && Stream(rest)
    ensures Stream([Ident(n)] + rest) && ParseType([Ident(n)] + rest) == Ok(Primitive(n), rest)
  {
    hide IsPrimitive;
    NextOfCons(Ident(n), rest);
  }

  lemma NameRoundTrip(n: string, rest: seq<Token>)
    requires !IsKeyword(n) && Stream(rest)
    ensures Stream([Ident(n)] + rest) && ParseType([Ident(n)] + rest) == Ok(Named(Underscored(n)), rest)
  {
    hide IsPrimitive, Underscored;
    NextOfCons(Ident(n), rest);
  }

  lemma WordRoundTrip(t: WitType, rest: seq<Token>)
    requires (t.Bool? || t.Char? || t.Str?) && Stream(rest)
    ensures Stream(Print(t) + rest) && ParseType(Print(t) + rest) == Ok(t, rest)
  {
    NextOfCons(Print(t)[0], rest);
  }

  /** What the parser does at a word followed by '<'. */
  lemma AtBracket(name: string, after: seq<Token>)
    requires Stream(after)
    ensures var r := [Ident(name)] + ([Punct('<')] + after);
            && Stream(r)
            && (name in {"list", "option", "borrow", "own"} ==> ParseType(r) == Map1(Expect(ParseType(after), '>'), name))
            && (name == "result" ==> ParseType(r) == ParseResultParts(after))
            && (name == "tuple" ==> ParseType(r) == match ParseParts(after)
                                                   case Ok(ps, r2) => Expect(Ok(Tuple(ps), r2), '>')
                                                   case SyntaxError => SyntaxError)
  {
    hide ParseResultParts, ParseParts, Map1, Expect;
    NextOfCons(Punct('<'), after);
    NextOfCons(Ident(name), [Punct('<')] + after);
    NotPrimitive();
  }

  lemma NotPrimitive()
    ensures forall n :: n in {"list", "option", "borrow", "own", "result", "tuple"} ==> !IsPrimitive(n)
  {
  }

  lemma Opened(name: string, inner: seq<Token>, rest: seq<Token>)
    requires Stream(rest)
    ensures Bracketed(name, inner) + rest == [Ident(name)] + ([Punct('<')] + (inner + ([Punct('>')] + rest)))
    ensures var after := inner + ([Punct('>')] + rest);
            Stream(after) && Stream(Bracketed(name, inner) + rest) && Next(Bracketed(name, inner) + rest) == [Punct('<')] + after
            && Next([Punct('<')] + after) == after
    ensures Next([Punct('>')] + rest) == rest && Stream([Punct('>')] + rest)
  {
    var after := inner + ([Punct('>')] + rest);
    NextOfCons(Punct('>'), rest);
    NextOfCons(Punct('<'), after);
    NextOfCons(Ident(name), [Punct('<')] + after);
    assert Bracketed(name, inner) + rest == [Ident(name)] + ([Punct('<')] + after);
  }

  lemma {:induction false} BracketedRoundTrip(name: string, inner: WitType, rest: seq<Token>)
    requires name in {"list", "option", "borrow", "own"} && Writable(inner) && Stream(rest)
    ensures Stream(Bracketed(name, Print(inner)) + rest)
    ensures ParseType(Bracketed(name, Print(inner)) + rest) == Map1(Ok(Normal(inner), rest), name)
    decreases inner, 2
  {
    hide Next, Print, Writable, Normal, ParseType;
    Opened(name, Print(inner), rest);
    AtBracket(name, Print(inner) + ([Punct('>')] + rest));
    TypeRoundTrip(inner, [Punct('>')] + rest);
  }

  lemma {:induction false} MaybeRoundTrip(m: MaybeType, first: bool, rest: seq<Token>)
    requires (m.None? || Writable(m.t)) && Stream(rest)
    ensures Stream(PrintMaybe(m) + rest) && ParseMaybe(PrintMaybe(m) + rest, first) == Ok(NormalMaybe(m), rest)
    decreases m, 2
  {
    hide Next;
    if m.None? {
      NextOfCons(Ident("_"), rest);
    } else {
      StartsWithWord(m.t);
      TypeRoundTrip(m.t, rest);
    }
  }

  lemma {:induction false} ResultRoundTrip(t: WitType, rest: seq<Token>)
    requires t.ResultOf? && Writable(t) && Stream(rest)
    ensures Stream(Print(t) + rest) && ParseType(Print(t) + rest) == Ok(Normal(t), rest)
    decreases t, 0
  {
    hide Next, ParseMaybe, PrintMaybe, ParseType;
    var close := [Punct('>')] + rest;
    var first := PrintMaybe(t.ok);
    if t.err.NoErr? {
      assert first + [] == first;
      Opened("result", first, rest);
      AtBracket("result", first + close);
      MaybeRoundTrip(t.ok, true, close);
    } else {
      var second := PrintMaybe(t.err.e);
      var inner := first + ([Punct(',')] + second);
      Opened("result", inner, rest);
      AtBracket("result", inner + close);
      MaybeRoundTrip(t.err.e, false, close);
      NextOfCons(Punct(','), second + close);
      MaybeRoundTrip(t.ok, true, [Punct(',')] + (second + close));
      assert inner + close == first + ([Punct(',')] + (second + close));
    }
  }

  lemma {:induction false} TupleRoundTrip(ps: Types, rest: seq<Token>)
    requires ps.More? && AllWritable(ps) && Stream(rest)
    ensures Stream(Print(Tuple(ps)) + rest) && ParseType(Print(Tuple(ps)) + rest) == Ok(Normal(Tuple(ps)), rest)
    decreases ps, 3
  {
    hide Next, ParseParts, PrintParts, AllWritable, ParseType;
    Opened("tuple", PrintParts(ps), rest);
    AtBracket("tuple", PrintParts(ps) + ([Punct('>')] + rest));
    PartsRoundTrip(ps, [Punct('>')] + rest);
  }

  lemma {:induction false} PartsRoundTrip(ps: Types, rest: seq<Token>)
    requires ps.More? && AllWritable(ps) && Stream(rest) && rest[0] == Punct('>')
    ensures Stream(PrintParts(ps) + rest) && ParseParts(PrintParts(ps) + rest) == Ok(NormalParts(ps), rest)
    decreases ps, 2
  {
    hide Next, ParseType, Print;
    if ps.tail.NoTypes? {
      TypeRoundTrip(ps.head, rest);
    } else {
      var tail := PrintParts(ps.tail) + rest;
      PartsRoundTrip(ps.tail, rest);
      PartsStart(ps.tail);
      NextOfCons(Punct(','), tail);
      TypeRoundTrip(ps.head, [Punct(',')] + tail);
      assert PrintParts(ps) + rest == Print(ps.head) + ([Punct(',')] + tail);
    }
  }

  lemma PartsStart(ps: Types)
    requires ps.More? && AllWritable(ps)
    ensures PrintParts(ps) != [] && PrintParts(ps)[0].Ident?
  {
    StartsWithWord(ps.head);
  }

  // ----- spellings the printer does not choose, and refusals -----

  /** `result` alone has neither part; inside the brackets a part may be left empty in place of `_`. */
  lemma OtherResults(ok: WitType, e: WitType, rest: seq<Token>)
    requires Writable(ok) && Writable(e) && Stream(rest)
    ensures rest[0] != Punct('<') ==> Stream([Ident("result")] + rest) && ParseType([Ident("result")] + rest) == Ok(ResultOf(None, Err(None)), rest)
    ensures var r := Bracketed("result", []) + rest; Stream(r) && ParseType(r) == Ok(ResultOf(None, NoErr), rest)
    ensures var r := Bracketed("result", [Punct(',')] + Print(e)) + rest; Stream(r) && ParseType(r) == Ok(ResultOf(None, Err(Some(Normal(e)))), rest)
    ensures var r := Bracketed("result", Print(ok) + [Punct(',')]) + rest; Stream(r) && ParseType(r) == Ok(ResultOf(Some(Normal(ok)), Err(None)), rest)
  {
    hide *;
    BareResult(rest);
    EmptyResult(rest);
    OnlyError(e, rest);
    OnlyOk(ok, rest);
  }

  lemma EmptyResult(rest: seq<Token>)
    requires Stream(rest)
    ensures var r := Bracketed("result", []) + rest; Stream(r) && ParseType(r) == Ok(ResultOf(None, NoErr), rest)
  {
    hide Next, ParseMaybe, ParseType;
    var close := [Punct('>')] + rest;
    Opened("result", [], rest);
    assert [] + close == close;
    AtBracket("result", close);
    EmptyPart(close);
  }

  lemma OnlyError(e: WitType, rest: seq<Token>)
    requires Writable(e) && Stream(rest)
    ensures var r := Bracketed("result", [Punct(',')] + Print(e)) + rest; Stream(r) && ParseType(r) == Ok(ResultOf(None, Err(Some(Normal(e)))), rest)
  {
    hide Next, Print, Writable, Normal, ParseMaybe, ParseType;
    var close := [Punct('>')] + rest;
    Opened("result", [Punct(',')] + Print(e), rest);
    assert [Punct(',')] + Print(e) + close == [Punct(',')] + (Print(e) + close);
    AtBracket("result", [Punct(',')] + (Print(e) + close));
    WrittenPart(e, false, close);
    NextOfCons(Punct(','), Print(e) + close);
    EmptyPart([Punct(',')] + (Print(e) + close));
  }

  lemma OnlyOk(ok: WitType, rest: seq<Token>)
    requires Writable(ok) && Stream(rest)
    ensures var r := Bracketed("result", Print(ok) + [Punct(',')]) + rest; Stream(r) && ParseType(r) == Ok(ResultOf(Some(Normal(ok)), Err(None)), rest)
  {
    hide Next, Print, Writable, Normal, ParseMaybe, ParseType;
    var close := [Punct('>')] + rest;
    Opened("result", Print(ok) + [Punct(',')], rest);
    assert Print(ok) + [Punct(',')] + close == Print(ok) + ([Punct(',')] + close);
    NextOfCons(Punct(','), close);
    EmptyPart(close);
    WrittenPart(ok, true, [Punct(',')] + close);
    AtBracket("result", Print(ok) + ([Punct(',')] + close));
  }

  lemma BareResult(rest: seq<Token>)
    requires Stream(rest)
    ensures rest[0] != Punct('<') ==> Stream([Ident("result")] + rest) && ParseType([Ident("result")] + rest) == Ok(ResultOf(None, Err(None)), rest)
  {
    NextOfCons(Ident("result"), rest);
  }

  lemma EmptyPart(r: seq<Token>)
    requires Stream(r)
    ensures r[0] == Punct('>') ==> ParseMaybe(r, false) == ParseMaybe(r, true) == Ok(None, r)
    ensures r[0] == Punct(',') ==> ParseMaybe(r, true) == Ok(None, r)
  {
  }

  lemma WrittenPart(t: WitType, first: bool, rest: seq<Token>)
    requires Writable(t) && Stream(rest)
    ensures Stream(Print(t) + rest) && ParseMaybe(Print(t) + rest, first) == Ok(Some(Normal(t)), rest)
  {
    MaybeRoundTrip(Some(t), first, rest);
  }

  /** A tuple may end in a comma. */
  lemma {:induction false} TrailingComma(ps: Types, rest: seq<Token>)
    requires ps.More? && AllWritable(ps) && Stream(rest)
    ensures var r := Bracketed("tuple", PrintParts(ps) + [Punct(',')]) + rest; Stream(r) && ParseType(r) == Ok(Tuple(NormalParts(ps)), rest)
  {
    hide Next, ParseParts, PrintParts, AllWritable, ParseType;
    var close := [Punct('>')] + rest;
    Opened("tuple", PrintParts(ps) + [Punct(',')], rest);
    assert PrintParts(ps) + [Punct(',')] + close == PrintParts(ps) + ([Punct(',')] + close);
    NextOfCons(Punct(','), close);
    PartsThenComma(ps, close);
    AtBracket("tuple", PrintParts(ps) + ([Punct(',')] + close));
  }

  lemma {:induction false} PartsThenComma(ps: Types, close: seq<Token>)
    requires ps.More? && AllWritable(ps) && Stream(close) && close[0] == Punct('>')
    ensures var r := PrintParts(ps) + ([Punct(',')] + close); Stream(r) && ParseParts(r) == Ok(NormalParts(ps), close)
    decreases ps
  {
    hide Next, ParseType, Print;
    NextOfCons(Punct(','), close);
    if ps.tail.NoTypes? {
      TypeRoundTrip(ps.head, [Punct(',')] + close);
    } else {
      var tail := PrintParts(ps.tail) + ([Punct(',')] + close);
      PartsThenComma(ps.tail, close);
      PartsStart(ps.tail);
      NextOfCons(Punct(','), tail);
      TypeRoundTrip(ps.head, [Punct(',')] + tail);
      assert PrintParts(ps) + ([Punct(',')] + close) == Print(ps.head) + ([Punct(',')] + tail);
    }
  }

  /** A token that is no word is passed over and read as u32; a constructor without its brackets is refused. */
  lemma ForeignToken(x: Token, rest: seq<Token>)
    requires Stream(rest)
    ensures !x.Ident? ==> Stream([x] + rest) && ParseType([x] + rest) == Ok(Primitive("u32"), rest)
    ensures x.Ident? && x.s in {"list", "option", "borrow", "own", "tuple"} && rest[0] != Punct('<') ==>
              Stream([x] + rest) && ParseType([x] + rest) == SyntaxError
  {
    NextOfCons(x, rest);
    NotPrimitive();
  }

  /** So is one whose brackets do not close behind its part. */
  lemma Unclosed(name: string, t: WitType, rest: seq<Token>)
    requires name in {"list", "option", "borrow", "own"} && Writable(t) && Stream(rest) && rest[0] != Punct('>')
    ensures var r := [Ident(name)] + ([Punct('<')] + (Print(t) + rest)); Stream(r) && ParseType(r) == SyntaxError
  {
    hide Print, Writable, Normal, ParseType;
    TypeRoundTrip(t, rest);
    AtBracket(name, Print(t) + rest);
  }

  // ----- parameter lists -----

  datatype Field = Field(name: string, t: WitType)

  function Peek(r: seq<Token>, k: nat): Token { if k < |r| then r[k] else Eof }

  function SkipComma(r: seq<Token>): (r': seq<Token>)
    requires Stream(r)
    ensures Stream(r') && |r'| <= |r|
  {
    if r[0] == Punct(',') then Next(r) else r
  }

  /** Parameters up to a closing parenthesis or the end; a missing name is empty. */
  function ParseFields(r: seq<Token>): (p: Parsed<seq<Field>>)
    requires Stream(r)
    ensures Leaves(p, |r|)
    decreases |r|
  {
    if r[0] == Punct(')') || r[0] == Eof then Ok([], r)
    else
      var named := r[0].Ident? && Peek(r, 1) == Punct(':');
      var name := if named then Underscored(r[0].s) else "";
      var r1 := if named then Next(Next(r)) else r;
      match ParseType(r1)
      case SyntaxError => SyntaxError
      case Ok(t, r2) =>
        match ParseFields(SkipComma(r2))
        case SyntaxError => SyntaxError
        case Ok(fs, r3) => Ok([Field(name, t)] + fs, r3)
  }

  function ParseParams(r: seq<Token>): (p: Parsed<seq<Field>>)
    requires Stream(r)
    ensures Leaves(p, |r| - 1)
  {
    if r[0] != Punct('(') then SyntaxError else Expect(ParseFields(Next(r)), ')')
  }

  function PrintFields(fs: seq<Field>): seq<Token>
  {
    if fs == [] then []
    else [Ident(fs[0].name), Punct(':')] + (Print(fs[0].t) + ((if |fs| > 1 then [Punct(',')] else []) + PrintFields(fs[1..])))
  }

  predicate FieldsWritable(fs: seq<Field>) { forall i :: 0 <= i < |fs| ==> Writable(fs[i].t) }

  function NormalFields(fs: seq<Field>): seq<Field>
  {
    if fs == [] then [] else [Field(Underscored(fs[0].name), Normal(fs[0].t))] + NormalFields(fs[1..])
  }

  lemma {:induction false} FieldsRoundTrip(fs: seq<Field>, rest: seq<Token>)
    requires FieldsWritable(fs) && Stream(rest) && rest[0] == Punct(')')
    ensures Stream(PrintFields(fs) + rest) && ParseFields(PrintFields(fs) + rest) == Ok(NormalFields(fs), rest)
    decreases |fs|
  {
    hide ParseType, Print, Normal, Underscored, Writable, ParseFields, Next, Peek, PrintFields;
    if fs == [] {
      NoFields(rest);
    } else {
      var tail := PrintFields(fs[1..]) + rest;
      FieldsRoundTrip(fs[1..], rest);
      Separated(fs, rest);
      var after := if |fs| > 1 then [Punct(',')] + tail else rest;
      if |fs| > 1 { NextOfCons(Punct(','), tail); } else { assert tail == rest; }
      TypeRoundTrip(fs[0].t, after);
      OneField(fs[0].name, fs[0].t, after);
    }
  }

  lemma NoFields(rest: seq<Token>)
    requires Stream(rest) && rest[0] == Punct(')')
    ensures PrintFields([]) + rest == rest && ParseFields(rest) == Ok([], rest)
  {
  }

  /** What the first field is followed by. */
  lemma Separated(fs: seq<Field>, rest: seq<Token>)
    requires fs != []
    ensures var after := if |fs| > 1 then [Punct(',')] + (PrintFields(fs[1..]) + rest) else rest;
            PrintFields(fs) + rest == [Ident(fs[0].name)] + ([Punct(':')] + (Print(fs[0].t) + after))
    ensures |fs| == 1 ==> fs[1..] == [] && PrintFields(fs[1..]) == []
  {
    hide Print;
    var comma: seq<Token> := if |fs| > 1 then [Punct(',')] else [];
    Regrouped(Ident(fs[0].name), Punct(':'), Print(fs[0].t), comma, PrintFields(fs[1..]), rest);
    if |fs| == 1 {
      assert fs[1..] == [];
      assert [] + ([] + rest) == rest;
    }
  }

  lemma Regrouped(x: Token, y: Token, p: seq<Token>, k: seq<Token>, z: seq<Token>, rest: seq<Token>)
    ensures [x, y] + (p + (k + z)) + rest == [x] + ([y] + (p + (k + (z + rest))))
  {
  }

  lemma OneField(name: string, t: WitType, after: seq<Token>)
    requires Stream(after) && Stream(Print(t) + after) && ParseType(Print(t) + after) == Ok(Normal(t), after)
    ensures var r := [Ident(name)] + ([Punct(':')] + (Print(t) + after));
            Stream(r) && ParseFields(r) ==
              match ParseFields(SkipComma(after))
              case SyntaxError => SyntaxError
              case Ok(fs, r3) => Ok([Field(Underscored(name), Normal(t))] + fs, r3)
  {
    hide ParseType, Print, Normal, Underscored, Next;
    FieldStarts(name, t, after);
    var r := [Ident(name)] + ([Punct(':')] + (Print(t) + after));
    assert r[0] == Ident(name) && r[1] == Punct(':');
  }

  lemma FieldStarts(name: string, t: WitType, after: seq<Token>)
    requires Stream(after) && Stream(Print(t) + after)
    ensures var r := [Ident(name)] + ([Punct(':')] + (Print(t) + after));
            Stream(r) && Next(Next(r)) == Print(t) + after
  {
    NextOfCons(Punct(':'), Print(t) + after);
    NextOfCons(Ident(name), [Punct(':')] + (Print(t) + after));
  }

  /** A printed parameter list is parsed back whatever follows. */
  lemma ParamsRoundTrip(fs: seq<Field>, rest: seq<Token>)
    requires FieldsWritable(fs) && Stream(rest)
    ensures var text := [Punct('(')] + (PrintFields(fs) + ([Punct(')')] + rest));
            Stream(text) && ParseParams(text) == Ok(NormalFields(fs), rest)
  {
    hide PrintFields, ParseFields, NormalFields, FieldsWritable;
    NextOfCons(Punct(')'), rest);
    FieldsRoundTrip(fs, [Punct(')')] + rest);
    NextOfCons(Punct('('), PrintFields(fs) + ([Punct(')')] + rest));
  }
}
