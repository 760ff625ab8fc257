// The parser's code: a cursor over the tokens and one method for every production. Parsing terminates on every token
// stream: each loop and each recursion consumes a token.
module WitReader {
  import opened Wit
  import opened Sequences
  import opened WitGrammar

  function Concat(front: seq<WitType>, ps: Types): Types
  {
    if front == [] then ps else More(front[0], Concat(front[1..], ps))
  }

  lemma {:induction false} ConcatSnoc(front: seq<WitType>, t: WitType, ps: Types)
    ensures Concat(front + [t], ps) == Concat(front, More(t, ps))
    decreases |front|
  {
    if front == [] {
      assert [] + [t] == [t] && [t][1..] == [];
    } else {
      assert (front + [t])[1..] == front[1..] + [t];
      ConcatSnoc(front[1..], t, ps);
    }
  }

  function Attach(front: seq<WitType>, p: Parsed<Types>): Parsed<Types>
  {
    if p.Ok? then Ok(Concat(front, p.v), p.rest) else SyntaxError
  }

  /** The parts after `front` has been read and `r` is what follows. */
  function PartsAfter(front: seq<WitType>, r: seq<Token>): Parsed<Types>
    requires Stream(r)
  {
    if r[0] != Punct(',') then Ok(Concat(front, NoTypes), r)
    else if WitGrammar.Next(r)[0] == Punct('>') then Ok(Concat(front, NoTypes), WitGrammar.Next(r))
    else Attach(front, ParseParts(WitGrammar.Next(r)))
  }

  function PartsAfterType(front: seq<WitType>, p: Parsed<WitType>): Parsed<Types>
  {
    if p.Ok? && Stream(p.rest) then PartsAfter(front + [p.v], p.rest) else SyntaxError
  }

  class Reader {
    const tokens: seq<Token>
    var pos: nat

    predicate Valid()
      reads this
    {
      Stream(tokens) && pos < |tokens|
    }

    function Rest(): (r: seq<Token>)
      reads this
      requires Valid()
      ensures Stream(r) && |r| == |tokens| - pos
    {
      tokens[pos..]
    }

    constructor (tokens: seq<Token>)
      requires Stream(tokens)
      ensures Valid() && Rest() == tokens
    {
      this.tokens, pos := tokens, 0;
    }

    /** Reads one token; the end is never passed. */
    method Next() returns (tok: Token)
      requires Valid()
      modifies this
      ensures Valid() && tok == old(Rest())[0] && Rest() == WitGrammar.Next(old(Rest()))
    {
      tok := tokens[pos];
      if pos < |tokens| - 1 { pos := pos + 1; }
    }

    method ExpectPunct(c: char) returns (ok: bool)
      requires Valid()
      modifies this
      ensures Valid() && pos >= old(pos) && (ok <==> old(Rest())[0] == Punct(c)) && Rest() == WitGrammar.Next(old(Rest()))
    {
      var tok := Next();
      ok := tok == Punct(c);
    }

    method SkipIf(t: Token) returns (skipped: bool)
      requires Valid()
      modifies this
      ensures Valid() && pos >= old(pos) && (skipped <==> old(Rest())[0] == t)
      ensures Rest() == if skipped then WitGrammar.Next(old(Rest())) else old(Rest())
    {
      skipped := tokens[pos] == t;
      if skipped { var tok := Next(); }
    }

    /** The specification's outcome, and the cursor where it leaves it. */
    ghost predicate Did<T>(p: Parsed<T>, ok: bool, v: T)
      reads this
    {
      Valid() && (ok <==> p.Ok?) && (ok ==> v == p.v && Rest() == p.rest)
    }

    method ParseTypeRef() returns (ok: bool, t: WitType)
      requires Valid()
      modifies this
      ensures Did(ParseType(old(Rest())), ok, t) && pos >= old(pos)
      decreases |tokens| - pos, 1
    {
      hide Stream, Underscored, IsPrimitive;
      ok, t := true, Primitive("u32");
      var tok := Next();
      if !tok.Ident? { return; }
      var name := tok.s;
      if IsPrimitive(name) {
        t := Primitive(name);
      } else if name == "string" {
        t := Str;
      } else if name == "bool" {
        t := Bool;
      } else if name == "char" {
        t := Char;
      } else if name in {"list", "option", "borrow", "own"} {
        ok := ExpectPunct('<');
        if !ok { return; }
        ok, t := ParseTypeRef();
        if !ok { return; }
        ok := ExpectPunct('>');
        t := if name == "list" then List(t) else if name == "option" then Opt(t) else if name == "borrow" then Borrow(t) else Own(t);
      } else if name == "result" {
        var bracket := SkipIf(Punct('<'));
        if !bracket { return true, ResultOf(None, Err(None)); }
        ok, t := ResultParts();
      } else if name == "tuple" {
        ok := ExpectPunct('<');
        if !ok { return; }
        var parts;
        ok, parts := TupleParts();
        if !ok { return; }
        ok := ExpectPunct('>');
        t := Tuple(Concat(parts, NoTypes));
      } else {
        t := Named(Underscored(name));
      }
    }

    method MaybeType(first: bool) returns (ok: bool, m: MaybeType)
      requires Valid()
      modifies this
      ensures Did(ParseMaybe(old(Rest()), first), ok, m) && pos >= old(pos)
      decreases |tokens| - pos, 2
    {
      ok, m := true, None;
      var tok := tokens[pos];
      if tok == Ident("_") {
        tok := Next();
      } else if tok != Punct('>') && !(first && tok == Punct(',')) {
        var t;
        ok, t := ParseTypeRef();
        m := Some(t);
      }
    }

    method ResultParts() returns (ok: bool, t: WitType)
      requires Valid()
      modifies this
      ensures Did(ParseResultParts(old(Rest())), ok, t) && pos >= old(pos)
      decreases |tokens| - pos, 3
    {
      hide ParseMaybe, Stream, Peek;
      t := Bool;
      var o;
      ok, o := MaybeType(true);
      if !ok { return; }
      var err := NoErr;
      var comma := SkipIf(Punct(','));
      if comma {
        var e;
        ok, e := MaybeType(false);
        if !ok { return; }
        err := Err(e);
      }
      ok := ExpectPunct('>');
      t := ResultOf(o, err);
    }

    method TupleParts() returns (ok: bool, parts: seq<WitType>)
      requires Valid()
      modifies this
      ensures Did(ParseParts(old(Rest())), ok, Concat(parts, NoTypes)) && pos >= old(pos)
      decreases |tokens| - pos, 2
    {
      hide ParseType;
      ghost var goal := ParseParts(Rest());
      NextPart([], Rest());
      parts := [];
      var t;
      ok, t := ParseTypeRef();
      if !ok { return; }
      parts := [] + [t];
      while tokens[pos] == Punct(',')
        invariant Valid() && pos >= old(pos) && goal == PartsAfter(parts, Rest())
        decreases |tokens| - pos
      {
        var comma := Next();
        if tokens[pos] == Punct('>') { return; }
        NextPart(parts, Rest());
        ok, t := ParseTypeRef();
        if !ok { return; }
        parts := parts + [t];
      }
    }

    // ----- parameter and result lists -----

    method FieldList() returns (ok: bool, fields: seq<Field>)
      requires Valid()
      modifies this
      ensures Did(ParseFields(old(Rest())), ok, fields) && pos >= old(pos)
    {
      hide ParseType, Underscored, ParseFields, SkipComma;
      fields, ok := [], true;
      ghost var goal := ParseFields(Rest());
      NoFront(goal);
      while tokens[pos] != Punct(')') && tokens[pos] != Eof
        invariant Valid() && ok && pos >= old(pos) && goal == AttachFields(fields, ParseFields(Rest()))
        decreases |tokens| - pos
      {
        FieldsStep(Rest());
        var name := "";
        if tokens[pos].Ident? && pos + 1 < |tokens| && tokens[pos + 1] == Punct(':') {
          var word := Next();
          name := Underscored(word.s);
          var colon := ExpectPunct(':');
        }
        var t;
        ok, t := ParseTypeRef();
        if !ok { return; }
        CommaSkipped(Rest());
        var comma := SkipIf(Punct(','));
        AttachOne(fields, Field(name, t), ParseFields(Rest()));
        fields := fields + [Field(name, t)];
      }
      FieldsDone(fields, Rest());
    }

    method ParamList() returns (ok: bool, fields: seq<Field>)
      requires Valid()
      modifies this
      ensures Did(ParseParams(old(Rest())), ok, fields) && pos >= old(pos)
    {
      hide ParseFields;
      fields := [];
      ok := ExpectPunct('(');
      if !ok { return; }
      ok, fields := FieldList();
      if !ok { return; }
      ok := ExpectPunct(')');
    }

    /** `()`, a parenthesized list of possibly named results, or one type. */
    method ResultList() returns (ok: bool, results: seq<Field>)
      requires Valid()
      modifies this
      ensures Valid() && pos >= old(pos)
    {
      hide ParseFields, ParseType;
      var open := SkipIf(Punct('('));
      if !open {
        var t;
        ok, t := ParseTypeRef();
        return ok, [Field("", t)];
      }
      ok, results := FieldList();
      if ok { ok := ExpectPunct(')'); }
    }

    method FuncType(name: string, isStatic: bool) returns (ok: bool, f: Func)
      requires Valid()
      modifies this
      ensures Valid() && pos >= old(pos)
    {
      f := Func(name, [], [], isStatic, false);
      var params, results := [], [];
      ok, params := ParamList();
      if !ok { return; }
      var arrow := SkipIf(Arrow);
      if arrow {
        ok, results := ResultList();
        if !ok { return; }
      }
      var semi := SkipIf(Punct(';'));
      f := Func(name, params, results, isStatic, false);
    }

    /** Skips to the end of the statement, over nested braces; a closing brace of the enclosing block is left alone. */
    method SkipToSemi()
      requires Valid()
      modifies this
      ensures Valid() && pos >= old(pos) && (old(tokens[pos]).Ident? ==> pos > old(pos))
    {
      var depth := 0;
      while tokens[pos] != Eof
        invariant Valid() && pos >= old(pos) && depth >= 0 && (pos == old(pos) ==> depth == 0)
        decreases |tokens| - pos
      {
        var tok := tokens[pos];
        if tok == Punct('{') {
          depth := depth + 1;
        } else if tok == Punct('}') {
          if depth == 0 { return; }
          depth := depth - 1;
        } else if tok == Punct(';') && depth == 0 {
          tok := Next();
          return;
        }
        tok := Next();
      }
    }

    // ----- type definitions -----

    method RecordBody() returns (ok: bool, fields: seq<Field>)
      requires Valid()
      modifies this
      ensures Valid() && pos >= old(pos)
    {
      hide ParseType, Underscored;
      fields := [];
      ok := ExpectPunct('{');
      if !ok { return; }
      while tokens[pos] != Punct('}') && tokens[pos] != Eof
        invariant Valid() && pos >= old(pos)
        decreases |tokens| - pos
      {
        var tok := Next();
        if tok.Ident? {
          ok := ExpectPunct(':');
          if !ok { return; }
          var t;
          ok, t := ParseTypeRef();
          if !ok { return; }
          fields := fields + [Field(Underscored(tok.s), t)];
          var comma := SkipIf(Punct(','));
        }
      }
      ok := ExpectPunct('}');
    }

    /** enum and flags */
    method NameList() returns (ok: bool, names: seq<string>)
      requires Valid()
      modifies this
      ensures Valid() && pos >= old(pos)
    {
      hide Underscored;
      names := [];
      ok := ExpectPunct('{');
      if !ok { return; }
      while tokens[pos] != Punct('}') && tokens[pos] != Eof
        invariant Valid() && pos >= old(pos)
        decreases |tokens| - pos
      {
        var tok := Next();
        if tok.Ident? {
          names := names + [Underscored(tok.s)];
          var comma := SkipIf(Punct(','));
        }
      }
      ok := ExpectPunct('}');
    }

    method VariantBody() returns (ok: bool, cases: seq<Case>)
      requires Valid()
      modifies this
      ensures Valid() && pos >= old(pos)
    {
      hide ParseType, Underscored;
      cases := [];
      ok := ExpectPunct('{');
      if !ok { return; }
      while tokens[pos] != Punct('}') && tokens[pos] != Eof
        invariant Valid() && pos >= old(pos)
        decreases |tokens| - pos
      {
        var tok := Next();
        if tok.Ident? {
          var payload := None;
          var open := SkipIf(Punct('('));
          if open {
            var t;
            ok, t := ParseTypeRef();
            if !ok { return; }
            ok := ExpectPunct(')');
            if !ok { return; }
            payload := Some(t);
          }
          cases := cases + [Case(Underscored(tok.s), payload)];
          var comma := SkipIf(Punct(','));
        }
      }
      ok := ExpectPunct('}');
    }

    method ResourceBody() returns (ok: bool, methods: seq<Func>)
      requires Valid()
      modifies this
      ensures Valid() && pos >= old(pos)
    {
      hide Underscored;
      methods := [];
      ok := true;
      if tokens[pos] != Punct('{') {
        var semi := SkipIf(Punct(';'));
        return;
      }
      ok := ExpectPunct('{');
      while tokens[pos] != Punct('}') && tokens[pos] != Eof
        invariant Valid() && pos >= old(pos)
        decreases |tokens| - pos
      {
        var tok := Next();
        if tok == Ident("constructor") {
          var params;
          ok, params := ParamList();
          if !ok { return; }
          var semi := SkipIf(Punct(';'));
          methods := methods + [Func("constructor", params, [], true, true)];
        } else if tok.Ident? {
          var f;
          ok, f := FunctionItem(Underscored(tok.s), true);
          if !ok { return; }
          methods := methods + f;
        }
      }
      ok := ExpectPunct('}');
    }

    /** What follows the name of a function item: `: func …`, in a resource also `: static func …`; else it is skipped. */
    method FunctionItem(name: string, inResource: bool) returns (ok: bool, f: seq<Func>)
      requires Valid()
      modifies this
      ensures Valid() && pos >= old(pos)
    {
      ok, f := true, [];
      var colon := SkipIf(Punct(':'));
      if !colon {
        SkipToSemi();
        return;
      }
      var isStatic := false;
      if inResource { isStatic := SkipIf(Ident("static")); }
      var isFunc := SkipIf(Ident("func"));
      if isFunc {
        var g;
        ok, g := FuncType(name, isStatic);
        f := [g];
      } else {
        SkipToSemi();
      }
    }

    // ----- interfaces, worlds, documents -----

    method ExpectIdent() returns (ok: bool, name: string)
      requires Valid()
      modifies this
      ensures Valid() && pos >= old(pos)
    {
      var tok := Next();
      ok, name := tok.Ident?, if tok.Ident? then tok.s else "";
    }

    /** A type definition behind its keyword. */
    method Definition(keyword: string) returns (ok: bool, name: string, def: Decl)
      requires Valid()
      modifies this
      ensures Valid() && pos >= old(pos)
    {
      hide ParseType, Underscored;
      def := DNames([]);
      ok, name := ExpectIdent();
      if !ok { return; }
      name := Underscored(name);
      if keyword == "type" {
        ok := ExpectPunct('=');
        if !ok { return; }
        var t;
        ok, t := ParseTypeRef();
        var semi := SkipIf(Punct(';'));
        def := DAlias(t);
      } else if keyword == "record" {
        var fields;
        ok, fields := RecordBody();
        def := DRecord(fields);
      } else if keyword == "resource" {
        var methods;
        ok, methods := ResourceBody();
        def := DResource(methods);
      } else if keyword == "variant" {
        var cases;
        ok, cases := VariantBody();
        def := DVariant(cases);
      } else {
        var names;
        ok, names := NameList();
        def := DNames(names);
      }
    }

    method ParseInterface() returns (ok: bool, iface: Interface)
      requires Valid()
      modifies this
      ensures Valid() && pos >= old(pos)
    {
      hide Underscored;
      var name;
      iface := Interface("", map[], map[]);
      ok, name := ExpectIdent();
      if !ok { return; }
      iface := Interface(Underscored(name), map[], map[]);
      ok := ExpectPunct('{');
      if !ok { return; }
      while tokens[pos] != Punct('}') && tokens[pos] != Eof
        invariant Valid() && pos >= old(pos)
        decreases |tokens| - pos
      {
        if tokens[pos] == Ident("use") {
          SkipToSemi();
        } else {
          var tok := Next();
          if tok.Ident? {
            if tok.s in {"type", "record", "resource", "enum", "flags", "variant"} {
              var n, def;
              ok, n, def := Definition(tok.s);
              if !ok { return; }
              iface := iface.(defs := iface.defs[n := def]);
            } else {
              var f;
              ok, f := FunctionItem(Underscored(tok.s), false);
              if !ok { return; }
              if f != [] { iface := iface.(funcs := iface.funcs[f[0].name := f[0]]); }
            }
          }
        }
      }
      ok := ExpectPunct('}');
    }

    /** A world: its imported functions; everything else is skipped. */
    method ParseWorld() returns (ok: bool, world: Interface)
      requires Valid()
      modifies this
      ensures Valid() && pos >= old(pos)
    {
      hide Underscored;
      var name;
      world := Interface("", map[], map[]);
      ok, name := ExpectIdent();
      if !ok { return; }
      world := Interface(Underscored(name), map[], map[]);
      if tokens[pos] != Punct('{') {
        var semi := SkipIf(Punct(';'));
        return;
      }
      ok := ExpectPunct('{');
      while tokens[pos] != Punct('}') && tokens[pos] != Eof
        invariant Valid() && pos >= old(pos)
        decreases |tokens| - pos
      {
        var tok := Next();
        if tok == Ident("import") && tokens[pos].Ident? {
          tok := Next();
          var f;
          ok, f := FunctionItem(Underscored(tok.s), false);
          if !ok { return; }
          if f != [] { world := world.(funcs := world.funcs[f[0].name := f[0]]); }
        } else {
          SkipToSemi();
        }
      }
      ok := ExpectPunct('}');
    }

    /** `a:b/c`, with any number of parts. */
    method PackageName() returns (ok: bool, name: string)
      requires Valid()
      modifies this
      ensures Valid() && pos >= old(pos)
    {
      ok, name := ExpectIdent();
      if !ok { return; }
      while tokens[pos] == Punct(':')
        invariant Valid() && pos >= old(pos)
        decreases |tokens| - pos
      {
        name := PackagePart(name, ':');
      }
      while tokens[pos] == Punct('/')
        invariant Valid() && pos >= old(pos)
        decreases |tokens| - pos
      {
        name := PackagePart(name, '/');
      }
    }

    method PackagePart(front: string, separator: char) returns (name: string)
      requires Valid() && tokens[pos].Punct?
      modifies this
      ensures Valid() && pos > old(pos)
    {
      var tok := Next();
      name := front + [separator];
      if tokens[pos].Ident? {
        tok := Next();
        name := name + tok.s;
      }
    }

    /** The whole document. It terminates on every token stream, at an end token or with a syntax error. */
    method Parse() returns (ok: bool, package: string, interfaces: seq<Interface>, worlds: seq<Interface>)
      requires Valid()
      modifies this
      ensures Valid() && (ok ==> Rest()[0] == Eof)
    {
      ok, package, interfaces, worlds := true, "", [], [];
      while tokens[pos] != Eof
        invariant Valid() && ok
        decreases |tokens| - pos
      {
        var tok := Next();
        if tok == Ident("package") {
          ok, package := PackageName();
          if !ok { return; }
          var semi := SkipIf(Punct(';'));
        } else if tok == Ident("interface") {
          var iface;
          ok, iface := ParseInterface();
          if !ok { return; }
          interfaces := interfaces + [iface];
        } else if tok == Ident("world") {
          var world;
          ok, world := ParseWorld();
          if !ok { return; }
          worlds := worlds + [world];
        }
      }
    }
  }

  datatype Func = Func(name: string, params: seq<Field>, results: seq<Field>, isStatic: bool, isConstructor: bool)

  datatype Case = Case(name: string, payload: MaybeType)

  datatype Decl = DAlias(t: WitType) | DRecord(fields: seq<Field>) | DResource(methods: seq<Func>) | DVariant(cases: seq<Case>) | DNames(names: seq<string>)

  datatype Interface = Interface(name: string, defs: map<string, Decl>, funcs: map<string, Func>)

  function AttachFields(front: seq<Field>, p: Parsed<seq<Field>>): Parsed<seq<Field>>
  {
    if p.Ok? then Ok(front + p.v, p.rest) else SyntaxError
  }

  lemma CommaSkipped(r: seq<Token>)
    requires Stream(r)
    ensures SkipComma(r) == if r[0] == Punct(',') then WitGrammar.Next(r) else r
  {
  }

  lemma FieldsDone(front: seq<Field>, r: seq<Token>)
    requires Stream(r) && (r[0] == Punct(')') || r[0] == Eof)
    ensures AttachFields(front, ParseFields(r)) == Ok(front, r)
  {
    assert front + [] == front;
  }

  /** One parameter of a list that goes on. */
  lemma FieldsStep(r: seq<Token>)
    requires Stream(r) && r[0] != Punct(')') && r[0] != Eof
    ensures var named := r[0].Ident? && Peek(r, 1) == Punct(':');
            var name := if named then Underscored(r[0].s) else "";
            var r1 := if named then WitGrammar.Next(WitGrammar.Next(r)) else r;
            var p := ParseType(r1);
            ParseFields(r) == if p.Ok? then AttachFields([Field(name, p.v)], ParseFields(SkipComma(p.rest))) else SyntaxError
  {
    hide ParseType, Underscored, SkipComma;
  }

  lemma NoFront(p: Parsed<seq<Field>>)
    ensures AttachFields([], p) == p
  {
    if p.Ok? { assert [] + p.v == p.v; }
  }

  lemma AttachOne(front: seq<Field>, f: Field, p: Parsed<seq<Field>>)
    ensures AttachFields(front, AttachFields([f], p)) == AttachFields(front + [f], p)
  {
    if p.Ok? { assert front + ([f] + p.v) == front + [f] + p.v; }
  }

  /** One more part read. */
  lemma NextPart(parts: seq<WitType>, r: seq<Token>)
    requires Stream(r)
    ensures Attach(parts, ParseParts(r)) == PartsAfterType(parts, ParseType(r))
  {
    hide ParseType;
    var p := ParseType(r);
    if p.Ok? {
      ConcatSnoc(parts, p.v, NoTypes);
      if p.rest[0] == Punct(',') && WitGrammar.Next(p.rest)[0] != Punct('>') {
        var q := ParseParts(WitGrammar.Next(p.rest));
        if q.Ok? { ConcatSnoc(parts, p.v, q.v); }
      }
    }
  }
}
