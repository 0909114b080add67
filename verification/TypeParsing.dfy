/**
  Reading a type from tokens. The parser keeps the text of what it read; the specification
  keeps the type.
 */
module TypeParsing {
  import opened Syntax
  import opened Parsing
  import opened ParsingComplete
  import T = Types
  import opened ExprParser

  type Ty = T.Ty

  function Unexpected<A>(ts: seq<Token>, pos: nat): Parsed<A> {
    Fail(pos, "unexpected token '" + Text(ts, pos) + "'")
  }

  // ----- the parser as a function -----

  function ParseType(ts: seq<Token>, pos: nat): (r: Parsed<Ty>)
    requires pos <= |ts|
    ensures r.Ok? ==> pos < r.next <= |ts|
    decreases |ts| - pos, 2
  {
    var text := Text(ts, pos);
    if text == "fn" then ParseFunctionType(ts, pos + 1)
    else if text == "&" || text == "ref" then ParseReference(ts, pos + 1, text == "ref")
    else if text == "[" then ParseBracketed(ts, pos + 1)
    else if text == "?" then
      match ParseType(ts, pos + 1)
      case Fail(at, m) => Fail(at, m)
      case Ok(inner, n) => Ok(T.Optional(inner), n)
    else if At(ts, pos).kind !in {Ident, Keyword} then Fail(pos, "expected type name, got '" + text + "'")
    else
      var path := PathFrom(ts, pos + 1, [text]);
      ParseArguments(ts, path.1, path.0)
  }

  function ParseFunctionType(ts: seq<Token>, pos: nat): (r: Parsed<Ty>)
    requires pos <= |ts|
    ensures r.Ok? ==> pos < r.next <= |ts|
    decreases |ts| - pos, 1
  {
    if Text(ts, pos) != "(" then Expected(ts, pos, "(")
    else
      match if Text(ts, pos + 1) == ")" then Ok([], pos + 1) else ParseTypes(ts, pos + 1)
      case Fail(at, m) => Fail(at, m)
      case Ok(params, n) =>
        if Text(ts, n) != ")" then Expected(ts, n, ")")
        else if Text(ts, n + 1) != ":" then Expected(ts, n + 1, ":")
        else
          match ParseType(ts, n + 2)
          case Fail(at, m) => Fail(at, m)
          case Ok(result, k) => Ok(T.Function(params, result), k)
  }

  function ParseReference(ts: seq<Token>, pos: nat, legacy: bool): (r: Parsed<Ty>)
    requires pos <= |ts|
    ensures r.Ok? ==> pos < r.next <= |ts|
    decreases |ts| - pos, 4
  {
    if Text(ts, pos) == "'" then
      if At(ts, pos + 1).kind != Ident then Unexpected(ts, pos + 1)
      else ParseReferent(ts, pos + 2, Text(ts, pos + 1), legacy)
    else ParseReferent(ts, pos, "", legacy)
  }

  function ParseReferent(ts: seq<Token>, pos: nat, lifetime: string, legacy: bool): (r: Parsed<Ty>)
    requires pos <= |ts|
    ensures r.Ok? ==> pos < r.next <= |ts|
    decreases |ts| - pos, 3
  {
    var isMut := Text(ts, pos) == "mut";
    match ParseType(ts, if isMut then pos + 1 else pos)
    case Fail(at, m) => Fail(at, m)
    case Ok(inner, n) => Ok(if legacy then T.Pointer(inner) else T.Reference(lifetime, isMut, inner), n)
  }

  function ParseBracketed(ts: seq<Token>, pos: nat): (r: Parsed<Ty>)
    requires pos <= |ts|
    ensures r.Ok? ==> pos < r.next <= |ts|
    decreases |ts| - pos, 3
  {
    match ParseType(ts, pos)
    case Fail(at, m) => Fail(at, m)
    case Ok(inner, n) =>
      if Text(ts, n) == "*" then
        if At(ts, n + 1).kind != Number then Unexpected(ts, n + 1)
        else if Text(ts, n + 2) != "]" then Expected(ts, n + 2, "]")
        else Ok(T.Sized(inner, At(ts, n + 1).value), n + 3)
      else if Text(ts, n) != "]" then Expected(ts, n, "]")
      else Ok(T.Slice(inner), n + 1)
  }

  /** The path that goes on here, and where it ends. */
  function PathFrom(ts: seq<Token>, pos: nat, path: seq<string>): (r: (seq<string>, nat))
    requires pos <= |ts|
    ensures pos <= r.1 <= |ts|
    decreases |ts| - pos
  {
    if Text(ts, pos) == "::" && At(ts, pos + 1).kind == Ident && pos + 1 < |ts|
    then PathFrom(ts, pos + 2, path + [Text(ts, pos + 1)])
    else (path, pos)
  }

  function ParseArguments(ts: seq<Token>, pos: nat, path: seq<string>): (r: Parsed<Ty>)
    requires pos <= |ts|
    ensures r.Ok? ==> pos <= r.next <= |ts|
    decreases |ts| - pos, 1
  {
    if Text(ts, pos) != ":" && Text(ts, pos) != "[" then Ok(T.Named(path), pos)
    else
      var p := if Text(ts, pos) == ":" then pos + 1 else pos;
      if Text(ts, p) != "[" then Expected(ts, p, "[")
      else
        match if Text(ts, p + 1) == "]" then Ok([], p + 1) else ParseTypes(ts, p + 1)
        case Fail(at, m) => Fail(at, m)
        case Ok(args, n) => if Text(ts, n) != "]" then Expected(ts, n, "]") else Ok(T.Generic(path, args), n + 1)
  }

  function ParseTypes(ts: seq<Token>, pos: nat): (r: Parsed<seq<Ty>>)
    requires pos <= |ts|
    ensures r.Ok? ==> pos < r.next <= |ts|
    decreases |ts| - pos, 3
  {
    match ParseType(ts, pos)
    case Fail(at, m) => Fail(at, m)
    case Ok(t, n) => TypesRest(ts, n, [t])
  }

  function TypesRest(ts: seq<Token>, pos: nat, done: seq<Ty>): (r: Parsed<seq<Ty>>)
    requires pos <= |ts|
    ensures r.Ok? ==> pos <= r.next <= |ts|
    decreases |ts| - pos, 0
  {
    if Text(ts, pos) != "," then Ok(done, pos)
    else
      match ParseType(ts, pos + 1)
      case Fail(at, m) => Fail(at, m)
      case Ok(t, n) => TypesRest(ts, n, done + [t])
  }

  // ----- what is read is well formed -----

  /** Name tokens are words, as the lexer makes them. */
  predicate NamesAreWords(ts: seq<Token>) {
    forall i :: 0 <= i < |ts| && ts[i].kind in {Ident, Keyword} ==> T.IsWord(ts[i].text)
  }

  lemma {:induction false} ParsedIsWellFormed(ts: seq<Token>, pos: nat)
    requires NamesAreWords(ts) && pos <= |ts| && ParseType(ts, pos).Ok?
    ensures T.WellFormed(ParseType(ts, pos).value)
    decreases |ts| - pos, 2
  {
    hide ParseFunctionType, ParseReference, ParseBracketed, ParseArguments, PathFrom, T.WellFormed;
    var text := Text(ts, pos);
    if text == "fn" {
      FunctionIsWellFormed(ts, pos + 1);
    } else if text == "&" || text == "ref" {
      ReferenceIsWellFormed(ts, pos + 1, text == "ref");
    } else if text == "[" {
      BracketedIsWellFormed(ts, pos + 1);
    } else if text == "?" {
      ParsedIsWellFormed(ts, pos + 1);
      assert T.WellFormed(T.Optional(ParseType(ts, pos + 1).value)) by { OneInside(ParseType(ts, pos + 1).value, 0); }
    } else {
      PathIsPath(ts, pos + 1, [text]);
      var path := PathFrom(ts, pos + 1, [text]);
      ArgumentsAreWellFormed(ts, path.1, path.0);
    }
  }

  lemma OneInside(t: Ty, count: int)
    requires T.WellFormed(t)
    ensures T.WellFormed(T.Optional(t)) && T.WellFormed(T.Slice(t)) && T.WellFormed(T.Sized(t, count)) && T.WellFormed(T.Pointer(t))
  {
  }

  lemma {:induction false} PathIsPath(ts: seq<Token>, pos: nat, path: seq<string>)
    requires NamesAreWords(ts) && pos <= |ts| && T.IsPath(path)
    ensures T.IsPath(PathFrom(ts, pos, path).0)
    decreases |ts| - pos
  {
    if Text(ts, pos) == "::" && At(ts, pos + 1).kind == Ident && pos + 1 < |ts| {
      PathIsPath(ts, pos + 2, path + [Text(ts, pos + 1)]);
    }
  }

  lemma {:induction false} FunctionIsWellFormed(ts: seq<Token>, pos: nat)
    requires NamesAreWords(ts) && pos <= |ts| && ParseFunctionType(ts, pos).Ok?
    ensures T.WellFormed(ParseFunctionType(ts, pos).value)
    decreases |ts| - pos, 1
  {
    hide ParseType, ParseTypes;
    if Text(ts, pos + 1) != ")" { TypesAreWellFormed(ts, pos + 1); }
    var n := if Text(ts, pos + 1) == ")" then pos + 1 else ParseTypes(ts, pos + 1).next;
    ParsedIsWellFormed(ts, n + 2);
  }

  lemma {:induction false} ReferenceIsWellFormed(ts: seq<Token>, pos: nat, legacy: bool)
    requires NamesAreWords(ts) && pos <= |ts| && ParseReference(ts, pos, legacy).Ok?
    ensures T.WellFormed(ParseReference(ts, pos, legacy).value)
    decreases |ts| - pos, 3
  {
    hide ParseType;
    var p := if Text(ts, pos) == "'" then pos + 2 else pos;
    ParsedIsWellFormed(ts, if Text(ts, p) == "mut" then p + 1 else p);
  }

  lemma {:induction false} BracketedIsWellFormed(ts: seq<Token>, pos: nat)
    requires NamesAreWords(ts) && pos <= |ts| && ParseBracketed(ts, pos).Ok?
    ensures T.WellFormed(ParseBracketed(ts, pos).value)
    decreases |ts| - pos, 3
  {
    hide ParseType;
    ParsedIsWellFormed(ts, pos);
  }

  lemma {:induction false} ArgumentsAreWellFormed(ts: seq<Token>, pos: nat, path: seq<string>)
    requires NamesAreWords(ts) && pos <= |ts| && T.IsPath(path) && ParseArguments(ts, pos, path).Ok?
    ensures T.WellFormed(ParseArguments(ts, pos, path).value)
    decreases |ts| - pos, 1
  {
    hide ParseTypes;
    if Text(ts, pos) == ":" || Text(ts, pos) == "[" {
      var p := if Text(ts, pos) == ":" then pos + 1 else pos;
      if Text(ts, p + 1) != "]" { TypesAreWellFormed(ts, p + 1); }
    }
  }

  lemma {:induction false} TypesAreWellFormed(ts: seq<Token>, pos: nat)
    requires NamesAreWords(ts) && pos <= |ts| && ParseTypes(ts, pos).Ok?
    ensures T.AllWellFormed(ParseTypes(ts, pos).value)
    decreases |ts| - pos, 3
  {
    hide ParseType, TypesRest, T.WellFormed;
    var first := ParseType(ts, pos);
    ParsedIsWellFormed(ts, pos);
    RestIsWellFormed(ts, first.next, [first.value]);
  }

  lemma {:induction false} RestIsWellFormed(ts: seq<Token>, pos: nat, done: seq<Ty>)
    requires NamesAreWords(ts) && pos <= |ts| && T.AllWellFormed(done) && TypesRest(ts, pos, done).Ok?
    ensures T.AllWellFormed(TypesRest(ts, pos, done).value)
    decreases |ts| - pos, 0
  {
    hide ParseType, T.WellFormed;
    if Text(ts, pos) == "," {
      var t := ParseType(ts, pos + 1);
      ParsedIsWellFormed(ts, pos + 1);
      RestIsWellFormed(ts, t.next, done + [t.value]);
    }
  }

  // ----- every well-formed type can be read -----

  function Sym(text: string): Token {
    Token(Symbol, text, 0)
  }

  function Name(text: string): Token {
    Token(Ident, text, 0)
  }

  function PathTail(path: seq<string>): seq<Token> {
    if path == [] then [] else [Sym("::")] + [Name(path[0])] + PathTail(path[1..])
  }

  function RefTokens(lifetime: string, isMut: bool): seq<Token> {
    (if lifetime == "" then [] else [Sym("'")] + [Name(lifetime)]) + if isMut then [Token(Keyword, "mut", 0)] else []
  }

  /** How a type is spelled. */
  function Spelled(t: Ty): seq<Token> {
    match t
    case Named(path) => if path == [] then [] else [Name(path[0])] + PathTail(path[1..])
    case Generic(path, args) =>
      (if path == [] then [] else [Name(path[0])] + PathTail(path[1..])) + ([Sym(":")] + [Sym("[")] + SpelledList(args) + [Sym("]")])
    case Optional(inner) => [Sym("?")] + Spelled(inner)
    case Slice(inner) => [Sym("[")] + (Spelled(inner) + [Sym("]")])
    case Sized(inner, count) => [Sym("[")] + (Spelled(inner) + [Sym("*")] + [Token(Number, "", count)] + [Sym("]")])
    case Pointer(inner) => [Token(Keyword, "ref", 0)] + Spelled(inner)
    case Reference(lifetime, isMut, inner) => [Sym("&")] + RefTokens(lifetime, isMut) + Spelled(inner)
    case Function(params, result) =>
      [Token(Keyword, "fn", 0)] + [Sym("(")] + SpelledList(params) + [Sym(")")] + [Sym(":")] + Spelled(result)
  }

  function SpelledList(ts: seq<Ty>): seq<Token> {
    if ts == [] then [] else Spelled(ts[0]) + SpelledTail(ts[1..])
  }

  function SpelledTail(ts: seq<Ty>): seq<Token> {
    if ts == [] then [] else [Sym(",")] + Spelled(ts[0]) + SpelledTail(ts[1..])
  }

  /** No path begins with a word that begins another form of type. */
  predicate Nameable(t: Ty) {
    match t
    case Named(path) => path != [] && path[0] !in {"fn", "ref", "mut"}
    case Generic(path, args) => path != [] && path[0] !in {"fn", "ref", "mut"} && forall i :: 0 <= i < |args| ==> Nameable(args[i])
    case Function(params, result) => (forall i :: 0 <= i < |params| ==> Nameable(params[i])) && Nameable(result)
    case Optional(inner) => Nameable(inner)
    case Slice(inner) => Nameable(inner)
    case Sized(inner, _) => Nameable(inner)
    case Pointer(inner) => Nameable(inner)
    case Reference(_, _, inner) => Nameable(inner)
  }

  predicate Speakable(t: Ty) {
    T.WellFormed(t) && Nameable(t)
  }

  predicate AllSpeakable(ts: seq<Ty>) {
    forall i :: 0 <= i < |ts| ==> Speakable(ts[i])
  }

  /** Tokens after which a type is complete. */
  predicate Ended(ts: seq<Token>, pos: nat) {
    Text(ts, pos) !in {":", "[", "::"}
  }

  ghost predicate Stands(ts: seq<Token>, pos: nat, t: Ty) {
    Speakable(t) && Occurs(ts, pos, Spelled(t)) && Ended(ts, pos + |Spelled(t)|)
  }

  lemma WordsAreNoSymbols(s: string)
    requires T.IsWord(s)
    ensures s !in {")", "]", "'", "", "&", "[", "?", ":", "::"}
  {
    assert T.IsWordChar(s[0]);
  }

  /** The token a type begins with. */
  lemma FirstToken(t: Ty)
    requires Speakable(t)
    ensures Spelled(t) != [] && Spelled(t)[0].text !in {")", "]", "'", "mut", ""}
  {
    match t
    case Named(path) => WordsAreNoSymbols(path[0]);
    case Generic(path, args) => WordsAreNoSymbols(path[0]);
    case _ =>
  }

  /** Where a part of the tokens stands. */
  lemma Part(ts: seq<Token>, pos: nat, a: seq<Token>, b: seq<Token>)
    requires Occurs(ts, pos, a + b)
    ensures Occurs(ts, pos, a) && Occurs(ts, pos + |a|, b)
    ensures a != [] ==> At(ts, pos) == a[0]
    ensures b != [] ==> At(ts, pos + |a|) == b[0]
  {
    Split(ts, pos, a, b);
    assert a != [] ==> ts[pos..pos + |a|][0] == ts[pos];
    assert b != [] ==> ts[pos + |a|..pos + |a| + |b|][0] == ts[pos + |a|];
  }

  lemma {:induction false} PathIsRead(ts: seq<Token>, pos: nat, done: seq<string>, tail: seq<string>)
    requires pos <= |ts| && Occurs(ts, pos, PathTail(tail)) && Text(ts, pos + |PathTail(tail)|) != "::"
    ensures PathFrom(ts, pos, done) == (done + tail, pos + |PathTail(tail)|)
    decreases tail
  {
    if tail == [] {
      assert done + tail == done;
    } else {
      Part(ts, pos, [Sym("::")] + [Name(tail[0])], PathTail(tail[1..]));
      Part(ts, pos, [Sym("::")], [Name(tail[0])]);
      PathIsRead(ts, pos + 2, done + [tail[0]], tail[1..]);
      assert done + [tail[0]] + tail[1..] == done + tail;
    }
  }

  lemma {:induction false} SpelledIsParsed(ts: seq<Token>, pos: nat, t: Ty)
    requires pos <= |ts| && Stands(ts, pos, t)
    ensures ParseType(ts, pos) == Ok(t, pos + |Spelled(t)|)
    decreases t, 1
  {
    match t
    case Named(path) => NamedIsParsed(ts, pos, path);
    case Generic(path, args) => GenericIsParsed(ts, pos, path, args);
    case Optional(inner) => OptionalIsParsed(ts, pos, inner);
    case Slice(inner) => SliceIsParsed(ts, pos, inner);
    case Sized(inner, count) => SizedIsParsed(ts, pos, inner, count);
    case Pointer(inner) => PointerIsParsed(ts, pos, inner);
    case Reference(lifetime, isMut, inner) => ReferenceIsParsed(ts, pos, lifetime, isMut, inner);
    case Function(params, result) => FunctionIsParsed(ts, pos, params, result);
  }

  lemma NamedStep(ts: seq<Token>, pos: nat, path: seq<string>)
    requires pos <= |ts| && T.IsPath(path) && path[0] !in {"fn", "ref"}
    requires Occurs(ts, pos, [Name(path[0])] + PathTail(path[1..]))
    requires Text(ts, pos + 1 + |PathTail(path[1..])|) != "::"
    ensures ParseType(ts, pos) == ParseArguments(ts, pos + 1 + |PathTail(path[1..])|, path)
  {
    hide ParseArguments, PathFrom, Occurs;
    WordsAreNoSymbols(path[0]);
    Part(ts, pos, [Name(path[0])], PathTail(path[1..]));
    PathIsRead(ts, pos + 1, [path[0]], path[1..]);
    assert [path[0]] + path[1..] == path;
  }

  lemma NamedIsParsed(ts: seq<Token>, pos: nat, path: seq<string>)
    requires pos <= |ts| && Stands(ts, pos, T.Named(path))
    ensures ParseType(ts, pos) == Ok(T.Named(path), pos + |Spelled(T.Named(path))|)
  {
    hide ParseType, Occurs, PathTail;
    NamedStep(ts, pos, path);
    Part(ts, pos, [Name(path[0])], PathTail(path[1..]));
  }

  lemma {:induction false} GenericIsParsed(ts: seq<Token>, pos: nat, path: seq<string>, args: seq<Ty>)
    requires pos <= |ts| && Stands(ts, pos, T.Generic(path, args))
    ensures ParseType(ts, pos) == Ok(T.Generic(path, args), pos + |Spelled(T.Generic(path, args))|)
    decreases T.Generic(path, args), 0
  {
    hide ParseType, ParseTypes, ParseArguments, Occurs, PathTail, SpelledList;
    var head, list := [Name(path[0])] + PathTail(path[1..]), SpelledList(args);
    var p := pos + |head|;
    Part(ts, pos, head, [Sym(":")] + [Sym("[")] + list + [Sym("]")]);
    NamedStep(ts, pos, path);
    Part(ts, p, [Sym(":")] + [Sym("[")] + list, [Sym("]")]);
    assert AllSpeakable(args);
    ArgumentsAreParsed(ts, p, path, args);
  }

  lemma {:induction false} ArgumentsAreParsed(ts: seq<Token>, pos: nat, path: seq<string>, args: seq<Ty>)
    requires pos <= |ts| && AllSpeakable(args)
    requires Occurs(ts, pos, [Sym(":")] + [Sym("[")] + SpelledList(args))
    requires At(ts, pos + 2 + |SpelledList(args)|) == Sym("]")
    ensures ParseArguments(ts, pos, path) == Ok(T.Generic(path, args), pos + 3 + |SpelledList(args)|)
    decreases args, 2
  {
    hide ParseTypes, Occurs;
    Part(ts, pos, [Sym(":")] + [Sym("[")], SpelledList(args));
    Part(ts, pos, [Sym(":")], [Sym("[")]);
    if args != [] { TypesAreParsed(ts, pos + 2, args); }
  }

  lemma {:induction false} OptionalIsParsed(ts: seq<Token>, pos: nat, inner: Ty)
    requires pos <= |ts| && Stands(ts, pos, T.Optional(inner))
    ensures ParseType(ts, pos) == Ok(T.Optional(inner), pos + |Spelled(T.Optional(inner))|)
    decreases T.Optional(inner), 0
  {
    Part(ts, pos, [Sym("?")], Spelled(inner));
    SpelledIsParsed(ts, pos + 1, inner);
  }

  lemma BracketStep(ts: seq<Token>, pos: nat)
    ensures pos < |ts| && ts[pos].text == "[" ==> ParseType(ts, pos) == ParseBracketed(ts, pos + 1)
  {
  }

  lemma {:induction false} SliceIsParsed(ts: seq<Token>, pos: nat, inner: Ty)
    requires pos <= |ts| && Stands(ts, pos, T.Slice(inner))
    ensures ParseType(ts, pos) == Ok(T.Slice(inner), pos + |Spelled(T.Slice(inner))|)
    decreases T.Slice(inner), 0
  {
    hide ParseType, Occurs;
    BracketStep(ts, pos);
    Part(ts, pos, [Sym("[")], Spelled(inner) + [Sym("]")]);
    Part(ts, pos + 1, Spelled(inner), [Sym("]")]);
    SpelledIsParsed(ts, pos + 1, inner);
  }

  lemma {:induction false} SizedIsParsed(ts: seq<Token>, pos: nat, inner: Ty, count: int)
    requires pos <= |ts| && Stands(ts, pos, T.Sized(inner, count))
    ensures ParseType(ts, pos) == Ok(T.Sized(inner, count), pos + |Spelled(T.Sized(inner, count))|)
    decreases T.Sized(inner, count), 0
  {
    var n := Token(Number, "", count);
    hide ParseType, Occurs;
    BracketStep(ts, pos);
    Part(ts, pos, [Sym("[")], Spelled(inner) + [Sym("*")] + [n] + [Sym("]")]);
    Part(ts, pos + 1, Spelled(inner) + [Sym("*")] + [n], [Sym("]")]);
    Part(ts, pos + 1, Spelled(inner) + [Sym("*")], [n]);
    Part(ts, pos + 1, Spelled(inner), [Sym("*")]);
    SpelledIsParsed(ts, pos + 1, inner);
  }

  lemma {:induction false} PointerIsParsed(ts: seq<Token>, pos: nat, inner: Ty)
    requires pos <= |ts| && Stands(ts, pos, T.Pointer(inner))
    ensures ParseType(ts, pos) == Ok(T.Pointer(inner), pos + |Spelled(T.Pointer(inner))|)
    decreases T.Pointer(inner), 0
  {
    hide ParseType;
    Part(ts, pos, [Token(Keyword, "ref", 0)], Spelled(inner));
    FirstToken(inner);
    SpelledIsParsed(ts, pos + 1, inner);
    ReferenceStep(ts, pos);
  }

  lemma {:induction false} ReferenceIsParsed(ts: seq<Token>, pos: nat, lifetime: string, isMut: bool, inner: Ty)
    requires pos <= |ts| && Stands(ts, pos, T.Reference(lifetime, isMut, inner))
    ensures ParseType(ts, pos)
            == Ok(T.Reference(lifetime, isMut, inner), pos + |Spelled(T.Reference(lifetime, isMut, inner))|)
    decreases T.Reference(lifetime, isMut, inner), 0
  {
    hide ParseType, ParseReference, Occurs, RefTokens;
    var p := pos + 1 + |RefTokens(lifetime, isMut)|;
    Part(ts, pos, [Sym("&")] + RefTokens(lifetime, isMut), Spelled(inner));
    Part(ts, pos, [Sym("&")], RefTokens(lifetime, isMut));
    FirstToken(inner);
    SpelledIsParsed(ts, p, inner);
    ReferencePrefix(ts, pos + 1, lifetime, isMut);
    ReferenceStep(ts, pos);
  }

  lemma ReferencePrefix(ts: seq<Token>, pos: nat, lifetime: string, isMut: bool)
    requires pos <= |ts| && Occurs(ts, pos, RefTokens(lifetime, isMut))
    requires Text(ts, pos + |RefTokens(lifetime, isMut)|) !in {"'", "mut"}
    ensures ParseReference(ts, pos, false)
            == match ParseType(ts, pos + |RefTokens(lifetime, isMut)|)
               case Fail(at, m) => Fail(at, m)
               case Ok(inner, n) => Ok(T.Reference(lifetime, isMut, inner), n)
  {
    hide ParseType, Occurs;
    var m := if isMut then [Token(Keyword, "mut", 0)] else [];
    var l := if lifetime == "" then [] else [Sym("'")] + [Name(lifetime)];
    Part(ts, pos, l, m);
    if lifetime != "" { Part(ts, pos, [Sym("'")], [Name(lifetime)]); }
  }

  lemma ReferenceStep(ts: seq<Token>, pos: nat)
    requires pos < |ts| && ts[pos].text in {"&", "ref"}
    ensures ParseType(ts, pos) == ParseReference(ts, pos + 1, ts[pos].text == "ref")
  {
  }

  lemma {:induction false} FunctionIsParsed(ts: seq<Token>, pos: nat, params: seq<Ty>, result: Ty)
    requires pos <= |ts| && Stands(ts, pos, T.Function(params, result))
    ensures ParseType(ts, pos) == Ok(T.Function(params, result), pos + |Spelled(T.Function(params, result))|)
    decreases T.Function(params, result), 0
  {
    hide ParseType, ParseFunctionType, Occurs, SpelledList;
    var list := SpelledList(params);
    var open := [Token(Keyword, "fn", 0)] + [Sym("(")];
    Part(ts, pos, open + list + [Sym(")")] + [Sym(":")], Spelled(result));
    Part(ts, pos, open + list + [Sym(")")], [Sym(":")]);
    Part(ts, pos, open + list, [Sym(")")]);
    Part(ts, pos, open, list);
    Part(ts, pos, [Token(Keyword, "fn", 0)], [Sym("(")]);
    assert AllSpeakable(params);
    ParamsAreParsed(ts, pos + 1, params);
    SpelledIsParsed(ts, pos + 4 + |list|, result);
    FunctionStep(ts, pos);
  }

  lemma {:induction false} ParamsAreParsed(ts: seq<Token>, pos: nat, params: seq<Ty>)
    requires pos < |ts| && AllSpeakable(params) && ts[pos] == Sym("(") && Occurs(ts, pos + 1, SpelledList(params))
    requires At(ts, pos + 1 + |SpelledList(params)|) == Sym(")") && At(ts, pos + 2 + |SpelledList(params)|) == Sym(":")
    ensures ParseFunctionType(ts, pos)
            == match ParseType(ts, pos + 3 + |SpelledList(params)|)
               case Fail(at, m) => Fail(at, m)
               case Ok(result, k) => Ok(T.Function(params, result), k)
    decreases params, 2
  {
    hide ParseType, ParseTypes, Occurs;
    if params != [] { TypesAreParsed(ts, pos + 1, params); }
  }

  lemma FunctionStep(ts: seq<Token>, pos: nat)
    requires pos < |ts| && ts[pos].text == "fn"
    ensures ParseType(ts, pos) == ParseFunctionType(ts, pos + 1)
  {
  }

  lemma {:induction false} TypesAreParsed(ts: seq<Token>, pos: nat, l: seq<Ty>)
    requires pos <= |ts| && l != [] && AllSpeakable(l)
    requires Occurs(ts, pos, SpelledList(l)) && Text(ts, pos + |SpelledList(l)|) in {")", "]"}
    ensures ParseTypes(ts, pos) == Ok(l, pos + |SpelledList(l)|)
    ensures Text(ts, pos) !in {")", "]"}
    decreases l, 1
  {
    hide ParseType, TypesRest;
    var first, tail := Spelled(l[0]), SpelledTail(l[1..]);
    Part(ts, pos, first, tail);
    FirstToken(l[0]);
    SpelledIsParsed(ts, pos, l[0]);
    RestIsParsed(ts, pos + |first|, [l[0]], l[1..]);
    assert [l[0]] + l[1..] == l;
  }

  lemma {:induction false} NextIsParsed(ts: seq<Token>, pos: nat, t: Ty, tail: seq<Token>)
    requires pos <= |ts| && Speakable(t) && Occurs(ts, pos, [Sym(",")] + Spelled(t) + tail)
    requires if tail == [] then Text(ts, pos + 1 + |Spelled(t)|) in {")", "]"} else tail[0] == Sym(",")
    ensures Text(ts, pos) == "," && pos < |ts| && pos + 1 + |Spelled(t)| <= |ts|
    ensures ParseType(ts, pos + 1) == Ok(t, pos + 1 + |Spelled(t)|)
    ensures Occurs(ts, pos + 1 + |Spelled(t)|, tail)
    decreases t, 2
  {
    hide ParseType, Spelled, Speakable, Occurs;
    Part(ts, pos, [Sym(",")] + Spelled(t), tail);
    Part(ts, pos, [Sym(",")], Spelled(t));
    InStream(ts, pos, [Sym(",")] + Spelled(t));
    SpelledIsParsed(ts, pos + 1, t);
  }

  lemma InStream(ts: seq<Token>, pos: nat, s: seq<Token>)
    requires Occurs(ts, pos, s)
    ensures pos + |s| <= |ts|
  {
  }

  lemma {:induction false} RestIsParsed(ts: seq<Token>, pos: nat, done: seq<Ty>, rest: seq<Ty>)
    requires pos <= |ts| && AllSpeakable(rest)
    requires Occurs(ts, pos, SpelledTail(rest)) && Text(ts, pos + |SpelledTail(rest)|) in {")", "]"}
    ensures TypesRest(ts, pos, done) == Ok(done + rest, pos + |SpelledTail(rest)|)
    decreases rest, 0
  {
    hide ParseType, Occurs, Spelled, Speakable;
    if rest == [] {
      assert done + rest == done;
    } else {
      NextIsParsed(ts, pos, rest[0], SpelledTail(rest[1..]));
      RestIsParsed(ts, pos + 1 + |Spelled(rest[0])|, done + [rest[0]], rest[1..]);
      assert done + [rest[0]] + rest[1..] == done + rest;
    }
  }
}
