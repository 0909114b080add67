/**
  The type parser as it runs: it moves the position of the parser and builds the text of
  the type on the way.
 */
module TypeParser {
  import opened Syntax
  import opened Parsing
  import opened ExprParser
  import opened TypeParsing
  import T = Types

  /** The parser did what the specification says, and the text is that of the type read. */
  ghost predicate DidType(parser: Parser, r: Parsed<Ty>, text: string)
    reads parser
  {
    parser.Valid() &&
    match r
    case Ok(t, n) => parser.ok && parser.pos == n && text == T.Text(t)
    case Fail(at, m) => parser.Failed(at, m)
  }

  method ExpectKind(parser: Parser, kind: Kind) returns (found: bool)
    requires parser.Valid() && parser.ok && kind != Eof
    modifies parser`pos, parser`ok, parser`error, parser`errorAt
    ensures parser.Valid() && found == parser.ok == (At(parser.stream, old(parser.pos)).kind == kind)
    ensures if found then parser.pos == old(parser.pos) + 1
            else parser.Failed(old(parser.pos), "unexpected token '" + Text(parser.stream, old(parser.pos)) + "'")
  {
    found := parser.stream[parser.pos].kind == kind;
    if found {
      parser.Advance();
    } else {
      parser.ParserFail("unexpected token '" + parser.stream[parser.pos].text + "'");
    }
  }

  method ParseTypeText(parser: Parser) returns (text: string)
    requires parser.Valid() && parser.ok
    modifies parser`pos, parser`ok, parser`error, parser`errorAt
    ensures DidType(parser, ParseType(parser.stream, old(parser.pos)), text)
    decreases |parser.stream| - parser.pos, 5
  {
    hide ParseFunctionType, ParseReference, ParseBracketed, ParseArguments, PathFrom;
    var token := parser.stream[parser.pos];
    text := "unknown";
    if token.text == "fn" {
      parser.Advance();
      text := ParseFunctionText(parser);
    } else if token.text == "&" || token.text == "ref" {
      parser.Advance();
      text := ParseReferenceText(parser, token.text == "ref");
    } else if token.text == "[" {
      parser.Advance();
      text := ParseBracketText(parser);
    } else if token.text == "?" {
      parser.Advance();
      var inner := ParseTypeText(parser);
      text := if parser.ok then "Option[" + inner + "]" else "unknown";
    } else if token.kind != Ident && token.kind != Keyword {
      parser.ParserFail("expected type name, got '" + token.text + "'");
    } else {
      parser.Advance();
      text := ParseNamedText(parser, token.text);
    }
  }

  method ParseFunctionText(parser: Parser) returns (text: string)
    requires parser.Valid() && parser.ok
    modifies parser`pos, parser`ok, parser`error, parser`errorAt
    ensures DidType(parser, ParseFunctionType(parser.stream, old(parser.pos)), text)
    decreases |parser.stream| - parser.pos, 4
  {
    hide ParseType, ParseTypes, T.Text, T.ListText;
    text := "unknown";
    ghost var start := parser.pos;
    var found := parser.ExpectText("(");
    if !found { return; }
    ghost var params: seq<Ty> := [];
    var list := "";
    if parser.stream[parser.pos].text != ")" {
      list := ParseListText(parser);
      if !parser.ok { return; }
      params := ParseTypes(parser.stream, start + 1).value;
    }
    assert list == T.ListText(params) by { if params == [] { NoTypes(params); } }
    found := parser.ExpectText(")");
    if !found { return; }
    found := parser.ExpectText(":");
    if !found { return; }
    ghost var r := ParseType(parser.stream, parser.pos);
    var result := ParseTypeText(parser);
    text := "fn(" + list + "): " + result;
    if r.Ok? { FunctionText(params, r.value); }
  }

  lemma FunctionText(params: seq<Ty>, result: Ty)
    ensures T.Text(T.Function(params, result)) == "fn(" + T.ListText(params) + "): " + T.Text(result)
  {
  }

  method ParseReferenceText(parser: Parser, legacy: bool) returns (text: string)
    requires parser.Valid() && parser.ok
    modifies parser`pos, parser`ok, parser`error, parser`errorAt
    ensures DidType(parser, ParseReference(parser.stream, old(parser.pos), legacy), text)
    decreases |parser.stream| - parser.pos, 6
  {
    hide ParseReferent;
    text := "unknown";
    var lifetime := "";
    if parser.stream[parser.pos].text == "'" {
      parser.Advance();
      lifetime := parser.stream[parser.pos].text;
      var found := ExpectKind(parser, Ident);
      if !found { return; }
    }
    text := ParseReferentText(parser, lifetime, legacy);
  }

  method ParseReferentText(parser: Parser, lifetime: string, legacy: bool) returns (text: string)
    requires parser.Valid() && parser.ok
    modifies parser`pos, parser`ok, parser`error, parser`errorAt
    ensures DidType(parser, ParseReferent(parser.stream, old(parser.pos), lifetime, legacy), text)
    decreases |parser.stream| - parser.pos, 6, 0
  {
    hide ParseType, T.Text;
    text := "unknown";
    var isMut := parser.stream[parser.pos].text == "mut";
    if isMut { parser.Advance(); }
    ghost var r := ParseType(parser.stream, parser.pos);
    var inner := ParseTypeText(parser);
    if !parser.ok { return; }
    ReferenceText(lifetime, isMut, r.value);
    if legacy { return "ptr:" + inner; }
    var prefix := "&";
    if lifetime != "" { prefix := prefix + "'" + lifetime + " "; }
    if isMut { prefix := prefix + "mut "; }
    text := prefix + inner;
  }

  lemma ReferenceText(lifetime: string, isMut: bool, t: Ty)
    ensures T.Text(T.Reference(lifetime, isMut, t))
            == (if isMut then (if lifetime != "" then "&" + "'" + lifetime + " " else "&") + "mut "
                else if lifetime != "" then "&" + "'" + lifetime + " " else "&") + T.Text(t)
    ensures T.Text(T.Pointer(t)) == "ptr:" + T.Text(t)
  {
    assert "&" + "'" + lifetime + " " == "&" + ("'" + lifetime + " ");
  }

  method ParseBracketText(parser: Parser) returns (text: string)
    requires parser.Valid() && parser.ok
    modifies parser`pos, parser`ok, parser`error, parser`errorAt
    ensures DidType(parser, ParseBracketed(parser.stream, old(parser.pos)), text)
    decreases |parser.stream| - parser.pos, 6
  {
    hide ParseType;
    text := "unknown";
    var inner := ParseTypeText(parser);
    if !parser.ok { return; }
    if parser.stream[parser.pos].text == "*" {
      parser.Advance();
      var count := parser.stream[parser.pos].value;
      var found := ExpectKind(parser, Number);
      if !found { return; }
      found := parser.ExpectText("]");
      if !found { return; }
      return "[" + inner + "*" + T.Decimal(count) + "]";
    }
    var found := parser.ExpectText("]");
    if !found { return; }
    text := "[" + inner + "]";
  }

  method ParseNamedText(parser: Parser, first: string) returns (text: string)
    requires parser.Valid() && parser.ok
    modifies parser`pos, parser`ok, parser`error, parser`errorAt
    ensures var path := PathFrom(parser.stream, old(parser.pos), [first]);
            DidType(parser, ParseArguments(parser.stream, path.1, path.0), text)
    decreases |parser.stream| - parser.pos, 6
  {
    hide ParseTypes, PathFrom, T.PathText, T.ListText;
    ghost var path;
    text, path := ParsePathText(parser, first);
    if parser.stream[parser.pos].text != ":" && parser.stream[parser.pos].text != "[" { return; }
    if parser.stream[parser.pos].text == ":" { parser.Advance(); }
    ghost var start := parser.pos;
    var found := parser.ExpectText("[");
    if !found { return; }
    ghost var args: seq<Ty> := [];
    var list := "";
    if parser.stream[parser.pos].text != "]" {
      list := ParseListText(parser);
      if !parser.ok { return "unknown"; }
      args := ParseTypes(parser.stream, start + 1).value;
    }
    assert list == T.ListText(args) by { if args == [] { NoTypes(args); } }
    found := parser.ExpectText("]");
    if !found { return "unknown"; }
    text := text + ":[" + list + "]";
  }

  method ParsePathText(parser: Parser, first: string) returns (text: string, ghost path: seq<string>)
    requires parser.Valid() && parser.ok
    modifies parser`pos
    ensures parser.Valid() && parser.pos >= old(parser.pos)
    ensures (path, parser.pos) == PathFrom(parser.stream, old(parser.pos), [first])
    ensures text == T.PathText(path)
  {
    text, path := first, [first];
    while parser.stream[parser.pos].text == "::" && parser.pos + 1 < |parser.stream| && parser.stream[parser.pos + 1].kind == Ident
      invariant parser.Valid() && old(parser.pos) <= parser.pos && path != [] && text == T.PathText(path)
      invariant PathFrom(parser.stream, parser.pos, path) == PathFrom(parser.stream, old(parser.pos), [first])
      decreases |parser.stream| - parser.pos
    {
      parser.Advance();
      var segment := parser.stream[parser.pos].text;
      PathGrows(path, segment);
      text := text + "::" + segment;
      path := path + [segment];
      parser.Advance();
    }
  }

  lemma {:induction false} PathGrows(path: seq<string>, segment: string)
    requires path != []
    ensures T.PathText(path + [segment]) == T.PathText(path) + "::" + segment
  {
    var longer := path + [segment];
    assert longer[1..] == path[1..] + [segment];
    if |path| > 1 {
      PathGrows(path[1..], segment);
    } else {
      assert longer[1..] == [segment];
    }
  }

  /** Types with commas between them, up to the first token that is no comma. */
  method ParseListText(parser: Parser) returns (text: string)
    requires parser.Valid() && parser.ok
    modifies parser`pos, parser`ok, parser`error, parser`errorAt
    ensures parser.Valid()
    ensures match ParseTypes(parser.stream, old(parser.pos))
            case Ok(ts, n) => parser.ok && parser.pos == n && ts != [] && text == T.ListText(ts)
            case Fail(at, m) => parser.Failed(at, m)
    decreases |parser.stream| - parser.pos, 6
  {
    hide ParseType, T.Text, T.ListText;
    ghost var start := parser.pos;
    text := ParseTypeText(parser);
    if !parser.ok { return; }
    ghost var done := [ParseType(parser.stream, start).value];
    OneType(done[0]);
    while parser.stream[parser.pos].text == ","
      invariant parser.Valid() && parser.ok && start < parser.pos && done != [] && text == T.ListText(done)
      invariant TypesRest(parser.stream, parser.pos, done) == ParseTypes(parser.stream, start)
      decreases |parser.stream| - parser.pos
    {
      parser.Advance();
      ghost var r := ParseType(parser.stream, parser.pos);
      var next := ParseTypeText(parser);
      if !parser.ok { return; }
      ListGrows(done, r.value);
      text := text + ", " + next;
      done := done + [r.value];
    }
    RestNotEmpty(parser.stream, parser.pos, done);
  }

  lemma OneType(t: Ty)
    ensures T.ListText([t]) == T.Text(t)
  {
  }

  lemma NoTypes(ts: seq<Ty>)
    requires ts == []
    ensures T.ListText(ts) == ""
  {
  }

  lemma RestNotEmpty(ts: seq<Token>, pos: nat, done: seq<Ty>)
    requires pos <= |ts| && done != [] && Text(ts, pos) != ","
    ensures TypesRest(ts, pos, done) == Ok(done, pos)
  {
  }

  lemma {:induction false} ListGrows(ts: seq<Ty>, t: Ty)
    requires ts != []
    ensures T.ListText(ts + [t]) == T.ListText(ts) + ", " + T.Text(t)
  {
    var longer := ts + [t];
    assert longer[1..] == ts[1..] + [t];
    if |ts| > 1 {
      ListGrows(ts[1..], t);
    } else {
      assert longer[1..] == [t];
    }
  }
}
