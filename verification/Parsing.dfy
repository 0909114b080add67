/**
  The expression parser as a function from tokens to concrete syntax. Unsupported forms are
  refused at the token where they begin.
 */
module Parsing {
  import opened Syntax

  datatype Parsed<+T> = Ok(value: T, next: nat) | Fail(at: nat, message: string)

  datatype List = List(args: seq<Cst>, commas: seq<Token>, close: Token)

  const UNSUPPORTED := "unsupported form"

  function Expected<T>(ts: seq<Token>, pos: nat, text: string): Parsed<T> {
    Fail(pos, "expected '" + text + "', got '" + Text(ts, pos) + "'")
  }

  /** Is there a `(` right after the bracket that matches the one at hand? */
  predicate GenericCallAhead(ts: seq<Token>, pos: nat) {
    var p := if Text(ts, pos) == ":" then pos + 1 else pos;
    Text(ts, p) == "[" && CallAfterBracket(ts, p, 0)
  }

  predicate CallAfterBracket(ts: seq<Token>, pos: nat, depth: int)
    decreases |ts| - pos
  {
    if pos >= |ts| then false
    else if ts[pos].text == "[" then CallAfterBracket(ts, pos + 1, depth + 1)
    else if ts[pos].text == "]" && depth - 1 == 0 then Text(ts, pos + 1) == "("
    else CallAfterBracket(ts, pos + 1, if ts[pos].text == "]" then depth - 1 else depth)
  }

  function ParseExpression(ts: seq<Token>, pos: nat): (r: Parsed<Cst>)
    requires pos <= |ts|
    ensures r.Ok? ==> pos < r.next <= |ts|
    decreases |ts| - pos, 20
  {
    match ParseBinary(ts, pos, 1)
    case Fail(at, m) => Fail(at, m)
    case Ok(l, n) => PipeRest(ts, l, n)
  }

  function PipeRest(ts: seq<Token>, l: Cst, pos: nat): (r: Parsed<Cst>)
    requires pos <= |ts|
    ensures r.Ok? ==> pos <= r.next <= |ts|
    decreases |ts| - pos, 19
  {
    if Text(ts, pos) != "|>" then Ok(l, pos)
    else if At(ts, pos + 1).kind == Ident && Text(ts, pos + 2) == "[" then Fail(pos + 1, UNSUPPORTED)
    else
      match ParsePostfix(ts, pos + 1)
      case Fail(at, m) => Fail(at, m)
      case Ok(t, n) =>
        if HasTag(ToTree(t), "call") || HasTag(ToTree(t), "ident") then PipeRest(ts, Pipe(l, ts[pos], t), n)
        else Fail(n, "pipeline target must be a function call or identifier")
  }

  /** The binary levels from `or` up; each parses operands of the level above it. */
  function ParseBinary(ts: seq<Token>, pos: nat, lvl: nat): (r: Parsed<Cst>)
    requires pos <= |ts| && 1 <= lvl <= UNARY
    ensures r.Ok? ==> pos < r.next <= |ts|
    decreases |ts| - pos, 18 - lvl
  {
    if lvl == UNARY then ParseUnary(ts, pos)
    else
      match ParseBinary(ts, pos, lvl + 1)
      case Fail(at, m) => Fail(at, m)
      case Ok(l, n) => BinaryRest(ts, lvl, l, n)
  }

  function BinaryRest(ts: seq<Token>, lvl: nat, l: Cst, pos: nat): (r: Parsed<Cst>)
    requires pos <= |ts| && 1 <= lvl < UNARY
    ensures r.Ok? ==> pos <= r.next <= |ts|
    decreases |ts| - pos, 18 - lvl
  {
    if OpLevel(At(ts, pos)) != lvl then Ok(l, pos)
    else
      match ParseBinary(ts, pos + 1, RightLevel(lvl))
      case Fail(at, m) => Fail(at, m)
      case Ok(r, n) =>
        if LeftLevel(lvl) > lvl then Ok(Bin(ts[pos], l, r), n) else BinaryRest(ts, lvl, Bin(ts[pos], l, r), n)
  }

  function ParseUnary(ts: seq<Token>, pos: nat): (r: Parsed<Cst>)
    requires pos <= |ts|
    ensures r.Ok? ==> pos < r.next <= |ts|
    decreases |ts| - pos, 7
  {
    var t := At(ts, pos);
    if t.kind == Str then ParsePostfix(ts, pos)
    else if t.text in {"ref", "&"} then ParseBorrow(ts, pos)
    else if IsUnary(t.text) then
      match ParseUnary(ts, pos + 1)
      case Fail(at, m) => Fail(at, m)
      case Ok(e, n) => Ok(Un(t, e), n)
    else ParsePostfix(ts, pos)
  }

  function ParseBorrow(ts: seq<Token>, pos: nat): (r: Parsed<Cst>)
    requires pos < |ts|
    ensures r.Ok? ==> pos < r.next <= |ts|
  {
    var mut := if Text(ts, pos + 1) == "mut" then [ts[pos + 1]] else [];
    var n := pos + 1 + |mut|;
    if At(ts, n).kind == Ident then Ok(Borrow(ts[pos], mut, ts[n]), n + 1)
    else Fail(n, "unexpected token '" + Text(ts, n) + "'")
  }

  function ParsePostfix(ts: seq<Token>, pos: nat): (r: Parsed<Cst>)
    requires pos <= |ts|
    ensures r.Ok? ==> pos < r.next <= |ts|
    decreases |ts| - pos, 6
  {
    match ParsePrimary(ts, pos)
    case Fail(at, m) => Fail(at, m)
    case Ok(e, n) => PostfixRest(ts, e, n)
  }

  function PostfixRest(ts: seq<Token>, e: Cst, pos: nat): (r: Parsed<Cst>)
    requires pos <= |ts|
    ensures r.Ok? ==> pos <= r.next <= |ts|
    decreases |ts| - pos, 6
  {
    if Text(ts, pos) !in {"[", ".", "("} then Ok(e, pos)
    else
      match PostfixOne(ts, e, pos)
      case Fail(at, m) => Fail(at, m)
      case Ok(e', n) => PostfixRest(ts, e', n)
  }

  /** One index, slice, field or call. */
  function PostfixOne(ts: seq<Token>, e: Cst, pos: nat): (r: Parsed<Cst>)
    requires pos < |ts| && Text(ts, pos) in {"[", ".", "("}
    ensures r.Ok? ==> pos < r.next <= |ts|
    decreases |ts| - pos, 5
  {
    var open := ts[pos];
    if open.text == "[" then ParseBracket(ts, e, pos)
    else if open.text == "." then
      if At(ts, pos + 1).kind == Ident then Ok(FieldOf(e, open, ts[pos + 1]), pos + 2)
      else Fail(pos + 1, "unexpected token '" + Text(ts, pos + 1) + "'")
    else
      match ParseList(ts, pos + 1, ")")
      case Fail(at, m) => Fail(at, m)
      case Ok(list, n) => Ok(CallOf(e, open, list.args, list.commas, list.close), n)
  }

  function ParseBracket(ts: seq<Token>, e: Cst, pos: nat): (r: Parsed<Cst>)
    requires pos < |ts|
    ensures r.Ok? ==> pos < r.next <= |ts|
    decreases |ts| - pos, 4
  {
    match ParseExpression(ts, pos + 1)
    case Fail(at, m) => Fail(at, m)
    case Ok(i, n) =>
      if Text(ts, n) == ".." then
        match ParseExpression(ts, n + 1)
        case Fail(at, m) => Fail(at, m)
        case Ok(j, k) =>
          if Text(ts, k) == "]" then Ok(SliceOf(e, ts[pos], i, ts[n], j, ts[k]), k + 1) else Expected(ts, k, "]")
      else if Text(ts, n) == "]" then Ok(IndexOf(e, ts[pos], i, ts[n]), n + 1)
      else Expected(ts, n, "]")
  }

  function ParseList(ts: seq<Token>, pos: nat, close: string): (r: Parsed<List>)
    requires pos <= |ts| && close != ""
    ensures r.Ok? ==> pos < r.next <= |ts|
    decreases |ts| - pos, 22
  {
    if Text(ts, pos) == close then Ok(List([], [], ts[pos]), pos + 1) else ParseItems(ts, pos, close)
  }

  function ParseItems(ts: seq<Token>, pos: nat, close: string): (r: Parsed<List>)
    requires pos <= |ts| && close != ""
    ensures r.Ok? ==> pos < r.next <= |ts|
    decreases |ts| - pos, 21
  {
    match ParseExpression(ts, pos)
    case Fail(at, m) => Fail(at, m)
    case Ok(e, n) =>
      if Text(ts, n) == "," then
        match ParseItems(ts, n + 1, close)
        case Fail(at, m) => Fail(at, m)
        case Ok(rest, k) => Ok(List([e] + rest.args, [ts[n]] + rest.commas, rest.close), k)
      else if Text(ts, n) == close then Ok(List([e], [], ts[n]), n + 1)
      else Expected(ts, n, close)
  }

  function ParsePrimary(ts: seq<Token>, pos: nat): (r: Parsed<Cst>)
    requires pos <= |ts|
    ensures r.Ok? ==> pos < r.next <= |ts|
    decreases |ts| - pos, 5
  {
    var t := At(ts, pos);
    if t.kind in {Number, Bool, Str} then Ok(Lit(t), pos + 1)
    else if t.kind == Float || t.text == "fn" then Fail(pos, UNSUPPORTED)
    else if t.kind == Ident then ParseName(ts, pos)
    else if t.text == "nil" then Ok(Nil(t), pos + 1)
    else if t.text == "(" then
      match ParseExpression(ts, pos + 1)
      case Fail(at, m) => Fail(at, m)
      case Ok(e, n) => if Text(ts, n) == ")" then Ok(Paren(t, e, ts[n]), n + 1) else Expected(ts, n, ")")
    else if t.text == "[" then
      match ParseList(ts, pos + 1, "]")
      case Fail(at, m) => Fail(at, m)
      case Ok(list, n) => Ok(Array(t, list.args, list.commas, list.close), n)
    else if t.text in {"match", "if", "{"} then Fail(pos, UNSUPPORTED)
    else Fail(pos, "unexpected token in expression: '" + t.text + "'")
  }

  function ParseName(ts: seq<Token>, pos: nat): (r: Parsed<Cst>)
    requires pos < |ts|
    ensures r.Ok? ==> pos < r.next <= |ts|
    decreases |ts| - pos, 4
  {
    var t := ts[pos];
    if Text(ts, pos + 1) == "::" then Fail(pos + 1, UNSUPPORTED)
    else if t.text == "None" then Ok(Id(t), pos + 1)
    else if GenericCallAhead(ts, pos + 1) || Text(ts, pos + 1) == "{" then Fail(pos + 1, UNSUPPORTED)
    else if Text(ts, pos + 1) == "(" then
      match ParseList(ts, pos + 2, ")")
      case Fail(at, m) => Fail(at, m)
      case Ok(list, n) =>
        if t.text == "Some" && |list.args| != 1 then Fail(n, "Some expects one argument")
        else Ok(CallOf(Id(t), ts[pos + 1], list.args, list.commas, list.close), n)
    else Ok(Id(t), pos + 1)
  }

  /** A name is called by name at once, so it is never applied later; `None` is. */
  predicate NotCalled(ts: seq<Token>, e: Cst, pos: nat) {
    e.Id? && Text(ts, pos) == "(" ==> e.tok.text == "None"
  }

  lemma PrimaryIsNotCalled(ts: seq<Token>, pos: nat)
    requires pos <= |ts| && ParsePrimary(ts, pos).Ok?
    ensures NotCalled(ts, ParsePrimary(ts, pos).value, ParsePrimary(ts, pos).next)
  {
    hide ParseExpression, ParseList, GenericCallAhead;
  }
}
