/**
  Tokens, expression trees, and the concrete syntax between them: what a piece of
  source says with its parentheses still in it.
 */
module Syntax {
  datatype Kind = Ident | Number | Keyword | Symbol | Str | Eof | Bool | Float

  /** The text of a string token is what stands between its quotes. */
  datatype Token = Token(kind: Kind, text: string, value: int)

  const END := Token(Eof, "", 0)

  function At(ts: seq<Token>, pos: nat): Token {
    if pos < |ts| then ts[pos] else END
  }

  function Text(ts: seq<Token>, pos: nat): string {
    At(ts, pos).text
  }

  // ----- trees -----

  datatype Tree =
    | Absent
    | Node(tag: string, text: string, value: int, some: bool, left: Tree, right: Tree, args: seq<Tree>)

  function Leaf(tag: string, text: string, value: int): Tree {
    Node(tag, text, value, false, Absent, Absent, [])
  }

  function Binary(op: string, l: Tree, r: Tree): Tree {
    Node("binop", op, 0, false, l, r, [])
  }

  function Unary(op: string, e: Tree): Tree {
    if op == "@" then Node("deref", "", 0, false, e, Absent, []) else Node("unaryop", op, 0, false, e, Absent, [])
  }

  function Call(name: string, args: seq<Tree>): Tree {
    Node("call", name, 0, false, Absent, Absent, args)
  }

  function HasTag(t: Tree, tag: string): bool {
    t.Node? && t.tag == tag
  }

  /** Applying an expression: a name is called, a field is a method, anything else is
      called as a value. */
  function Applied(f: Tree, args: seq<Tree>): Tree {
    if HasTag(f, "field") then Node("method_call", f.text, 0, false, f.left, Absent, args)
    else if HasTag(f, "ident") then Call(f.text, args)
    else Node("call", "", 0, false, f, Absent, args)
  }

  /** What `l |> t` means: `l` becomes the first argument. */
  function Piped(l: Tree, t: Tree): Tree {
    if HasTag(t, "call") then Call(t.text, [l] + t.args)
    else if HasTag(t, "ident") then Call(t.text, [l]) else Absent
  }

  // ----- concrete syntax -----

  datatype Cst =
    | Lit(tok: Token)
    | Nil(tok: Token)
    | Id(tok: Token)
    | Paren(open: Token, inner: Cst, close: Token)
    | Bin(op: Token, l: Cst, r: Cst)
    | Un(op: Token, e: Cst)
    | Borrow(op: Token, mut: seq<Token>, name: Token)
    | IndexOf(e: Cst, open: Token, i: Cst, close: Token)
    | SliceOf(e: Cst, open: Token, i: Cst, dots: Token, j: Cst, close: Token)
    | FieldOf(e: Cst, dot: Token, name: Token)
    | CallOf(e: Cst, open: Token, args: seq<Cst>, commas: seq<Token>, close: Token)
    | Array(open: Token, args: seq<Cst>, commas: seq<Token>, close: Token)
    | Pipe(l: Cst, op: Token, t: Cst)

  function Tokens(c: Cst): seq<Token>
    decreases c, 1
  {
    match c
    case Lit(t) => [t]
    case Nil(t) => [t]
    case Id(t) => [t]
    case Paren(o, e, k) => [o] + Tokens(e) + [k]
    case Bin(op, l, r) => Tokens(l) + [op] + Tokens(r)
    case Un(op, e) => [op] + Tokens(e)
    case Borrow(op, mut, name) => [op] + mut + [name]
    case IndexOf(e, o, i, k) => Tokens(e) + [o] + Tokens(i) + [k]
    case SliceOf(e, o, i, d, j, k) => Tokens(e) + [o] + Tokens(i) + [d] + Tokens(j) + [k]
    case FieldOf(e, d, name) => Tokens(e) + [d, name]
    case CallOf(e, o, args, commas, k) => Tokens(e) + [o] + ListTokens(args, commas) + [k]
    case Array(o, args, commas, k) => [o] + ListTokens(args, commas) + [k]
    case Pipe(l, op, t) => Tokens(l) + [op] + Tokens(t)
  }

  function ListTokens(args: seq<Cst>, commas: seq<Token>): seq<Token>
    decreases args, 0
  {
    if args == [] then []
    else if |args| == 1 || commas == [] then Tokens(args[0])
    else Tokens(args[0]) + [commas[0]] + ListTokens(args[1..], commas[1..])
  }

  function ToTree(c: Cst): Tree
    decreases c, 1
  {
    match c
    case Lit(t) => Leaf(if t.kind == Number then "int" else if t.kind == Bool then "bool" else "string",
                        if t.kind == Str then t.text else "", if t.kind == Str then 0 else t.value)
    case Nil(_) => Leaf("int", "", 0)
    case Id(t) => if t.text == "None" then Leaf("option", "", 0) else Leaf("ident", t.text, 0)
    case Paren(_, e, _) => ToTree(e)
    case Bin(op, l, r) => Binary(op.text, ToTree(l), ToTree(r))
    case Un(op, e) => Unary(op.text, ToTree(e))
    case Borrow(_, mut, name) => Leaf("addr", name.text, if mut != [] then 1 else 0)
    case IndexOf(e, _, i, _) => Node("index", "", 0, false, ToTree(e), ToTree(i), [])
    case SliceOf(e, _, i, _, j, _) => Node("slice", "", 0, false, ToTree(e), ToTree(i), [ToTree(j)])
    case FieldOf(e, _, name) => Node("field", name.text, 0, false, ToTree(e), Absent, [])
    case CallOf(e, _, args, _, _) =>
      if e.Id? && e.tok.text == "Some" && |args| == 1 then Node("option", "", 0, true, ToTree(args[0]), Absent, [])
      else Applied(ToTree(e), ToTrees(args))
    case Array(_, args, _, _) => Node("array_literal", "", 0, false, Absent, Absent, ToTrees(args))
    case Pipe(l, _, t) => Piped(ToTree(l), ToTree(t))
  }

  function ToTrees(cs: seq<Cst>): (r: seq<Tree>)
    ensures |r| == |cs|
    decreases cs, 0
  {
    if cs == [] then [] else [ToTree(cs[0])] + ToTrees(cs[1..])
  }

  // ----- precedence -----

  /** The level of a binary operator, from 1 for `or` to 9 for `*`; 0 if it is none. */
  function OpLevel(t: Token): (r: nat)
    ensures r <= 9
  {
    if t.kind == Keyword then
      if t.text == "or" then 1 else if t.text == "and" then 2 else 0
    else if t.kind == Symbol then
      if t.text == "|" then 3
      else if t.text == "&" then 4
      else if t.text == "??" then 5
      else if t.text in {"==", "!=", "<", "<=", ">", ">="} then 6
      else if t.text in {"<<", ">>"} then 7
      else if t.text in {"+", "-"} then 8
      else if t.text in {"*", "/", "%"} then 9
      else 0
    else 0
  }

  const PIPE: nat := 0
  const COALESCE: nat := 5
  const COMPARE: nat := 6
  const UNARY: nat := 10
  const POSTFIX: nat := 11

  function Level(c: Cst): (r: nat)
    ensures r <= POSTFIX
  {
    match c
    case Pipe(_, _, _) => PIPE
    case Bin(op, _, _) => OpLevel(op)
    case Un(_, _) => UNARY
    case Borrow(_, _, _) => UNARY
    case _ => POSTFIX
  }

  /** The level that an operand must have: `??` groups to the right, comparisons do not
      chain, all others group to the left. */
  function LeftLevel(lvl: nat): nat {
    if lvl == COALESCE || lvl == COMPARE then lvl + 1 else lvl
  }

  function RightLevel(lvl: nat): nat {
    if lvl == COALESCE then lvl else lvl + 1
  }

  predicate IsUnary(op: string) {
    op in {"@", "-", "!"}
  }

  /** A token that begins an operand by its kind and not by its text. */
  predicate Plain(t: Token) {
    t.kind == Str || t.text !in {"ref", "&", "@", "-", "!"}
  }

  predicate NotClosing(args: seq<Cst>, close: string) {
    args == [] || |Tokens(args[0])| == 0 || Tokens(args[0])[0].text != close
  }

  predicate Commas(args: seq<Cst>, commas: seq<Token>) {
    && |commas| == (if args == [] then 0 else |args| - 1)
    && forall i :: 0 <= i < |commas| ==> commas[i].text == ","
  }

  /** The expression grammar: tokens are where they belong and every operand binds at
      least as tightly as its place needs. */
  predicate Fits(c: Cst)
    decreases c, 1
  {
    match c
    case Lit(t) => t.kind in {Number, Bool, Str}
    case Nil(t) => t.kind !in {Ident, Number, Float, Bool, Str} && t.text == "nil"
    case Id(t) => t.kind == Ident && t.text != "fn"
    case Paren(o, e, k) => Punctuation(o, "(") && Fits(e) && Starts(e) && k.text == ")"
    case Bin(op, l, r) =>
      && OpLevel(op) > 0 && Fits(l) && Starts(l) && Fits(r) && Starts(r)
      && Level(l) >= LeftLevel(OpLevel(op)) && Level(r) >= RightLevel(OpLevel(op))
    case Un(op, e) => op.kind != Str && IsUnary(op.text) && Level(e) >= UNARY && Fits(e) && Starts(e)
    case Borrow(op, mut, name) =>
      && op.kind != Str && op.text in {"ref", "&"} && name.kind == Ident
      && (if mut == [] then name.text != "mut" else |mut| == 1 && mut[0].text == "mut")
    case IndexOf(e, o, i, k) => Level(e) == POSTFIX && Fits(e) && o.text == "[" && Fits(i) && Starts(i) && k.text == "]"
    case SliceOf(e, o, i, d, j, k) =>
      Level(e) == POSTFIX && Fits(e) && o.text == "[" && Fits(i) && Starts(i) && d.text == ".." && Fits(j) && Starts(j) && k.text == "]"
    case FieldOf(e, d, name) => Level(e) == POSTFIX && Fits(e) && d.text == "." && name.kind == Ident
    case CallOf(e, o, args, commas, k) =>
      && Level(e) == POSTFIX && Fits(e) && o.text == "(" && k.text == ")"
      && NotClosing(args, ")") && Commas(args, commas) && AllFit(args)
      && (e.Id? && e.tok.text == "Some" ==> |args| == 1)
    case Array(o, args, commas, k) =>
      Punctuation(o, "[") && k.text == "]" && NotClosing(args, "]") && Commas(args, commas) && AllFit(args)
    case Pipe(l, op, t) =>
      && Fits(l) && Starts(l) && op.text == "|>" && Level(t) == POSTFIX && Fits(t) && !StartsIndexed(t)
      && (HasTag(ToTree(t), "call") || HasTag(ToTree(t), "ident"))
  }

  /** A whole expression and the operand of an operator do not begin with a literal or a
      name that is spelled like a prefix operator. */
  predicate Starts(c: Cst) {
    Level(c) == POSTFIX ==> Tokens(c) != [] && Plain(Tokens(c)[0])
  }

  predicate AllFit(cs: seq<Cst>)
    decreases cs, 0
  {
    cs != [] ==> Fits(cs[0]) && Starts(cs[0]) && AllFit(cs[1..])
  }

  /** A name with a bracket: as the target of a pipe it would be a generic call. */
  predicate StartsIndexed(c: Cst) {
    |Tokens(c)| > 1 && Tokens(c)[0].kind == Ident && Tokens(c)[1].text == "["
  }

  predicate Punctuation(t: Token, text: string) {
    t.kind !in {Ident, Number, Float, Bool, Str} && t.text == text
  }

  lemma {:induction false} ToTreesAppend(cs: seq<Cst>, c: Cst)
    ensures ToTrees(cs + [c]) == ToTrees(cs) + [ToTree(c)]
    decreases cs
  {
    if cs == [] {
      assert cs + [c] == [c];
    } else {
      assert (cs + [c])[1..] == cs[1..] + [c];
      ToTreesAppend(cs[1..], c);
    }
  }
}
