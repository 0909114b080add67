/**
  Two printers of expression trees, and what the parser makes of their output.
 */
module Printing {
  import opened Syntax
  import opened Parsing
  import opened ParsingComplete
  import opened ParsingSound

  // ----- the grammar decides -----

  /** The parser accepts exactly the grammar: what it returns spans what it consumed and
      holds no name that looks like a generic call, and any such piece of the grammar that
      is complete where it ends is what it returns. */
  lemma ParserRecognisesTheGrammar(ts: seq<Token>, pos: nat, c: Cst)
    requires pos <= |ts| && Follow(At(ts, pos + Width(c)), 0)
    ensures ParseExpression(ts, pos) == Ok(c, pos + Width(c)) <==> Spans(ts, pos, c, pos + Width(c)) && Starts(c)
  {
    hide Fits, NotGeneric, Follow;
    if ParseExpression(ts, pos) == Ok(c, pos + Width(c)) {
      ExpressionSpans(ts, pos);
    }
    if Spans(ts, pos, c, pos + Width(c)) && Starts(c) {
      ExpressionParses(ts, pos, c);
    }
  }

  /** No two readings of the same tokens. */
  lemma TheGrammarIsUnambiguous(c: Cst, d: Cst)
    requires Fits(c) && Fits(d) && Starts(c) && Starts(d) && Tokens(c) == Tokens(d)
    requires NotGeneric(Tokens(c) + [END], 0, c) && NotGeneric(Tokens(d) + [END], 0, d)
    ensures c == d
  {
    hide Fits, NotGeneric, Starts;
    var ts := Tokens(c) + [END];
    assert ts[0..|Tokens(c)|] == Tokens(c);
    ExpressionParses(ts, 0, c);
    ExpressionParses(ts, 0, d);
  }

  /** A quoted `)` in front of a call's arguments is taken for its end: the parser looks
      at the text of the token and not at its kind. */
  lemma AQuotedParenthesisEndsTheCall(ts: seq<Token>, pos: nat)
    requires pos + 2 < |ts| && ts[pos].kind == Ident && ts[pos].text !in {"fn", "None", "Some"}
    requires ts[pos + 1] == Token(Symbol, "(", 0) && ts[pos + 2] == Token(Str, ")", 0)
    ensures ParsePrimary(ts, pos) == Ok(CallOf(Id(ts[pos]), ts[pos + 1], [], [], ts[pos + 2]), pos + 3)
  {
    assert !GenericCallAhead(ts, pos + 1);
    assert ParseList(ts, pos + 2, ")") == Ok(List([], [], ts[pos + 2]), pos + 3);
    assert ParsePrimary(ts, pos) == ParseName(ts, pos);
  }

  /** So is a quoted `]` in front of the elements of an array literal. */
  lemma AQuotedBracketEndsTheArray(ts: seq<Token>, pos: nat)
    requires pos + 1 < |ts| && ts[pos] == Token(Symbol, "[", 0) && ts[pos + 1] == Token(Str, "]", 0)
    ensures ParsePrimary(ts, pos) == Ok(Array(ts[pos], [], [], ts[pos + 1]), pos + 2)
  {
    assert ParseList(ts, pos + 1, "]") == Ok(List([], [], ts[pos + 1]), pos + 2);
  }

  // ----- printing -----

  function Sym(text: string): Token {
    Token(Symbol, text, 0)
  }

  function Word(text: string): Token {
    Token(Keyword, text, 0)
  }

  function OpToken(op: string): Token {
    if op in {"and", "or"} then Word(op) else Sym(op)
  }

  /** A number token has its value and no text. */
  function IntToken(n: nat): Token {
    Token(Number, "", n)
  }

  function BoolToken(b: int): Token {
    Token(Bool, if b == 1 then "true" else "false", b)
  }

  /** A name that the lexer makes an identifier token of, other than those with a
      meaning of their own. */
  predicate IsName(text: string) {
    text !in {"fn", "None", "ref", "mut", "&", "@", "-", "!", "[", "]", "(", ")", "{", "::", ".", "|>"}
  }

  /** The trees that both printers cover: literals that a token can spell, names, all
      binary operators, the prefix operators, borrows, indices, slices and fields. */
  predicate Printable(t: Tree)
    decreases t
  {
    t.Node? &&
    if t.tag == "int" then t.value >= 0 && t == Leaf("int", "", t.value)
    else if t.tag == "bool" then t.value in {0, 1} && t == Leaf("bool", "", t.value)
    else if t.tag == "string" then t == Leaf("string", t.text, 0)
    else if t.tag == "ident" then IsName(t.text) && t == Leaf("ident", t.text, 0)
    else if t.tag == "addr" then IsName(t.text) && t.value in {0, 1} && t == Leaf("addr", t.text, t.value)
    else if t.tag == "binop" then
      && OpLevel(OpToken(t.text)) > 0 && Printable(t.left) && Printable(t.right)
      && t == Binary(t.text, t.left, t.right)
    else if t.tag == "unaryop" then t.text in {"-", "!"} && Printable(t.left) && t == Unary(t.text, t.left)
    else if t.tag == "deref" then Printable(t.left) && t == Unary("@", t.left)
    else if t.tag == "index" then
      Printable(t.left) && Printable(t.right) && t == Node("index", "", 0, false, t.left, t.right, [])
    else if t.tag == "slice" then
      && |t.args| == 1 && Printable(t.left) && Printable(t.right) && Printable(t.args[0])
      && t == Node("slice", "", 0, false, t.left, t.right, t.args)
    else if t.tag == "field" then
      IsName(t.text) && Printable(t.left) && t == Node("field", t.text, 0, false, t.left, Absent, [])
    else false
  }

  /** The tokens of the debugging printer: parentheses around every binary operator and
      around `-` and `!`, and nowhere else. */
  function Debug(t: Tree): seq<Token>
    requires Printable(t)
    decreases t
  {
    match t.tag
    case "int" => [IntToken(t.value)]
    case "bool" => [BoolToken(t.value)]
    case "string" => [Token(Str, t.text, 0)]
    case "ident" => [Token(Ident, t.text, 0)]
    case "addr" => [Sym("&")] + (if t.value == 1 then [Word("mut")] else []) + [Token(Ident, t.text, 0)]
    case "binop" => [Sym("(")] + Debug(t.left) + [OpToken(t.text)] + Debug(t.right) + [Sym(")")]
    case "unaryop" => [Sym("("), Sym(t.text)] + Debug(t.left) + [Sym(")")]
    case "deref" => [Sym("@")] + Debug(t.left)
    case "index" => Debug(t.left) + [Sym("[")] + Debug(t.right) + [Sym("]")]
    case "slice" => Debug(t.left) + [Sym("[")] + Debug(t.right) + [Sym("..")] + Debug(t.args[0]) + [Sym("]")]
    case _ => Debug(t.left) + [Sym("."), Token(Ident, t.text, 0)]
  }

  /** Concrete syntax with parentheses: where `full` says so, and else where they are
      needed. */
  function Wrap(c: Cst, lvl: nat): Cst {
    if Level(c) >= lvl then c else Paren(Sym("("), c, Sym(")"))
  }

  function Shown(c: Cst, full: bool): Cst {
    if full then Paren(Sym("("), c, Sym(")")) else c
  }

  function Layout(t: Tree, full: bool): Cst
    requires Printable(t)
    decreases t
  {
    match t.tag
    case "int" => Lit(IntToken(t.value))
    case "bool" => Lit(BoolToken(t.value))
    case "string" => Lit(Token(Str, t.text, 0))
    case "ident" => Id(Token(Ident, t.text, 0))
    case "addr" => Borrow(Sym("&"), if t.value == 1 then [Word("mut")] else [], Token(Ident, t.text, 0))
    case "binop" =>
      var op := OpToken(t.text);
      Shown(Bin(op, Wrap(Layout(t.left, full), LeftLevel(OpLevel(op))), Wrap(Layout(t.right, full), RightLevel(OpLevel(op)))), full)
    case "unaryop" => Shown(Un(Sym(t.text), Wrap(Layout(t.left, full), UNARY)), full)
    case "deref" => Un(Sym("@"), Wrap(Layout(t.left, full), UNARY))
    case "index" => IndexOf(Wrap(Layout(t.left, full), POSTFIX), Sym("["), Layout(t.right, full), Sym("]"))
    case "slice" =>
      SliceOf(Wrap(Layout(t.left, full), POSTFIX), Sym("["), Layout(t.right, full), Sym(".."), Layout(t.args[0], full), Sym("]"))
    case _ => FieldOf(Wrap(Layout(t.left, full), POSTFIX), Sym("."), Token(Ident, t.text, 0))
  }

  predicate Base(t: Tree) {
    !HasTag(t, "deref") && !HasTag(t, "addr")
  }

  /** The debugging printer puts no parentheses around `@e` and `&x`, so it must not have
      to print them in front of a bracket or a dot. */
  predicate Unbased(t: Tree)
    requires Printable(t)
    decreases t
  {
    match t.tag
    case "binop" => Unbased(t.left) && Unbased(t.right)
    case "unaryop" => Unbased(t.left)
    case "deref" => Unbased(t.left)
    case "index" => Base(t.left) && Unbased(t.left) && Unbased(t.right)
    case "slice" => Base(t.left) && Unbased(t.left) && Unbased(t.right) && Unbased(t.args[0])
    case "field" => Base(t.left) && Unbased(t.left)
    case _ => true
  }

  // ----- layouts are grammatical and mean the tree -----

  ghost predicate Good(c: Cst, t: Tree) {
    Fits(c) && Starts(c) && ToTree(c) == t
  }

  lemma {:induction false} LayoutFits(t: Tree, full: bool)
    requires Printable(t)
    ensures Good(Layout(t, full), t)
    decreases t
  {
    hide Good;
    if t.tag in {"int", "bool", "string", "ident", "addr"} {
      AtomFits(t, full);
    } else if t.tag == "binop" {
      LayoutFits(t.left, full);
      LayoutFits(t.right, full);
      BinaryFits(t, full);
    } else if t.tag in {"unaryop", "deref"} {
      LayoutFits(t.left, full);
      UnaryFits(t, full);
    } else if t.tag == "index" {
      LayoutFits(t.left, full);
      LayoutFits(t.right, full);
      IndexFits(t, full);
    } else if t.tag == "slice" {
      LayoutFits(t.left, full);
      LayoutFits(t.right, full);
      LayoutFits(t.args[0], full);
      SliceFits(t, full);
    } else {
      LayoutFits(t.left, full);
      FieldFits(t, full);
    }
  }

  lemma AtomFits(t: Tree, full: bool)
    requires Printable(t) && t.tag in {"int", "bool", "string", "ident", "addr"}
    ensures Good(Layout(t, full), t)
  {
  }

  lemma UnaryFits(t: Tree, full: bool)
    requires Printable(t) && t.tag in {"unaryop", "deref"} && Good(Layout(t.left, full), t.left)
    ensures Good(Layout(t, full), t)
  {
    hide Layout;
    var e := Wrap(Layout(t.left, full), UNARY);
    WrapFits(Layout(t.left, full), UNARY);
    var op := if t.tag == "deref" then Sym("@") else Sym(t.text);
    assert Fits(Un(op, e)) && ToTree(Un(op, e)) == t;
    UnaryLayout(t, full);
  }

  lemma UnaryLayout(t: Tree, full: bool)
    requires Printable(t) && t.tag in {"unaryop", "deref"}
    ensures var e := Wrap(Layout(t.left, full), UNARY);
            Layout(t, full) == if t.tag == "deref" then Un(Sym("@"), e) else Shown(Un(Sym(t.text), e), full)
  {
  }

  /** The base of an index, a slice or a field. */
  lemma BaseFits(c: Cst, t: Tree)
    requires Good(c, t)
    ensures Good(Wrap(c, POSTFIX), t) && Level(Wrap(c, POSTFIX)) == POSTFIX
    ensures Tokens(Wrap(c, POSTFIX)) != [] && Plain(Tokens(Wrap(c, POSTFIX))[0])
  {
    WrapFits(c, POSTFIX);
    assert Starts(Wrap(c, POSTFIX));
  }

  lemma IndexFits(t: Tree, full: bool)
    requires Printable(t) && t.tag == "index"
    requires Good(Layout(t.left, full), t.left) && Good(Layout(t.right, full), t.right)
    ensures Good(Layout(t, full), t)
  {
    hide Wrap;
    var e := Wrap(Layout(t.left, full), POSTFIX);
    BaseFits(Layout(t.left, full), t.left);
    IndexGood(e, Layout(t.right, full), t.left, t.right);
  }

  lemma IndexGood(e: Cst, i: Cst, l: Tree, r: Tree)
    requires Good(e, l) && Good(i, r) && Level(e) == POSTFIX
    ensures Good(IndexOf(e, Sym("["), i, Sym("]")), Node("index", "", 0, false, l, r, []))
  {
  }

  lemma SliceFits(t: Tree, full: bool)
    requires Printable(t) && t.tag == "slice"
    requires Good(Layout(t.left, full), t.left) && Good(Layout(t.right, full), t.right) && Good(Layout(t.args[0], full), t.args[0])
    ensures Good(Layout(t, full), t)
  {
    hide Wrap;
    var e := Wrap(Layout(t.left, full), POSTFIX);
    BaseFits(Layout(t.left, full), t.left);
    SliceGood(e, Layout(t.right, full), Layout(t.args[0], full), t.left, t.right, t.args[0]);
    assert t.args == [t.args[0]];
  }

  lemma SliceGood(e: Cst, i: Cst, j: Cst, l: Tree, r: Tree, a: Tree)
    requires Good(e, l) && Good(i, r) && Good(j, a) && Level(e) == POSTFIX
    ensures Good(SliceOf(e, Sym("["), i, Sym(".."), j, Sym("]")), Node("slice", "", 0, false, l, r, [a]))
  {
  }

  lemma FieldFits(t: Tree, full: bool)
    requires Printable(t) && t.tag == "field" && Good(Layout(t.left, full), t.left)
    ensures Good(Layout(t, full), t)
  {
    hide Wrap;
    var e := Wrap(Layout(t.left, full), POSTFIX);
    BaseFits(Layout(t.left, full), t.left);
    FieldGood(e, t.text, t.left);
  }

  lemma FieldGood(e: Cst, name: string, l: Tree)
    requires Good(e, l) && Level(e) == POSTFIX
    ensures Good(FieldOf(e, Sym("."), Token(Ident, name, 0)), Node("field", name, 0, false, l, Absent, []))
  {
  }

  lemma WrapFits(c: Cst, lvl: nat)
    requires Fits(c) && Starts(c) && lvl <= POSTFIX
    ensures Fits(Wrap(c, lvl)) && Starts(Wrap(c, lvl)) && ToTree(Wrap(c, lvl)) == ToTree(c) && Level(Wrap(c, lvl)) >= lvl
  {
  }

  lemma BinaryFits(t: Tree, full: bool)
    requires Printable(t) && t.tag == "binop"
    requires Good(Layout(t.left, full), t.left) && Good(Layout(t.right, full), t.right)
    ensures Good(Layout(t, full), t)
  {
    hide Wrap, Fits;
    var op := OpToken(t.text);
    WrapFits(Layout(t.left, full), LeftLevel(OpLevel(op)));
    WrapFits(Layout(t.right, full), RightLevel(OpLevel(op)));
    BinFits(op, Wrap(Layout(t.left, full), LeftLevel(OpLevel(op))), Wrap(Layout(t.right, full), RightLevel(OpLevel(op))), full);
  }

  lemma BinFits(op: Token, l: Cst, r: Cst, full: bool)
    requires OpLevel(op) > 0 && Fits(l) && Starts(l) && Fits(r) && Starts(r)
    requires Level(l) >= LeftLevel(OpLevel(op)) && Level(r) >= RightLevel(OpLevel(op))
    ensures Fits(Shown(Bin(op, l, r), full)) && Starts(Shown(Bin(op, l, r), full))
    ensures ToTree(Shown(Bin(op, l, r), full)) == Binary(op.text, ToTree(l), ToTree(r))
  {
    assert Fits(Bin(op, l, r)) && Starts(Bin(op, l, r));
  }

  // ----- printed tokens never look like a generic call -----

  /** No `]` stands right before a `(`: that is where a generic call could be seen. */
  predicate BracketsApart(ts: seq<Token>) {
    forall i :: 0 <= i < |ts| && ts[i].text == "]" ==> Text(ts, i + 1) != "("
  }

  lemma {:induction false} NoCallAhead(ts: seq<Token>, pos: nat, depth: int)
    requires BracketsApart(ts)
    ensures !CallAfterBracket(ts, pos, depth)
    decreases |ts| - pos
  {
    if pos < |ts| {
      NoCallAhead(ts, pos + 1, depth);
      NoCallAhead(ts, pos + 1, depth + 1);
      NoCallAhead(ts, pos + 1, depth - 1);
    }
  }

  lemma {:induction false} ApartIsNotGeneric(ts: seq<Token>, pos: nat, c: Cst)
    requires BracketsApart(ts)
    ensures NotGeneric(ts, pos, c)
    decreases c, 1
  {
    hide BracketsApart, CallAfterBracket;
    match c
    case Id(_) => NoCallAhead(ts, pos + 1, 0); NoCallAhead(ts, pos + 2, 0);
    case Paren(_, e, _) => ApartIsNotGeneric(ts, pos + 1, e);
    case Bin(_, l, r) => ApartIsNotGeneric(ts, pos, l); ApartIsNotGeneric(ts, pos + Width(l) + 1, r);
    case Un(_, e) => ApartIsNotGeneric(ts, pos + 1, e);
    case IndexOf(e, _, i, _) => ApartIsNotGeneric(ts, pos, e); ApartIsNotGeneric(ts, pos + Width(e) + 1, i);
    case SliceOf(e, _, i, _, j, _) =>
      ApartIsNotGeneric(ts, pos, e);
      ApartIsNotGeneric(ts, pos + Width(e) + 1, i);
      ApartIsNotGeneric(ts, pos + Width(e) + 1 + Width(i) + 1, j);
    case FieldOf(e, _, _) => ApartIsNotGeneric(ts, pos, e);
    case CallOf(e, _, args, _, _) => ApartIsNotGeneric(ts, pos, e); ApartAreNotGeneric(ts, pos + Width(e) + 1, args);
    case Array(_, args, _, _) => ApartAreNotGeneric(ts, pos + 1, args);
    case Pipe(l, _, t) => ApartIsNotGeneric(ts, pos, l); ApartIsNotGeneric(ts, pos + Width(l) + 1, t);
    case _ =>
  }

  lemma {:induction false} ApartAreNotGeneric(ts: seq<Token>, pos: nat, args: seq<Cst>)
    requires BracketsApart(ts)
    ensures NoneGeneric(ts, pos, args)
    decreases args, 0
  {
    hide BracketsApart;
    if args != [] {
      ApartIsNotGeneric(ts, pos, args[0]);
      ApartAreNotGeneric(ts, pos + Width(args[0]) + 1, args[1..]);
    }
  }

  lemma Prepended(t: Token, s: seq<Token>)
    requires t.text != "]" && BracketsApart(s)
    ensures BracketsApart([t] + s)
  {
    var r := [t] + s;
    forall i | 0 <= i < |r| && r[i].text == "]" ensures Text(r, i + 1) != "(" {
      assert r[i] == s[i - 1] && Text(r, i + 1) == Text(s, i);
    }
  }

  lemma Appended(s: seq<Token>, t: Token)
    requires t.text != "(" && BracketsApart(s)
    ensures BracketsApart(s + [t])
  {
    var r := s + [t];
    forall i | 0 <= i < |r| && r[i].text == "]" ensures Text(r, i + 1) != "(" {
      if i < |s| { assert r[i] == s[i]; }
    }
  }

  lemma Between(a: seq<Token>, t: Token, b: seq<Token>)
    requires t.text != "(" && t.text != "]" && BracketsApart(a) && BracketsApart(b)
    ensures BracketsApart(a + [t] + b)
  {
    var r := a + [t] + b;
    forall i | 0 <= i < |r| && r[i].text == "]" ensures Text(r, i + 1) != "(" {
      if i < |a| {
        assert r[i] == a[i] && (i + 1 < |a| ==> r[i + 1] == a[i + 1]);
      } else {
        assert i > |a| && r[i] == b[i - |a| - 1] && Text(r, i + 1) == Text(b, i - |a|);
      }
    }
  }

  lemma Parenthesised(c: Cst)
    requires BracketsApart(Tokens(c))
    ensures BracketsApart(Tokens(Paren(Sym("("), c, Sym(")"))))
  {
    hide BracketsApart;
    Prepended(Sym("("), Tokens(c));
    Appended([Sym("(")] + Tokens(c), Sym(")"));
  }

  lemma WrapClean(c: Cst, lvl: nat)
    requires BracketsApart(Tokens(c))
    ensures BracketsApart(Tokens(Wrap(c, lvl)))
  {
    hide BracketsApart, Tokens, Level;
    Parenthesised(c);
  }

  lemma {:induction false} LayoutClean(t: Tree, full: bool)
    requires Printable(t)
    ensures BracketsApart(Tokens(Layout(t, full)))
    decreases t
  {
    hide BracketsApart, Wrap, Tokens;
    if t.tag in {"int", "bool", "string", "ident", "addr"} {
      AtomClean(t, full);
    } else if t.tag == "binop" {
      LayoutClean(t.left, full);
      LayoutClean(t.right, full);
      BinaryClean(t, full);
    } else if t.tag in {"unaryop", "deref"} {
      LayoutClean(t.left, full);
      UnaryClean(t, full);
    } else if t.tag == "index" {
      LayoutClean(t.left, full);
      LayoutClean(t.right, full);
      WrapClean(Layout(t.left, full), POSTFIX);
      IndexClean(Wrap(Layout(t.left, full), POSTFIX), Layout(t.right, full));
    } else if t.tag == "slice" {
      LayoutClean(t.left, full);
      LayoutClean(t.right, full);
      LayoutClean(t.args[0], full);
      WrapClean(Layout(t.left, full), POSTFIX);
      SliceClean(Wrap(Layout(t.left, full), POSTFIX), Layout(t.right, full), Layout(t.args[0], full));
    } else {
      LayoutClean(t.left, full);
      WrapClean(Layout(t.left, full), POSTFIX);
      FieldClean(Wrap(Layout(t.left, full), POSTFIX), t.text);
    }
  }

  lemma AtomClean(t: Tree, full: bool)
    requires Printable(t) && t.tag in {"int", "bool", "string", "ident", "addr"}
    ensures BracketsApart(Tokens(Layout(t, full)))
  {
  }

  lemma UnaryClean(t: Tree, full: bool)
    requires Printable(t) && t.tag in {"unaryop", "deref"} && BracketsApart(Tokens(Layout(t.left, full)))
    ensures BracketsApart(Tokens(Layout(t, full)))
  {
    hide BracketsApart, Wrap, Layout;
    WrapClean(Layout(t.left, full), UNARY);
    UnaryLayout(t, full);
    var op := if t.tag == "deref" then Sym("@") else Sym(t.text);
    var e := Un(op, Wrap(Layout(t.left, full), UNARY));
    Prepended(op, Tokens(e.e));
    Parenthesised(e);
  }

  lemma IndexClean(e: Cst, i: Cst)
    requires BracketsApart(Tokens(e)) && BracketsApart(Tokens(i))
    ensures BracketsApart(Tokens(IndexOf(e, Sym("["), i, Sym("]"))))
  {
    hide BracketsApart;
    Between(Tokens(e), Sym("["), Tokens(i));
    Appended(Tokens(e) + [Sym("[")] + Tokens(i), Sym("]"));
  }

  lemma SliceClean(e: Cst, i: Cst, j: Cst)
    requires BracketsApart(Tokens(e)) && BracketsApart(Tokens(i)) && BracketsApart(Tokens(j))
    ensures BracketsApart(Tokens(SliceOf(e, Sym("["), i, Sym(".."), j, Sym("]"))))
  {
    hide BracketsApart;
    Between(Tokens(e), Sym("["), Tokens(i));
    Between(Tokens(e) + [Sym("[")] + Tokens(i), Sym(".."), Tokens(j));
    Appended(Tokens(e) + [Sym("[")] + Tokens(i) + [Sym("..")] + Tokens(j), Sym("]"));
  }

  lemma FieldClean(e: Cst, name: string)
    requires BracketsApart(Tokens(e)) && IsName(name)
    ensures BracketsApart(Tokens(FieldOf(e, Sym("."), Token(Ident, name, 0))))
  {
    hide BracketsApart;
    Appended(Tokens(e), Sym("."));
    Appended(Tokens(e) + [Sym(".")], Token(Ident, name, 0));
    assert Tokens(e) + [Sym(".")] + [Token(Ident, name, 0)] == Tokens(e) + [Sym("."), Token(Ident, name, 0)];
  }

  lemma BinaryClean(t: Tree, full: bool)
    requires Printable(t) && t.tag == "binop"
    requires BracketsApart(Tokens(Layout(t.left, full))) && BracketsApart(Tokens(Layout(t.right, full)))
    ensures BracketsApart(Tokens(Layout(t, full)))
  {
    hide BracketsApart, Wrap;
    var op := OpToken(t.text);
    WrapClean(Layout(t.left, full), LeftLevel(OpLevel(op)));
    WrapClean(Layout(t.right, full), RightLevel(OpLevel(op)));
    var c := Bin(op, Wrap(Layout(t.left, full), LeftLevel(OpLevel(op))), Wrap(Layout(t.right, full), RightLevel(OpLevel(op))));
    Between(Tokens(c.l), op, Tokens(c.r));
    Parenthesised(c);
  }

  // ----- the debugging printer is the full layout -----

  lemma {:induction false} DebugIsFullLayout(t: Tree)
    requires Printable(t) && Unbased(t)
    ensures Tokens(Layout(t, true)) == Debug(t)
    ensures Level(Layout(t, true)) >= UNARY && (Base(t) ==> Level(Layout(t, true)) == POSTFIX)
    decreases t
  {
    hide Tokens, Layout, Debug, Level;
    if t.tag in {"int", "bool", "string", "ident", "addr"} {
      DebugAtom(t);
    } else if t.tag == "binop" {
      DebugIsFullLayout(t.left);
      DebugIsFullLayout(t.right);
      DebugBinary(t);
    } else if t.tag in {"unaryop", "deref"} {
      DebugIsFullLayout(t.left);
      DebugUnary(t);
    } else if t.tag == "index" {
      DebugIsFullLayout(t.left);
      DebugIsFullLayout(t.right);
      DebugIndex(t);
    } else if t.tag == "slice" {
      DebugIsFullLayout(t.left);
      DebugIsFullLayout(t.right);
      DebugIsFullLayout(t.args[0]);
      DebugSlice(t);
    } else {
      DebugIsFullLayout(t.left);
      DebugField(t);
    }
  }

  lemma DebugAtom(t: Tree)
    requires Printable(t) && t.tag in {"int", "bool", "string", "ident", "addr"}
    ensures Tokens(Layout(t, true)) == Debug(t) && Level(Layout(t, true)) >= UNARY
    ensures Base(t) ==> Level(Layout(t, true)) == POSTFIX
  {
  }

  ghost predicate Same(c: Cst, s: seq<Token>) {
    Tokens(c) == s && Level(c) == POSTFIX
  }

  lemma SameIndex(e: Cst, a: seq<Token>, i: Cst, b: seq<Token>)
    requires Same(e, a) && Tokens(i) == b
    ensures Same(IndexOf(Wrap(e, POSTFIX), Sym("["), i, Sym("]")), a + [Sym("[")] + b + [Sym("]")])
  {
  }

  lemma SameSlice(e: Cst, a: seq<Token>, i: Cst, b: seq<Token>, j: Cst, d: seq<Token>)
    requires Same(e, a) && Tokens(i) == b && Tokens(j) == d
    ensures Same(SliceOf(Wrap(e, POSTFIX), Sym("["), i, Sym(".."), j, Sym("]")), a + [Sym("[")] + b + [Sym("..")] + d + [Sym("]")])
  {
  }

  lemma DebugIndex(t: Tree)
    requires Printable(t) && t.tag == "index"
    requires Same(Layout(t.left, true), Debug(t.left)) && Tokens(Layout(t.right, true)) == Debug(t.right)
    ensures Same(Layout(t, true), Debug(t))
  {
    hide Tokens, Same, Wrap;
    SameIndex(Layout(t.left, true), Debug(t.left), Layout(t.right, true), Debug(t.right));
  }

  lemma DebugSlice(t: Tree)
    requires Printable(t) && t.tag == "slice"
    requires Same(Layout(t.left, true), Debug(t.left)) && Tokens(Layout(t.right, true)) == Debug(t.right)
    requires Tokens(Layout(t.args[0], true)) == Debug(t.args[0])
    ensures Same(Layout(t, true), Debug(t))
  {
    hide Tokens, Same, Wrap;
    SameSlice(Layout(t.left, true), Debug(t.left), Layout(t.right, true), Debug(t.right), Layout(t.args[0], true), Debug(t.args[0]));
  }

  lemma SameField(e: Cst, a: seq<Token>, name: Token)
    requires Same(e, a)
    ensures Same(FieldOf(Wrap(e, POSTFIX), Sym("."), name), a + [Sym("."), name])
  {
  }

  lemma DebugField(t: Tree)
    requires Printable(t) && t.tag == "field" && Same(Layout(t.left, true), Debug(t.left))
    ensures Same(Layout(t, true), Debug(t))
  {
    hide Tokens, Same, Wrap;
    SameField(Layout(t.left, true), Debug(t.left), Token(Ident, t.text, 0));
  }

  lemma DebugBinary(t: Tree)
    requires Printable(t) && t.tag == "binop"
    requires Tokens(Layout(t.left, true)) == Debug(t.left) && Tokens(Layout(t.right, true)) == Debug(t.right)
    requires Level(Layout(t.left, true)) >= UNARY && Level(Layout(t.right, true)) >= UNARY
    ensures Tokens(Layout(t, true)) == Debug(t) && Level(Layout(t, true)) == POSTFIX
  {
    hide Tokens, Debug;
    BinaryDebug(t);
    SameBinary(Layout(t.left, true), OpToken(t.text), Layout(t.right, true));
  }

  lemma BinaryDebug(t: Tree)
    requires Printable(t) && t.tag == "binop"
    ensures Debug(t) == [Sym("(")] + Debug(t.left) + [OpToken(t.text)] + Debug(t.right) + [Sym(")")]
  {
  }

  lemma SameBinary(l: Cst, op: Token, r: Cst)
    ensures Tokens(Paren(Sym("("), Bin(op, l, r), Sym(")"))) == [Sym("(")] + Tokens(l) + [op] + Tokens(r) + [Sym(")")]
  {
    var (a, b) := (Tokens(l), Tokens(r));
    assert Tokens(Bin(op, l, r)) == a + [op] + b;
    assert [Sym("(")] + (a + [op] + b) + [Sym(")")] == [Sym("(")] + a + [op] + b + [Sym(")")];
  }

  lemma DebugUnary(t: Tree)
    requires Printable(t) && t.tag in {"unaryop", "deref"}
    requires Tokens(Layout(t.left, true)) == Debug(t.left) && Level(Layout(t.left, true)) >= UNARY
    ensures Tokens(Layout(t, true)) == Debug(t) && Level(Layout(t, true)) == if t.tag == "deref" then UNARY else POSTFIX
  {
    hide Layout, Tokens, Debug;
    UnaryLayout(t, true);
    UnaryDebug(t);
    UnaryTokens(Layout(t.left, true), t.text);
  }

  lemma UnaryDebug(t: Tree)
    requires Printable(t) && t.tag in {"unaryop", "deref"}
    ensures Debug(t) == if t.tag == "deref" then [Sym("@")] + Debug(t.left) else [Sym("("), Sym(t.text)] + Debug(t.left) + [Sym(")")]
  {
  }

  lemma UnaryTokens(e: Cst, op: string)
    ensures Tokens(Un(Sym("@"), e)) == [Sym("@")] + Tokens(e)
    ensures Tokens(Paren(Sym("("), Un(Sym(op), e), Sym(")"))) == [Sym("("), Sym(op)] + Tokens(e) + [Sym(")")]
  {
    assert [Sym("(")] + ([Sym(op)] + Tokens(e)) + [Sym(")")] == [Sym("("), Sym(op)] + Tokens(e) + [Sym(")")];
  }

  // ----- the main results -----

  /** Printing with or without redundant parentheses, and parsing what was printed, gives
      the tree back and consumes exactly its tokens. */
  lemma LayoutRoundTrips(t: Tree, full: bool)
    requires Printable(t)
    ensures var s := Tokens(Layout(t, full));
            var r := ParseExpression(s + [END], 0);
            r.Ok? && r.next == |s| && ToTree(r.value) == t
  {
    hide Printable, Layout, Fits, BracketsApart, ParseExpression;
    var c := Layout(t, full);
    var ts := Tokens(c) + [END];
    LayoutFits(t, full);
    LayoutClean(t, full);
    Appended(Tokens(c), END);
    ApartIsNotGeneric(ts, 0, c);
    assert ts[0..0 + |Tokens(c)|] == Tokens(c);
    ExpressionParses(ts, 0, c);
  }

  /** Parsing undoes the debugging printer. */
  lemma ParsingUndoesDebug(t: Tree)
    requires Printable(t) && Unbased(t)
    ensures var r := ParseExpression(Debug(t) + [END], 0);
            r.Ok? && r.next == |Debug(t)| && ToTree(r.value) == t
  {
    DebugIsFullLayout(t);
    LayoutRoundTrips(t, true);
  }

  function IndexTree(e: Tree, i: Tree): Tree {
    Node("index", "", 0, false, e, i, [])
  }

  lemma IndexDebug(e: Tree, i: Tree)
    requires Printable(e) && Printable(i)
    ensures Printable(IndexTree(e, i))
    ensures Debug(IndexTree(e, i)) == Debug(e) + [Sym("[")] + Debug(i) + [Sym("]")]
  {
  }

  lemma DerefDebug(e: Tree)
    requires Printable(e)
    ensures Printable(Unary("@", e)) && Debug(Unary("@", e)) == [Sym("@")] + Debug(e)
  {
  }

  /** It cannot without that condition: for every base and index these two different trees
      are printed alike, so no parser could tell them apart. */
  lemma DebugConfusesDerefs(e: Tree, i: Tree)
    requires Printable(e) && Printable(i)
    ensures Printable(IndexTree(Unary("@", e), i)) && Printable(Unary("@", IndexTree(e, i)))
    ensures IndexTree(Unary("@", e), i) != Unary("@", IndexTree(e, i))
    ensures Debug(IndexTree(Unary("@", e), i)) == Debug(Unary("@", IndexTree(e, i)))
  {
    hide Printable, Debug;
    DerefDebug(e);
    IndexDebug(Unary("@", e), i);
    IndexDebug(e, i);
    DerefDebug(IndexTree(e, i));
    var (a, b) := (Debug(e), Debug(i));
    assert [Sym("@")] + a + [Sym("[")] + b + [Sym("]")] == [Sym("@")] + (a + [Sym("[")] + b + [Sym("]")]);
  }
}
