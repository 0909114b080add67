/**
  Every piece of concrete syntax is parsed to itself.
 */
module ParsingComplete {
  import opened Syntax
  import opened Parsing

  predicate Occurs(ts: seq<Token>, pos: nat, s: seq<Token>) {
    pos + |s| <= |ts| && ts[pos..pos + |s|] == s
  }

  lemma Split(ts: seq<Token>, pos: nat, a: seq<Token>, b: seq<Token>)
    ensures Occurs(ts, pos, a + b) <==> Occurs(ts, pos, a) && Occurs(ts, pos + |a|, b)
  {
    if Occurs(ts, pos, a + b) {
      assert ts[pos..pos + |a|] == (a + b)[..|a|];
      assert ts[pos + |a|..pos + |a| + |b|] == (a + b)[|a|..];
    }
    if Occurs(ts, pos, a) && Occurs(ts, pos + |a|, b) {
      assert ts[pos..pos + |a + b|] == ts[pos..pos + |a|] + ts[pos + |a|..pos + |a| + |b|];
    }
  }

  lemma One(ts: seq<Token>, pos: nat, t: Token)
    ensures Occurs(ts, pos, [t]) <==> pos < |ts| && ts[pos] == t
  {
  }

  /** A token after which an expression of this level is complete. */
  predicate Follow(t: Token, lvl: nat) {
    && t.text !in {"[", ".", "(", "::", "{"}
    && (OpLevel(t) == 0 || OpLevel(t) < lvl)
    && (lvl == 0 ==> t.text != "|>")
  }

  /** A token that a name may have after it when it is an operand that goes on. */
  predicate TailOk(ts: seq<Token>, c: Cst, n: nat) {
    c.Id? ==> Text(ts, n) !in {"::", "{"} && (Text(ts, n) == "(" ==> c.tok.text == "None")
  }

  function Width(c: Cst): nat {
    |Tokens(c)|
  }

  /** No name that is an operand here looks like the start of a generic call. The names of
      fields and of what is borrowed are not looked at. */
  predicate NotGeneric(ts: seq<Token>, pos: nat, c: Cst)
    decreases c, 1
  {
    match c
    case Id(t) => t.text == "None" || !GenericCallAhead(ts, pos + 1)
    case Paren(_, e, _) => NotGeneric(ts, pos + 1, e)
    case Bin(_, l, r) => NotGeneric(ts, pos, l) && NotGeneric(ts, pos + Width(l) + 1, r)
    case Un(_, e) => NotGeneric(ts, pos + 1, e)
    case IndexOf(e, _, i, _) => NotGeneric(ts, pos, e) && NotGeneric(ts, pos + Width(e) + 1, i)
    case SliceOf(e, _, i, _, j, _) =>
      var n := pos + Width(e) + 1;
      NotGeneric(ts, pos, e) && NotGeneric(ts, n, i) && NotGeneric(ts, n + Width(i) + 1, j)
    case FieldOf(e, _, _) => NotGeneric(ts, pos, e)
    case CallOf(e, _, args, _, _) => NotGeneric(ts, pos, e) && NoneGeneric(ts, pos + Width(e) + 1, args)
    case Array(_, args, _, _) => NoneGeneric(ts, pos + 1, args)
    case Pipe(l, _, t) => NotGeneric(ts, pos, l) && NotGeneric(ts, pos + Width(l) + 1, t)
    case _ => true
  }

  predicate NoneGeneric(ts: seq<Token>, pos: nat, args: seq<Cst>)
    decreases args, 0
  {
    args != [] ==> NotGeneric(ts, pos, args[0]) && NoneGeneric(ts, pos + Width(args[0]) + 1, args[1..])
  }

  lemma {:induction false} NotEmpty(c: Cst)
    requires Fits(c)
    ensures Width(c) > 0
  {
    match c
    case Bin(_, l, _) => NotEmpty(l);
    case IndexOf(e, _, _, _) => NotEmpty(e);
    case SliceOf(e, _, _, _, _, _) => NotEmpty(e);
    case FieldOf(e, _, _) => NotEmpty(e);
    case CallOf(e, _, _, _, _) => NotEmpty(e);
    case Pipe(l, _, _) => NotEmpty(l);
    case _ =>
  }

  /** A place in a token stream where a piece of syntax stands. */
  predicate Here(ts: seq<Token>, pos: nat, c: Cst) {
    Fits(c) && NotGeneric(ts, pos, c) && Occurs(ts, pos, Tokens(c))
  }

  // ----- operands -----

  lemma {:induction false} PostfixGoesOn(ts: seq<Token>, pos: nat, c: Cst)
    requires Here(ts, pos, c) && Level(c) == POSTFIX && TailOk(ts, c, pos + Width(c))
    ensures ParsePostfix(ts, pos) == PostfixRest(ts, c, pos + Width(c))
    decreases c, 1
  {
    hide Fits, NotGeneric;
    match c
    case Lit(t) => assert ts[pos] == t by { One(ts, pos, t); } LitParses(ts, pos, c);
    case Nil(t) => assert ts[pos] == t by { One(ts, pos, t); } LitParses(ts, pos, c);
    case Id(t) => assert ts[pos] == t by { One(ts, pos, t); } NameParses(ts, pos, c);
    case Paren(_, _, _) => ParenParses(ts, pos, c);
    case Array(_, _, _, _) => ArrayParses(ts, pos, c);
    case IndexOf(_, _, _, _) => IndexGoesOn(ts, pos, c);
    case SliceOf(_, _, _, _, _, _) => SliceGoesOn(ts, pos, c);
    case FieldOf(_, _, _) => FieldGoesOn(ts, pos, c);
    case CallOf(_, _, _, _, _) => CallGoesOn(ts, pos, c);
  }

  lemma LitParses(ts: seq<Token>, pos: nat, c: Cst)
    requires Fits(c) && (c.Lit? || c.Nil?) && pos < |ts| && ts[pos] == c.tok
    ensures ParsePostfix(ts, pos) == PostfixRest(ts, c, pos + 1)
  {
    hide PostfixRest;
    assert ParsePrimary(ts, pos) == Ok(c, pos + 1);
  }

  lemma NameParses(ts: seq<Token>, pos: nat, c: Cst)
    requires Fits(c) && c.Id? && pos < |ts| && ts[pos] == c.tok && TailOk(ts, c, pos + 1) && NotGeneric(ts, pos, c)
    ensures ParsePostfix(ts, pos) == PostfixRest(ts, c, pos + 1)
  {
    hide PostfixRest;
    assert ParseName(ts, pos) == Ok(c, pos + 1);
    assert ParsePrimary(ts, pos) == ParseName(ts, pos);
  }

  lemma {:induction false} ParenParses(ts: seq<Token>, pos: nat, c: Cst)
    requires Here(ts, pos, c) && c.Paren?
    ensures ParsePostfix(ts, pos) == PostfixRest(ts, c, pos + Width(c))
    decreases c, 0
  {
    hide PostfixRest, Occurs;
    var n := pos + 1 + Width(c.inner);
    Split(ts, pos, [c.open] + Tokens(c.inner), [c.close]);
    Split(ts, pos, [c.open], Tokens(c.inner));
    One(ts, pos, c.open);
    One(ts, n, c.close);
    ExpressionParses(ts, pos + 1, c.inner);
    assert ParsePrimary(ts, pos) == Ok(c, n + 1);
  }

  lemma {:induction false} ArrayParses(ts: seq<Token>, pos: nat, c: Cst)
    requires Here(ts, pos, c) && c.Array?
    ensures ParsePostfix(ts, pos) == PostfixRest(ts, c, pos + Width(c))
    decreases c, 0
  {
    hide PostfixRest, Occurs, ParseList;
    var list := ListTokens(c.args, c.commas);
    Split(ts, pos, [c.open] + list, [c.close]);
    Split(ts, pos, [c.open], list);
    One(ts, pos, c.open);
    ListParses(ts, pos + 1, c.args, c.commas, c.close);
    assert ParsePrimary(ts, pos) == Ok(c, pos + Width(c));
  }

  lemma {:induction false} IndexGoesOn(ts: seq<Token>, pos: nat, c: Cst)
    requires Here(ts, pos, c) && c.IndexOf?
    ensures ParsePostfix(ts, pos) == PostfixRest(ts, c, pos + Width(c))
    decreases c, 0
  {
    hide Occurs, ParsePostfix, ParseExpression;
    var n := pos + Width(c.e);
    var k := n + 1 + Width(c.i);
    Split(ts, pos, Tokens(c.e) + [c.open] + Tokens(c.i), [c.close]);
    Split(ts, pos, Tokens(c.e) + [c.open], Tokens(c.i));
    Split(ts, pos, Tokens(c.e), [c.open]);
    One(ts, n, c.open);
    One(ts, k, c.close);
    PostfixGoesOn(ts, pos, c.e);
    ExpressionParses(ts, n + 1, c.i);
    assert PostfixOne(ts, c.e, n) == Ok(c, k + 1);
  }

  lemma SliceParts(ts: seq<Token>, pos: nat, c: Cst)
    requires Here(ts, pos, c) && c.SliceOf?
    ensures var n := pos + Width(c.e);
            var k := n + 1 + Width(c.i);
            var m := k + 1 + Width(c.j);
            && Here(ts, pos, c.e) && Here(ts, n + 1, c.i) && Here(ts, k + 1, c.j) && pos + Width(c) == m + 1
            && n < k < m < |ts| && ts[n] == c.open && ts[k] == c.dots && ts[m] == c.close
  {
    hide Occurs, GenericCallAhead;
    var n := pos + Width(c.e);
    var k := n + 1 + Width(c.i);
    Split(ts, pos, Tokens(c.e) + [c.open] + Tokens(c.i) + [c.dots] + Tokens(c.j), [c.close]);
    Split(ts, pos, Tokens(c.e) + [c.open] + Tokens(c.i) + [c.dots], Tokens(c.j));
    Split(ts, pos, Tokens(c.e) + [c.open] + Tokens(c.i), [c.dots]);
    Split(ts, pos, Tokens(c.e) + [c.open], Tokens(c.i));
    Split(ts, pos, Tokens(c.e), [c.open]);
    One(ts, n, c.open);
    One(ts, k, c.dots);
    One(ts, k + 1 + Width(c.j), c.close);
  }

  lemma {:induction false} SliceGoesOn(ts: seq<Token>, pos: nat, c: Cst)
    requires Here(ts, pos, c) && c.SliceOf?
    ensures ParsePostfix(ts, pos) == PostfixRest(ts, c, pos + Width(c))
    decreases c, 0
  {
    hide Occurs, ParsePostfix, ParseExpression, NotGeneric;
    var n := pos + Width(c.e);
    var k := n + 1 + Width(c.i);
    SliceParts(ts, pos, c);
    PostfixGoesOn(ts, pos, c.e);
    ExpressionParses(ts, n + 1, c.i);
    ExpressionParses(ts, k + 1, c.j);
    assert PostfixOne(ts, c.e, n) == Ok(c, k + 1 + Width(c.j) + 1);
  }

  lemma {:induction false} FieldGoesOn(ts: seq<Token>, pos: nat, c: Cst)
    requires Here(ts, pos, c) && c.FieldOf?
    ensures ParsePostfix(ts, pos) == PostfixRest(ts, c, pos + Width(c))
    decreases c, 0
  {
    hide Occurs, ParsePostfix;
    var n := pos + Width(c.e);
    assert Tokens(c.e) + [c.dot, c.name] == Tokens(c.e) + [c.dot] + [c.name];
    Split(ts, pos, Tokens(c.e) + [c.dot], [c.name]);
    Split(ts, pos, Tokens(c.e), [c.dot]);
    One(ts, n, c.dot);
    One(ts, n + 1, c.name);
    PostfixGoesOn(ts, pos, c.e);
    assert PostfixOne(ts, c.e, n) == Ok(c, n + 2);
  }

  lemma {:induction false} CallGoesOn(ts: seq<Token>, pos: nat, c: Cst)
    requires Here(ts, pos, c) && c.CallOf?
    ensures ParsePostfix(ts, pos) == PostfixRest(ts, c, pos + Width(c))
    decreases c, 0
  {
    hide Occurs, ParseList;
    var n := pos + Width(c.e);
    var list := ListTokens(c.args, c.commas);
    Split(ts, pos, Tokens(c.e) + [c.open] + list, [c.close]);
    Split(ts, pos, Tokens(c.e) + [c.open], list);
    Split(ts, pos, Tokens(c.e), [c.open]);
    One(ts, n, c.open);
    ListParses(ts, n + 1, c.args, c.commas, c.close);
    if c.e.Id? && c.e.tok.text != "None" {
      One(ts, pos, c.e.tok);
      assert Fits(c.e);
      assert ParseName(ts, pos) == Ok(c, pos + Width(c));
      assert ParsePrimary(ts, pos) == ParseName(ts, pos);
    } else {
      PostfixGoesOn(ts, pos, c.e);
      assert PostfixOne(ts, c.e, n) == Ok(c, pos + Width(c));
    }
  }

  /** A list up to and with its closing token. */
  lemma {:induction false} ListParses(ts: seq<Token>, pos: nat, args: seq<Cst>, commas: seq<Token>, close: Token)
    requires NoneGeneric(ts, pos, args) && AllFit(args) && Commas(args, commas) && NotClosing(args, close.text)
    requires close.text in {")", "]"}
    requires Occurs(ts, pos, ListTokens(args, commas)) && Occurs(ts, pos + |ListTokens(args, commas)|, [close])
    ensures ParseList(ts, pos, close.text) == Ok(List(args, commas, close), pos + |ListTokens(args, commas)| + 1)
    decreases args, 1
  {
    hide ParseItems;
    if args == [] {
      One(ts, pos, close);
    } else {
      NotEmpty(args[0]);
      if |args| > 1 { Split(ts, pos, Tokens(args[0]) + [commas[0]], ListTokens(args[1..], commas[1..])); Split(ts, pos, Tokens(args[0]), [commas[0]]); }
      assert ts[pos] == Tokens(args[0])[0];
      ItemsParse(ts, pos, args, commas, close);
    }
  }

  lemma ItemsParts(ts: seq<Token>, pos: nat, args: seq<Cst>, commas: seq<Token>)
    requires |args| > 1 && Commas(args, commas) && Occurs(ts, pos, ListTokens(args, commas))
    ensures var rest := ListTokens(args[1..], commas[1..]);
            && Occurs(ts, pos, Tokens(args[0])) && Occurs(ts, pos + Width(args[0]) + 1, rest)
            && pos + Width(args[0]) < |ts| && ts[pos + Width(args[0])] == commas[0]
            && |ListTokens(args, commas)| == Width(args[0]) + 1 + |rest|
  {
    hide Occurs;
    Split(ts, pos, Tokens(args[0]) + [commas[0]], ListTokens(args[1..], commas[1..]));
    Split(ts, pos, Tokens(args[0]), [commas[0]]);
    One(ts, pos + Width(args[0]), commas[0]);
  }

  lemma {:induction false} ItemsParse(ts: seq<Token>, pos: nat, args: seq<Cst>, commas: seq<Token>, close: Token)
    requires NoneGeneric(ts, pos, args) && AllFit(args) && Commas(args, commas) && args != []
    requires close.text in {")", "]"}
    requires Occurs(ts, pos, ListTokens(args, commas)) && Occurs(ts, pos + |ListTokens(args, commas)|, [close])
    ensures ParseItems(ts, pos, close.text) == Ok(List(args, commas, close), pos + |ListTokens(args, commas)| + 1)
    decreases args, 0
  {
    hide Occurs, ParseExpression, Fits, Starts;
    var n := pos + Width(args[0]);
    if |args| == 1 {
      One(ts, n, close);
      ExpressionParses(ts, pos, args[0]);
      assert args == [args[0]] && commas == [];
    } else {
      ItemsParts(ts, pos, args, commas);
      ExpressionParses(ts, pos, args[0]);
      ItemsParse(ts, n + 1, args[1..], commas[1..], close);
      assert args == [args[0]] + args[1..] && commas == [commas[0]] + commas[1..];
    }
  }

  // ----- operators -----

  lemma {:induction false} UnaryParses(ts: seq<Token>, pos: nat, c: Cst)
    requires Here(ts, pos, c) && Starts(c) && Level(c) >= UNARY && Follow(At(ts, pos + Width(c)), UNARY)
    ensures ParseUnary(ts, pos) == Ok(c, pos + Width(c))
    decreases c, 2
  {
    hide Occurs, ParsePostfix;
    if c.Un? {
      Split(ts, pos, [c.op], Tokens(c.e));
      One(ts, pos, c.op);
      UnaryParses(ts, pos + 1, c.e);
    } else if c.Borrow? {
      BorrowParses(ts, pos, c);
    } else {
      NotEmpty(c);
      First(ts, pos, Tokens(c));
      PostfixGoesOn(ts, pos, c);
    }
  }

  lemma First(ts: seq<Token>, pos: nat, s: seq<Token>)
    requires Occurs(ts, pos, s) && s != []
    ensures pos < |ts| && ts[pos] == s[0]
  {
  }

  lemma BorrowParses(ts: seq<Token>, pos: nat, c: Cst)
    requires Fits(c) && c.Borrow? && Occurs(ts, pos, Tokens(c))
    ensures ParseUnary(ts, pos) == Ok(c, pos + Width(c))
  {
    var n := |c.mut|;
    assert |Tokens(c)| == n + 2 && Tokens(c)[0] == c.op && Tokens(c)[n + 1] == c.name;
    TokenOf(ts, pos, Tokens(c), 0);
    TokenOf(ts, pos, Tokens(c), n + 1);
    if n > 0 {
      TokenOf(ts, pos, Tokens(c), 1);
      assert Tokens(c)[1] == c.mut[0] && c.mut == [c.mut[0]];
    }
    assert ParseBorrow(ts, pos) == Ok(c, pos + 2 + n);
  }

  lemma TokenOf(ts: seq<Token>, pos: nat, s: seq<Token>, i: nat)
    requires Occurs(ts, pos, s) && i < |s|
    ensures pos + i < |ts| && ts[pos + i] == s[i]
  {
    assert ts[pos..pos + |s|][i] == ts[pos + i];
  }

  /** The levels that group to the left read on from what they have. */
  lemma {:induction false} BinaryGoesOn(ts: seq<Token>, pos: nat, c: Cst, lvl: nat)
    requires Here(ts, pos, c) && Starts(c) && 1 <= lvl < UNARY && LeftLevel(lvl) == lvl
    requires Level(c) >= lvl && Follow(At(ts, pos + Width(c)), lvl + 1)
    ensures ParseBinary(ts, pos, lvl) == BinaryRest(ts, lvl, c, pos + Width(c))
    decreases c, 14 - lvl, 0
  {
    hide Occurs, Fits;
    if Level(c) > lvl {
      BinaryParses(ts, pos, c, lvl + 1);
    } else {
      BinParts(ts, pos, c);
      BinaryGoesOn(ts, pos, c.l, lvl);
      BinaryParses(ts, pos + Width(c.l) + 1, c.r, lvl + 1);
    }
  }

  lemma BinParts(ts: seq<Token>, pos: nat, c: Cst)
    requires Here(ts, pos, c) && c.Bin?
    ensures Here(ts, pos, c.l) && Here(ts, pos + Width(c.l) + 1, c.r) && Starts(c.l) && Starts(c.r)
    ensures pos + Width(c.l) < |ts| && ts[pos + Width(c.l)] == c.op
    ensures Width(c) == Width(c.l) + 1 + Width(c.r)
    ensures Level(c.l) >= LeftLevel(OpLevel(c.op)) && Level(c.r) >= RightLevel(OpLevel(c.op))
    ensures OpLevel(c.op) > 0 && Follow(c.op, OpLevel(c.op) + 1)
  {
    hide Occurs;
    Split(ts, pos, Tokens(c.l) + [c.op], Tokens(c.r));
    Split(ts, pos, Tokens(c.l), [c.op]);
    One(ts, pos + Width(c.l), c.op);
  }

  lemma {:induction false} BinaryParses(ts: seq<Token>, pos: nat, c: Cst, lvl: nat)
    requires Here(ts, pos, c) && Starts(c) && 1 <= lvl <= UNARY
    requires Level(c) >= lvl && Follow(At(ts, pos + Width(c)), lvl)
    ensures ParseBinary(ts, pos, lvl) == Ok(c, pos + Width(c))
    decreases c, 14 - lvl, 1
  {
    hide Occurs, Fits, ParseUnary;
    if lvl == UNARY {
      UnaryParses(ts, pos, c);
    } else if LeftLevel(lvl) == lvl {
      BinaryGoesOn(ts, pos, c, lvl);
    } else if Level(c) > lvl {
      BinaryParses(ts, pos, c, lvl + 1);
    } else {
      BinParts(ts, pos, c);
      BinaryParses(ts, pos, c.l, lvl + 1);
      BinaryParses(ts, pos + Width(c.l) + 1, c.r, RightLevel(lvl));
    }
  }

  lemma {:induction false} ExpressionGoesOn(ts: seq<Token>, pos: nat, c: Cst)
    requires Here(ts, pos, c) && Starts(c) && Follow(At(ts, pos + Width(c)), 1)
    ensures ParseExpression(ts, pos) == PipeRest(ts, c, pos + Width(c))
    decreases c, 16
  {
    hide Occurs, ParseBinary, ParsePostfix, Fits, Width, Here, Starts, StartsIndexed;
    if c.Pipe? {
      var n := pos + Width(c.l);
      PipeParts(ts, pos, c);
      ExpressionGoesOn(ts, pos, c.l);
      NotIndexed(ts, n + 1, c.t);
      TargetParses(ts, n + 1, c.t);
    } else {
      NotAPipe(ts, pos, c);
      BinaryParses(ts, pos, c, 1);
    }
  }

  lemma NotAPipe(ts: seq<Token>, pos: nat, c: Cst)
    requires Here(ts, pos, c) && !c.Pipe?
    ensures Level(c) >= 1
  {
    hide Occurs;
  }

  lemma PipeParts(ts: seq<Token>, pos: nat, c: Cst)
    requires Here(ts, pos, c) && c.Pipe?
    ensures var n := pos + Width(c.l);
            && Here(ts, pos, c.l) && Starts(c.l) && n < |ts| && ts[n] == c.op && c.op.text == "|>"
            && Here(ts, n + 1, c.t) && Fits(c.t) && Occurs(ts, n + 1, Tokens(c.t)) && Level(c.t) == POSTFIX && !StartsIndexed(c.t)
            && (HasTag(ToTree(c.t), "call") || HasTag(ToTree(c.t), "ident")) && Width(c) == Width(c.l) + 1 + Width(c.t)
  {
    hide Occurs;
    Split(ts, pos, Tokens(c.l) + [c.op], Tokens(c.t));
    Split(ts, pos, Tokens(c.l), [c.op]);
    One(ts, pos + Width(c.l), c.op);
  }

  lemma NotIndexed(ts: seq<Token>, pos: nat, c: Cst)
    requires Fits(c) && Occurs(ts, pos, Tokens(c)) && !StartsIndexed(c)
    requires Text(ts, pos + Width(c)) != "["
    ensures !(At(ts, pos).kind == Ident && Text(ts, pos + 1) == "[")
  {
    NotEmpty(c);
    First(ts, pos, Tokens(c));
    if Width(c) > 1 { assert ts[pos + 1] == Tokens(c)[1]; }
  }

  /** The target of a pipe: an operand, and not one that looks like a generic call. */
  lemma {:induction false} TargetParses(ts: seq<Token>, pos: nat, c: Cst)
    requires Here(ts, pos, c) && Level(c) == POSTFIX && Follow(At(ts, pos + Width(c)), 1)
    requires HasTag(ToTree(c), "call") || HasTag(ToTree(c), "ident")
    ensures ParsePostfix(ts, pos) == Ok(c, pos + Width(c))
    decreases c, 3
  {
    hide Occurs, Fits;
    PostfixGoesOn(ts, pos, c);
  }

  lemma {:induction false} ExpressionParses(ts: seq<Token>, pos: nat, c: Cst)
    requires Here(ts, pos, c) && Starts(c) && Follow(At(ts, pos + Width(c)), 0)
    ensures ParseExpression(ts, pos) == Ok(c, pos + Width(c))
    decreases c, 17
  {
    hide Occurs, Fits;
    ExpressionGoesOn(ts, pos, c);
  }
}
