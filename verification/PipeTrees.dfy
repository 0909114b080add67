/**
  The trees of calls and pipes, written out.
 */
module PipeTrees {
  import opened Syntax
  import opened Parsing
  import opened ParsingComplete
  import opened Precedence

  /** A name that a call goes to by name. */
  predicate Callable(f: Token) {
    f.kind == Ident && f.text !in {"fn", "None", "Some"}
  }

  function NodeOf(tag: string, text: string, left: Tree, args: seq<Tree>): Tree {
    Node(tag, text, 0, false, left, Absent, args)
  }

  /** A name is called by name, a field as a method, anything else as a value; `Some` makes
      an option. */
  lemma CallsAre(e: Cst, open: Token, args: seq<Cst>, commas: seq<Token>, close: Token)
    requires e.Id? || e.FieldOf? || e.IndexOf? || e.SliceOf? || (e.CallOf? && !(e.e.Id? && e.e.tok.text == "Some"))
    requires e.Id? ==> e.tok.text != "None" && (e.tok.text == "Some" ==> |args| == 1)
    ensures ToTree(CallOf(e, open, args, commas, close))
            == if e.Id? && e.tok.text == "Some" then Node("option", "", 0, true, ToTree(args[0]), Absent, [])
               else if e.Id? then NodeOf("call", e.tok.text, Absent, ToTrees(args))
               else if e.FieldOf? then NodeOf("method_call", e.name.text, ToTree(e.e), ToTrees(args))
               else NodeOf("call", "", ToTree(e), ToTrees(args))
  {
  }

  /** Operators, indices, slices and fields: the operands in their places. */
  lemma FormsAre(op: Token, e: Cst, i: Cst, j: Cst, open: Token, dots: Token, close: Token)
    ensures ToTree(Bin(op, e, i)) == Node("binop", op.text, 0, false, ToTree(e), ToTree(i), [])
    ensures ToTree(Un(op, e)) == if op.text == "@" then NodeOf("deref", "", ToTree(e), []) else NodeOf("unaryop", op.text, ToTree(e), [])
    ensures ToTree(IndexOf(e, open, i, close)) == Node("index", "", 0, false, ToTree(e), ToTree(i), [])
    ensures ToTree(SliceOf(e, open, i, dots, j, close)) == Node("slice", "", 0, false, ToTree(e), ToTree(i), [ToTree(j)])
    ensures ToTree(FieldOf(e, dots, op)) == NodeOf("field", op.text, ToTree(e), [])
    ensures ToTree(Paren(open, e, close)) == ToTree(e)
  {
  }

  /** `l |> f` is `f(l)`, and `l |> f(x, y)` is `f(l, x, y)`. */
  lemma PipesAreCalls(l: Cst, op: Token, f: Token, open: Token, args: seq<Cst>, commas: seq<Token>, close: Token)
    requires Callable(f)
    ensures ToTree(Pipe(l, op, Id(f))) == ToTree(CallOf(Id(f), open, [l], [], close))
    ensures ToTree(Pipe(l, op, CallOf(Id(f), open, args, commas, close)))
            == ToTree(CallOf(Id(f), open, [l] + args, commas, close))
    ensures ToTree(Pipe(l, op, Id(f))) == NodeOf("call", f.text, Absent, [ToTree(l)])
  {
    assert [l][1..] == [] && ([l] + args)[1..] == args;
    assert ToTrees([l]) == [ToTree(l)] + ToTrees([]);
  }

  lemma PipeFits(l: Cst, op: Token, f: Token)
    requires Fits(l) && Starts(l) && op.kind == Symbol && op.text == "|>" && Callable(f)
    requires Tokens(l) != []
    ensures Fits(Pipe(l, op, Id(f)))
    ensures Starts(Pipe(l, op, Id(f)))
  {
    assert Tokens(Id(f)) == [f];
  }

  /** Pipes are looser than every operator, and group to the left: `a p b |> f |> g` is
      `g(f(a p b))`. */
  lemma PipesAreLoosest(ts: seq<Token>, pos: nat, a: Cst, p: Token, b: Cst, level: nat, op: Token, f: Token, op': Token, g: Token)
    requires Operand(a) && Operand(b) && Operator(p, level) && Callable(f) && Callable(g)
    requires op.kind == op'.kind == Symbol && op.text == op'.text == "|>"
    requires Occurs(ts, pos, Tokens(a) + [p] + Tokens(b) + [op, f] + [op', g])
    requires NotGeneric(ts, pos, a) && NotGeneric(ts, pos + Width(a) + 1, b)
    requires Ends(At(ts, pos + Width(a) + 1 + Width(b) + 4)) && !GenericCallAhead(ts, pos + Width(a) + 1 + Width(b) + 4)
    ensures var r := ParseExpression(ts, pos);
            && r.Ok? && r.next == pos + Width(a) + 1 + Width(b) + 4
            && ToTree(r.value) == NodeOf("call", g.text, Absent, [NodeOf("call", f.text, Absent,
                                    [Node("binop", p.text, 0, false, ToTree(a), ToTree(b), [])])])
  {
    hide Fits, Starts, Ends, NotGeneric, GenericCallAhead, Level, Occurs, ParseExpression;
    var e := Bin(p, a, b);
    var x := Pipe(e, op, Id(f));
    var y := Pipe(x, op', Id(g));
    OperandLevel(a);
    OperandLevel(b);
    BinFits(p, a, b, level);
    PipeFits(e, op, f);
    PipeFits(x, op', g);
    PipesSpelled(ts, pos, a, p, b, op, f, op', g);
    Grouped(ts, pos, y);
    PipesAreCalls(e, op, f, op, [], [], op);
    PipesAreCalls(x, op', g, op, [], [], op);
  }

  lemma PipesSpelled(ts: seq<Token>, pos: nat, a: Cst, p: Token, b: Cst, op: Token, f: Token, op': Token, g: Token)
    requires Occurs(ts, pos, Tokens(a) + [p] + Tokens(b) + [op, f] + [op', g])
    requires NotGeneric(ts, pos, a) && NotGeneric(ts, pos + Width(a) + 1, b)
    requires op'.text == "|>" && !GenericCallAhead(ts, pos + Width(a) + 1 + Width(b) + 4)
    ensures var y := Pipe(Pipe(Bin(p, a, b), op, Id(f)), op', Id(g));
            Occurs(ts, pos, Tokens(y)) && NotGeneric(ts, pos, y) && Width(y) == Width(a) + 1 + Width(b) + 4
  {
    hide CallAfterBracket, Occurs, Tokens;
    var n := pos + Width(a) + 1 + Width(b);
    var x := Pipe(Bin(p, a, b), op, Id(f));
    PipeTokens(a, p, b, op, f, op', g);
    Split(ts, pos, Tokens(x), [op', g]);
    Split(ts, n + 2, [op'], [g]);
    assert [op'] + [g] == [op', g];
    One(ts, n + 2, op');
    assert Text(ts, n + 2) == "|>";
    assert !GenericCallAhead(ts, n + 2);
    assert NotGeneric(ts, pos, x);
  }

  lemma PipeTokens(a: Cst, p: Token, b: Cst, op: Token, f: Token, op': Token, g: Token)
    ensures var x := Pipe(Bin(p, a, b), op, Id(f));
            && Tokens(x) + [op', g] == Tokens(a) + [p] + Tokens(b) + [op, f] + [op', g] == Tokens(Pipe(x, op', Id(g)))
            && |Tokens(Bin(p, a, b))| == |Tokens(a)| + 1 + |Tokens(b)| && |Tokens(x)| == |Tokens(a)| + 1 + |Tokens(b)| + 2
  {
    var s := Tokens(a) + [p] + Tokens(b);
    var x := Pipe(Bin(p, a, b), op, Id(f));
    assert Tokens(x) == s + [op] + [f] == s + [op, f];
    assert Tokens(Pipe(x, op', Id(g))) == s + [op, f] + [op'] + [g] == s + [op, f] + [op', g];
  }
}
