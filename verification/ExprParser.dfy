/**
  The expression parser as it runs: a position in the token stream, a flag for the first
  failure, and an arena that it appends to. One method with the level as a parameter
  serves all binary levels.
 */
module ExprParser {
  import opened Syntax
  import opened Parsing
  import opened ExprArena

  lemma PostfixIsNoName(ts: seq<Token>, e: Cst, pos: nat)
    requires pos < |ts| && Text(ts, pos) in {"[", ".", "("} && PostfixOne(ts, e, pos).Ok?
    ensures !PostfixOne(ts, e, pos).value.Id?
  {
    hide ParseExpression, ParseList;
  }

  /** What a list will be when the items up to a place are known. */
  ghost function Continued(ts: seq<Token>, done: seq<Cst>, commas: seq<Token>, at: nat, close: string): Parsed<List>
    requires at < |ts| && close != ""
  {
    if ts[at].text == "," then
      match ParseItems(ts, at + 1, close)
      case Fail(p, m) => Fail(p, m)
      case Ok(rest, k) => Ok(List(done + rest.args, commas + [ts[at]] + rest.commas, rest.close), k)
    else if ts[at].text == close then Ok(List(done, commas, ts[at]), at + 1)
    else Expected(ts, at, close)
  }

  lemma FirstItem(ts: seq<Token>, pos: nat, close: string)
    requires pos < |ts| && close != "" && ParseExpression(ts, pos).Ok? && ParseExpression(ts, pos).next < |ts|
    ensures var e := ParseExpression(ts, pos);
            ParseItems(ts, pos, close) == Continued(ts, [e.value], [], e.next, close)
  {
    hide ParseExpression;
    var e := ParseExpression(ts, pos);
    if ts[e.next].text == "," {
      var rest := ParseItems(ts, e.next + 1, close);
      if rest.Ok? { assert [] + [ts[e.next]] + rest.value.commas == [ts[e.next]] + rest.value.commas; }
    }
  }

  lemma NextItem(ts: seq<Token>, done: seq<Cst>, commas: seq<Token>, at: nat, close: string)
    requires at + 1 < |ts| && close != "" && ts[at].text == ","
    ensures match ParseExpression(ts, at + 1)
            case Fail(p, m) => Continued(ts, done, commas, at, close) == Fail(p, m)
            case Ok(e, n) =>
              n < |ts| ==> Continued(ts, done, commas, at, close) == Continued(ts, done + [e], commas + [ts[at]], n, close)
  {
    hide ParseExpression;
    var e := ParseExpression(ts, at + 1);
    assert commas + [ts[at]] + [] == commas + [ts[at]];
    if e.Ok? && e.next < |ts| && ts[e.next].text == "," {
      var rest := ParseItems(ts, e.next + 1, close);
      if rest.Ok? {
        assert done + ([e.value] + rest.value.args) == done + [e.value] + rest.value.args;
        assert commas + [ts[at]] + ([ts[e.next]] + rest.value.commas) == commas + [ts[at]] + [ts[e.next]] + rest.value.commas;
      }
    }
  }

  class Parser {
    const stream: seq<Token>
    var pos: nat
    var ok: bool
    var error: string
    var errorAt: nat
    var exprs: seq<ExprNode>

    constructor (stream: seq<Token>)
      requires stream != [] && stream[|stream| - 1] == END
      ensures Valid() && ok && pos == 0 && exprs == [] && this.stream == stream
    {
      this.stream := stream;
      pos, ok, error, errorAt, exprs := 0, true, "", 0, [];
    }

    /** The stream ends in its end token, and the position never passes that. */
    ghost predicate Valid()
      reads this
    {
      pos < |stream| && stream[|stream| - 1] == END && ChildrenFirst(exprs)
    }

    ghost predicate Holds(idx: int, c: Cst)
      requires Valid()
      reads this
    {
      0 <= idx < |exprs| && TreeAt(exprs, idx) == ToTree(c)
    }

    ghost predicate Failed(at: nat, message: string)
      reads this
    {
      !ok && errorAt == at && error == message
    }

    /** The parser did what the specification says: it is past the syntax it returns and
        holds its tree, or it has recorded the one failure. */
    ghost predicate Did(r: Parsed<Cst>, idx: int)
      reads this
    {
      Valid() &&
      match r
      case Ok(c, n) => ok && pos == n && Holds(idx, c)
      case Fail(at, m) => Failed(at, m) && idx == -1
    }

    method Advance()
      requires Valid()
      modifies `pos
      ensures Valid() && old(pos) <= pos <= old(pos) + 1
      ensures stream[old(pos)].kind != Eof || stream[old(pos)].text != "" ==> pos == old(pos) + 1
    {
      if pos + 1 < |stream| { pos := pos + 1; }
    }

    /** Only the first failure is recorded. */
    method ParserFail(message: string)
      modifies `ok, `error, `errorAt
      ensures !ok
      ensures if old(ok) then error == message && errorAt == pos else error == old(error) && errorAt == old(errorAt)
    {
      if ok {
        ok := false;
        error := message;
        errorAt := pos;
      }
    }

    method ExpectText(text: string) returns (found: bool)
      requires Valid() && ok && text != ""
      modifies `pos, `ok, `error, `errorAt
      ensures Valid() && found == ok == (Text(stream, old(pos)) == text)
      ensures if found then pos == old(pos) + 1
              else Failed(old(pos), "expected '" + text + "', got '" + Text(stream, old(pos)) + "'")
    {
      found := stream[pos].text == text;
      if found {
        Advance();
      } else {
        ParserFail("expected '" + text + "', got '" + stream[pos].text + "'");
      }
    }

    /** A new node whose children are nodes already there. */
    method Add(tag: string, text: string, value: int, some: bool, left: int, right: int, args: seq<int>, at: int) returns (idx: int)
      requires Valid() && InArena(exprs, ExprNode(tag, text, value, some, left, right, args, at))
      modifies `exprs
      ensures Valid() && old(exprs) <= exprs && idx == |old(exprs)| && |exprs| == idx + 1
      ensures TreeAt(exprs, idx)
              == Node(tag, text, value, some, old(TreeAt(exprs, left)), old(TreeAt(exprs, right)), old(TreesAt(exprs, args, |exprs|)))
    {
      hide TreeAt, TreesAt, ChildrenFirst;
      var n := ExprNode(tag, text, value, some, left, right, args, at);
      NewTree(exprs, n);
      idx := |exprs|;
      exprs := exprs + [n];
    }

    method Literal(tag: string, text: string, value: int, some: bool, at: int) returns (idx: int)
      requires Valid()
      modifies `exprs
      ensures Valid() && old(exprs) <= exprs && idx == |old(exprs)| && |exprs| == idx + 1
      ensures TreeAt(exprs, idx) == Node(tag, text, value, some, Absent, Absent, [])
    {
      idx := Add(tag, text, value, some, -1, -1, [], at);
    }

    method GenericCallAheadAt() returns (ahead: bool)
      requires Valid()
      ensures ahead == GenericCallAhead(stream, pos)
    {
      var p := pos;
      if stream[p].text == ":" { p := p + 1; }
      if stream[p].text != "[" { return false; }
      var depth := 0;
      while p < |stream|
        invariant CallAfterBracket(stream, p, depth) == GenericCallAhead(stream, pos)
      {
        var text := stream[p].text;
        if text == "[" {
          depth := depth + 1;
        } else if text == "]" {
          depth := depth - 1;
          if depth == 0 { return stream[p + 1].text == "("; }
        }
        p := p + 1;
      }
      ahead := false;
    }

    // ----- expressions -----

    method ParseExpressionAt() returns (idx: int)
      requires Valid() && ok
      modifies this
      ensures old(exprs) <= exprs && Did(ParseExpression(stream, old(pos)), idx)
      decreases |stream| - pos, 20
    {
      hide ToTree, ToTrees, TreeAt, TreesAt, ParseBinary, ParsePostfix, ChildrenFirst, GenericCallAhead;
      ghost var start := pos;
      idx := ParseBinaryAt(1);
      if !ok { return -1; }
      ghost var c := ParseBinary(stream, start, 1).value;
      while stream[pos].text == "|>"
        invariant Valid() && ok && start < pos && Holds(idx, c) && old(exprs) <= exprs
        invariant PipeRest(stream, c, pos) == ParseExpression(stream, start)
        decreases |stream| - pos
      {
        idx, c := PipeInto(idx, c);
        if !ok { return -1; }
      }
    }

    /** The target of a pipe: an operand that is a call or a name. */
    static function Target(ts: seq<Token>, pos: nat): Parsed<Cst>
      requires pos < |ts|
    {
      if At(ts, pos + 1).kind == Ident && Text(ts, pos + 2) == "[" then Fail(pos + 1, UNSUPPORTED)
      else
        match ParsePostfix(ts, pos + 1)
        case Fail(at, m) => Fail(at, m)
        case Ok(t, n) =>
          if HasTag(ToTree(t), "call") || HasTag(ToTree(t), "ident") then Ok(t, n)
          else Fail(n, "pipeline target must be a function call or identifier")
    }

    static lemma PipeStep(ts: seq<Token>, l: Cst, pos: nat)
      requires pos < |ts| && ts[pos].text == "|>"
      ensures Target(ts, pos).Fail? ==> PipeRest(ts, l, pos) == Fail(Target(ts, pos).at, Target(ts, pos).message)
      ensures Target(ts, pos).Ok? ==>
                Target(ts, pos).next <= |ts|
                && PipeRest(ts, l, pos) == PipeRest(ts, Pipe(l, ts[pos], Target(ts, pos).value), Target(ts, pos).next)
    {
      hide ParsePostfix, ToTree;
    }

    method PipeTarget() returns (right: int)
      requires Valid() && ok && stream[pos].text == "|>"
      modifies this
      ensures old(exprs) <= exprs && Did(Target(stream, old(pos)), right)
      ensures ok ==> pos > old(pos) && exprs[right].tag in {"call", "ident"}
      decreases |stream| - pos, 19
    {
      hide ToTree, ToTrees, TreeAt, TreesAt, ParsePostfix, ChildrenFirst;
      right := -1;
      Advance();
      if stream[pos].kind == Ident && stream[pos + 1].text == "[" {
        ParserFail(UNSUPPORTED);
        return;
      }
      right := ParsePostfixAt();
      if !ok { return; }
      NodeTag(right);
      if exprs[right].tag != "call" && exprs[right].tag != "ident" {
        ParserFail("pipeline target must be a function call or identifier");
        right := -1;
      }
    }

    /** One target of a pipe. */
    method PipeInto(left: int, ghost c: Cst) returns (idx: int, ghost piped: Cst)
      requires Valid() && ok && Holds(left, c) && stream[pos].text == "|>"
      modifies this
      ensures old(exprs) <= exprs && Valid()
      ensures if ok then pos > old(pos) && Holds(idx, piped) && PipeRest(stream, piped, pos) == PipeRest(stream, c, old(pos))
              else PipeRest(stream, c, old(pos)) == Fail(errorAt, error)
      decreases |stream| - pos, 20
    {
      hide ToTree, ToTrees, TreeAt, TreesAt, Target, ChildrenFirst, PipeRest;
      idx, piped := -1, c;
      var op, at := stream[pos], pos;
      PipeStep(stream, c, pos);
      ghost var before := exprs;
      var right := PipeTarget();
      if !ok { return; }
      TreeKept(before, exprs, left);
      ghost var t := Target(stream, at).value;
      idx := AddPipe(left, right, at, c, op, t);
      piped := Pipe(c, op, t);
    }

    lemma NodeTag(idx: int)
      requires Valid() && 0 <= idx < |exprs|
      ensures TreeAt(exprs, idx).Node? && TreeAt(exprs, idx).tag == exprs[idx].tag && TreeAt(exprs, idx).text == exprs[idx].text
    {
    }

    method AddPipe(left: int, right: int, at: int, ghost c: Cst, ghost op: Token, ghost t: Cst) returns (idx: int)
      requires Valid() && Holds(left, c) && Holds(right, t) && exprs[right].tag in {"call", "ident"}
      modifies `exprs
      ensures Valid() && old(exprs) <= exprs && Holds(idx, Pipe(c, op, t))
      ensures HasTag(ToTree(t), "call") || HasTag(ToTree(t), "ident")
    {
      NodeTag(right);
      var target := exprs[right];
      var args := [left];
      if target.tag == "call" {
        args := args + target.args;
        assert args[1..] == target.args;
        TreesBelow(exprs, target.args, right, |exprs|);
      }
      idx := Add("call", target.text, 0, false, -1, -1, args, at);
    }

    /** The binary levels: all but `??` and the comparisons are loops. */
    method ParseBinaryAt(lvl: nat) returns (idx: int)
      requires Valid() && ok && 1 <= lvl <= UNARY
      modifies this
      ensures old(exprs) <= exprs && Did(ParseBinary(stream, old(pos), lvl), idx)
      decreases |stream| - pos, 18 - lvl
    {
      hide ToTree, TreeAt, TreesAt, ParseUnary, ChildrenFirst;
      if lvl == UNARY {
        idx := ParseUnaryAt();
        return;
      }
      ghost var start := pos;
      idx := ParseBinaryAt(lvl + 1);
      if !ok { return -1; }
      ghost var c := ParseBinary(stream, start, lvl + 1).value;
      while OpLevel(stream[pos]) == lvl
        invariant Valid() && ok && start < pos && Holds(idx, c) && old(exprs) <= exprs
        invariant BinaryRest(stream, lvl, c, pos) == ParseBinary(stream, start, lvl)
        decreases |stream| - pos
      {
        var op, at := stream[pos], pos;
        Advance();
        ghost var before := exprs;
        var right := ParseBinaryAt(RightLevel(lvl));
        if !ok { return -1; }
        TreeKept(before, exprs, idx);
        ghost var r := ParseBinary(stream, at + 1, RightLevel(lvl)).value;
        idx := AddBinary(op, idx, right, at, c, r);
        c := Bin(op, c, r);
        if LeftLevel(lvl) > lvl { return; }
      }
    }

    method AddBinary(op: Token, left: int, right: int, at: int, ghost l: Cst, ghost r: Cst) returns (idx: int)
      requires Valid() && Holds(left, l) && Holds(right, r)
      modifies `exprs
      ensures Valid() && old(exprs) <= exprs && Holds(idx, Bin(op, l, r))
    {
      idx := Add("binop", op.text, 0, false, left, right, [], at);
    }

    method AddUnary(op: Token, operand: int, at: int, ghost e: Cst) returns (idx: int)
      requires Valid() && Holds(operand, e)
      modifies `exprs
      ensures Valid() && old(exprs) <= exprs && Holds(idx, Un(op, e))
    {
      if op.text == "@" {
        idx := Add("deref", "", 0, false, operand, -1, [], at);
      } else {
        idx := Add("unaryop", op.text, 0, false, operand, -1, [], at);
      }
    }

    method ParseUnaryAt() returns (idx: int)
      requires Valid() && ok
      modifies this
      ensures old(exprs) <= exprs && Did(ParseUnary(stream, old(pos)), idx)
      decreases |stream| - pos, 7
    {
      hide ToTree, TreeAt, TreesAt, ParsePostfix, ChildrenFirst, ParseBorrow;
      var t, at := stream[pos], pos;
      if t.kind == Str {
        idx := ParsePostfixAt();
      } else if t.text == "ref" || t.text == "&" {
        idx := ParseBorrowAt();
      } else if IsUnary(t.text) {
        Advance();
        var operand := ParseUnaryAt();
        if !ok { return -1; }
        idx := AddUnary(t, operand, at, ParseUnary(stream, at + 1).value);
      } else {
        idx := ParsePostfixAt();
      }
    }

    method ParseBorrowAt() returns (idx: int)
      requires Valid() && ok && stream[pos].text in {"ref", "&"}
      modifies this
      ensures old(exprs) <= exprs && Did(ParseBorrow(stream, old(pos)), idx)
    {
      hide TreesAt, ChildrenFirst;
      var at := pos;
      Advance();
      var isMut := 0;
      if stream[pos].text == "mut" {
        isMut := 1;
        Advance();
      }
      var name := stream[pos];
      if name.kind != Ident {
        ParserFail("unexpected token '" + name.text + "'");
        return -1;
      }
      Advance();
      idx := Literal("addr", name.text, isMut, false, at);
    }

    // ----- operands -----

    method ParsePostfixAt() returns (idx: int)
      requires Valid() && ok
      modifies this
      ensures old(exprs) <= exprs && Did(ParsePostfix(stream, old(pos)), idx)
      decreases |stream| - pos, 6
    {
      hide ToTree, TreeAt, TreesAt, ParsePrimary, PostfixRest, ChildrenFirst;
      ghost var start := pos;
      idx := ParsePrimaryAt();
      if !ok { return -1; }
      PrimaryIsNotCalled(stream, start);
      idx := ParsePostfixContinue(idx, ParsePrimary(stream, start).value);
    }

    method ParsePostfixContinue(base: int, ghost e: Cst) returns (idx: int)
      requires Valid() && ok && Holds(base, e) && NotCalled(stream, e, pos)
      modifies this
      ensures old(exprs) <= exprs && Did(PostfixRest(stream, e, old(pos)), idx)
      decreases |stream| - pos, 6
    {
      hide ToTree, TreeAt, TreesAt, PostfixOne, ChildrenFirst;
      idx := base;
      ghost var c := e;
      while stream[pos].text == "[" || stream[pos].text == "." || stream[pos].text == "("
        invariant Valid() && ok && Holds(idx, c) && NotCalled(stream, c, pos) && old(exprs) <= exprs && old(pos) <= pos
        invariant PostfixRest(stream, c, pos) == PostfixRest(stream, e, old(pos))
        decreases |stream| - pos
      {
        ghost var at := pos;
        ghost var r := PostfixOne(stream, c, at);
        idx := ParsePostfixOne(idx, c);
        if !ok { return -1; }
        PostfixIsNoName(stream, c, at);
        c := r.value;
      }
    }

    method ParsePostfixOne(base: int, ghost e: Cst) returns (idx: int)
      requires Valid() && ok && Holds(base, e) && stream[pos].text in {"[", ".", "("} && NotCalled(stream, e, pos)
      modifies this
      ensures old(exprs) <= exprs && Did(PostfixOne(stream, e, old(pos)), idx)
      decreases |stream| - pos, 5
    {
      hide ToTree, TreeAt, TreesAt, ChildrenFirst, ParseBracket, ParseList;
      var open, at := stream[pos], pos;
      if open.text == "[" {
        idx := ParseBracketAt(base, e);
      } else if open.text == "." {
        Advance();
        var name := stream[pos];
        if name.kind != Ident {
          ParserFail("unexpected token '" + name.text + "'");
          return -1;
        }
        Advance();
        idx := AddField(base, open, name, at, e);
      } else {
        Advance();
        ghost var before := exprs;
        var args := ParseListAt(")");
        if !ok { return -1; }
        TreeKept(before, exprs, base);
        ghost var l := ParseList(stream, at + 1, ")").value;
        idx := AddCall(base, args, at, e, open, l);
      }
    }

    method AddField(base: int, dot: Token, name: Token, at: int, ghost e: Cst) returns (idx: int)
      requires Valid() && Holds(base, e)
      modifies `exprs
      ensures Valid() && old(exprs) <= exprs && Holds(idx, FieldOf(e, dot, name))
    {
      idx := Add("field", name.text, 0, false, base, -1, [], at);
    }

    /** A list of nodes holds the trees of a list of syntax. */
    ghost predicate HoldsAll(idxs: seq<int>, cs: seq<Cst>)
      requires Valid()
      reads this
    {
      && |idxs| == |cs| && (forall j :: 0 <= j < |idxs| ==> 0 <= idxs[j] < |exprs|)
      && TreesAt(exprs, idxs, |exprs|) == ToTrees(cs)
    }

    lemma NoChild()
      requires Valid()
      ensures TreeAt(exprs, -1) == Absent
    {
    }

    lemma ChildOf(idx: int)
      requires Valid() && 0 <= idx < |exprs|
      ensures -1 <= exprs[idx].left < idx && TreeAt(exprs, idx).Node? && TreeAt(exprs, idx).left == TreeAt(exprs, exprs[idx].left)
    {
    }

    method AddCall(base: int, args: seq<int>, at: int, ghost e: Cst, ghost open: Token, ghost l: List) returns (idx: int)
      requires Valid() && Holds(base, e) && HoldsAll(args, l.args)
      requires !(e.Id? && e.tok.text == "Some" && |l.args| == 1)
      modifies `exprs
      ensures Valid() && old(exprs) <= exprs && Holds(idx, CallOf(e, open, l.args, l.commas, l.close))
    {
      hide TreesAt, ToTrees, TreeAt, ChildrenFirst;
      ChildOf(base);
      NodeTag(base);
      NoChild();
      var func := exprs[base];
      if func.tag == "field" {
        idx := Add("method_call", func.text, 0, false, func.left, -1, args, at);
      } else if func.tag == "ident" {
        idx := Add("call", func.text, 0, false, -1, -1, args, at);
      } else {
        idx := Add("call", "", 0, false, base, -1, args, at);
      }
    }

    method ParseBracketAt(base: int, ghost e: Cst) returns (idx: int)
      requires Valid() && ok && Holds(base, e) && stream[pos].text == "["
      modifies this
      ensures old(exprs) <= exprs && Did(ParseBracket(stream, e, old(pos)), idx)
      decreases |stream| - pos, 4
    {
      hide ToTree, ToTrees, TreeAt, TreesAt, ChildrenFirst, ParseExpression;
      var at := pos;
      Advance();
      ghost var before := exprs;
      var i := ParseExpressionAt();
      if !ok { return -1; }
      TreeKept(before, exprs, base);
      ghost var c := ParseExpression(stream, at + 1).value;
      ghost var n := pos;
      if stream[pos].text == ".." {
        Advance();
        before := exprs;
        var j := ParseExpressionAt();
        if !ok { return -1; }
        TreeKept(before, exprs, base);
        TreeKept(before, exprs, i);
        ghost var d := ParseExpression(stream, n + 1).value;
        ghost var k := pos;
        var found := ExpectText("]");
        if !ok { return -1; }
        idx := AddSlice(base, i, j, at, e, c, d, stream[at], stream[n], stream[k]);
      } else {
        var found := ExpectText("]");
        if !ok { return -1; }
        idx := AddIndex(base, i, at, e, c, stream[at], stream[n]);
      }
    }

    method AddIndex(base: int, i: int, at: int, ghost e: Cst, ghost c: Cst, ghost open: Token, ghost close: Token) returns (idx: int)
      requires Valid() && Holds(base, e) && Holds(i, c)
      modifies `exprs
      ensures Valid() && old(exprs) <= exprs && Holds(idx, IndexOf(e, open, c, close))
    {
      idx := Add("index", "", 0, false, base, i, [], at);
    }

    method AddSlice(base: int, i: int, j: int, at: int, ghost e: Cst, ghost c: Cst, ghost d: Cst,
                    ghost open: Token, ghost dots: Token, ghost close: Token)
      returns (idx: int)
      requires Valid() && Holds(base, e) && Holds(i, c) && Holds(j, d)
      modifies `exprs
      ensures Valid() && old(exprs) <= exprs && Holds(idx, SliceOf(e, open, c, dots, d, close))
    {
      hide TreesAt, TreeAt, ChildrenFirst;
      OneTree(exprs, j, |exprs|);
      idx := Add("slice", "", 0, false, base, i, [j], at);
    }

    /** Expressions separated by commas, up to and with the closing token. */
    method ParseListAt(close: string) returns (args: seq<int>)
      requires Valid() && ok && close != ""
      modifies this
      ensures Valid() && old(exprs) <= exprs
      ensures match ParseList(stream, old(pos), close)
              case Ok(l, n) => ok && pos == n && HoldsAll(args, l.args)
              case Fail(at, m) => Failed(at, m)
      decreases |stream| - pos, 22
    {
      hide ToTree, TreeAt, ParseItems, ChildrenFirst;
      args := [];
      if stream[pos].text == close {
        Advance();
      } else {
        args := ParseItemsAt(close);
      }
    }

    method ParseItemsAt(close: string) returns (args: seq<int>)
      requires Valid() && ok && close != ""
      modifies this
      ensures Valid() && old(exprs) <= exprs
      ensures match ParseItems(stream, old(pos), close)
              case Ok(l, n) => ok && pos == n && HoldsAll(args, l.args)
              case Fail(at, m) => Failed(at, m)
      decreases |stream| - pos, 21
    {
      hide ToTree, TreeAt, TreesAt, ToTrees, ChildrenFirst, ParseExpression;
      var start := pos;
      var arg := ParseExpressionAt();
      if !ok { return []; }
      args := [arg];
      ghost var done := [ParseExpression(stream, start).value];
      ghost var commas: seq<Token> := [];
      FirstHeld(arg, done[0]);
      FirstItem(stream, start, close);
      while stream[pos].text == ","
        invariant Valid() && ok && start < pos && HoldsAll(args, done) && old(exprs) <= exprs
        invariant ParseItems(stream, start, close) == Continued(stream, done, commas, pos, close)
        decreases |stream| - pos
      {
        var at := pos;
        Advance();
        ghost var before := exprs;
        var arg2 := ParseExpressionAt();
        NextItem(stream, done, commas, at, close);
        if !ok { return []; }
        ghost var c := ParseExpression(stream, at + 1).value;
        KeptAll(before, args, done);
        NextHeld(args, done, arg2, c);
        args := args + [arg2];
        done := done + [c];
        commas := commas + [stream[at]];
      }
      var found := ExpectText(close);
    }

    lemma FirstHeld(idx: int, c: Cst)
      requires Valid() && Holds(idx, c)
      ensures HoldsAll([idx], [c])
    {
      OneTree(exprs, idx, |exprs|);
      assert ToTrees([c]) == [ToTree(c)];
    }

    lemma NextHeld(args: seq<int>, done: seq<Cst>, idx: int, c: Cst)
      requires Valid() && HoldsAll(args, done) && Holds(idx, c)
      ensures HoldsAll(args + [idx], done + [c])
    {
      TreesAppend(exprs, args, idx, |exprs|);
      ToTreesAppend(done, c);
    }

    lemma KeptAll(before: seq<ExprNode>, args: seq<int>, done: seq<Cst>)
      requires Valid() && ChildrenFirst(before) && before <= exprs && |args| == |done|
      requires forall j :: 0 <= j < |args| ==> 0 <= args[j] < |before|
      requires TreesAt(before, args, |before|) == ToTrees(done)
      ensures HoldsAll(args, done)
    {
      TreesKept(before, exprs, args, |before|);
      TreesBelow(exprs, args, |before|, |exprs|);
    }

    // ----- primary expressions -----

    /** A number, a truth value or a string. */
    method AddLiteral(t: Token, at: int) returns (idx: int)
      requires Valid() && t.kind in {Number, Bool, Str}
      modifies `exprs
      ensures Valid() && old(exprs) <= exprs && Holds(idx, Lit(t))
    {
      if t.kind == Number {
        idx := Literal("int", "", t.value, false, at);
      } else if t.kind == Bool {
        idx := Literal("bool", "", t.value, false, at);
      } else {
        idx := Literal("string", t.text, 0, false, at);
      }
    }

    method AddNil(t: Token, at: int) returns (idx: int)
      requires Valid()
      modifies `exprs
      ensures Valid() && old(exprs) <= exprs && Holds(idx, Nil(t))
    {
      idx := Literal("int", "", 0, false, at);
    }

    method AddArray(elements: seq<int>, at: int, ghost open: Token, ghost l: List) returns (idx: int)
      requires Valid() && HoldsAll(elements, l.args)
      modifies `exprs
      ensures Valid() && old(exprs) <= exprs && Holds(idx, Array(open, l.args, l.commas, l.close))
    {
      hide TreesAt, ToTrees;
      idx := Add("array_literal", "", 0, false, -1, -1, elements, at);
    }

    /** A parenthesised expression is the node of what it holds. */
    lemma ParenHeld(idx: int, c: Cst, open: Token, close: Token)
      requires Valid() && Holds(idx, c)
      ensures Holds(idx, Paren(open, c, close))
    {
    }

    method ParsePrimaryAt() returns (idx: int)
      requires Valid() && ok
      modifies this
      ensures old(exprs) <= exprs && Did(ParsePrimary(stream, old(pos)), idx)
      decreases |stream| - pos, 5
    {
      hide ParseExpression, ParseList, ParseName, ToTree, ToTrees, TreeAt, TreesAt, ChildrenFirst;
      var t, at := stream[pos], pos;
      if t.kind == Number || t.kind == Bool || t.kind == Str {
        Advance();
        idx := AddLiteral(t, at);
      } else if t.kind == Float || t.text == "fn" {
        ParserFail(UNSUPPORTED);
        idx := -1;
      } else if t.kind == Ident {
        idx := ParseNameAt();
      } else if t.text == "nil" {
        Advance();
        idx := AddNil(t, at);
      } else if t.text == "(" {
        Advance();
        idx := ParseExpressionAt();
        if !ok { return -1; }
        ghost var close := stream[pos];
        var found := ExpectText(")");
        if !found { return -1; }
        ParenHeld(idx, ParseExpression(stream, at + 1).value, t, close);
      } else if t.text == "[" {
        Advance();
        var elements := ParseListAt("]");
        if !ok { return -1; }
        idx := AddArray(elements, at, t, ParseList(stream, at + 1, "]").value);
      } else if t.text == "match" || t.text == "if" || t.text == "{" {
        ParserFail(UNSUPPORTED);
        idx := -1;
      } else {
        ParserFail("unexpected token in expression: '" + t.text + "'");
        idx := -1;
      }
    }

    method ParseNameAt() returns (idx: int)
      requires Valid() && ok && stream[pos].kind == Ident
      modifies this
      ensures old(exprs) <= exprs && Did(ParseName(stream, old(pos)), idx)
      decreases |stream| - pos, 4
    {
      hide ParseList, GenericCallAhead, TreesAt, ChildrenFirst;
      var t, at := stream[pos], pos;
      Advance();
      if stream[pos].text == "::" {
        ParserFail(UNSUPPORTED);
        return -1;
      }
      if t.text == "None" {
        idx := Literal("option", "", 0, false, at);
        return;
      }
      var ahead := GenericCallAheadAt();
      if ahead || stream[pos].text == "{" {
        ParserFail(UNSUPPORTED);
        return -1;
      }
      if stream[pos].text == "(" {
        Advance();
        var args := ParseListAt(")");
        if !ok { return -1; }
        ghost var l := ParseList(stream, at + 2, ")").value;
        if t.text == "Some" {
          if |args| != 1 {
            ParserFail("Some expects one argument");
            return -1;
          }
          idx := AddSome(t, args, at, stream[at + 1], l);
        } else {
          idx := AddNamedCall(t, args, at, stream[at + 1], l);
        }
        return;
      }
      idx := Literal("ident", t.text, 0, false, at);
    }

    method AddSome(t: Token, args: seq<int>, at: int, ghost open: Token, ghost l: List) returns (idx: int)
      requires Valid() && t.text == "Some" && |args| == 1 && HoldsAll(args, l.args)
      modifies `exprs
      ensures Valid() && old(exprs) <= exprs && Holds(idx, CallOf(Id(t), open, l.args, l.commas, l.close))
    {
      OneTree(exprs, args[0], |exprs|);
      assert args == [args[0]] && l.args == [l.args[0]];
      assert ToTrees(l.args)[0] == ToTree(l.args[0]);
      assert TreesAt(exprs, args, |exprs|)[0] == TreeAt(exprs, args[0]);
      idx := Add("option", "", 0, true, args[0], -1, [], at);
    }

    method AddNamedCall(t: Token, args: seq<int>, at: int, ghost open: Token, ghost l: List) returns (idx: int)
      requires Valid() && t.text !in {"Some", "None"} && HoldsAll(args, l.args)
      modifies `exprs
      ensures Valid() && old(exprs) <= exprs && Holds(idx, CallOf(Id(t), open, l.args, l.commas, l.close))
    {
      hide TreesAt, ToTrees;
      assert ToTree(Id(t)) == Leaf("ident", t.text, 0);
      assert ToTree(CallOf(Id(t), open, l.args, l.commas, l.close)) == Call(t.text, ToTrees(l.args));
      idx := Add("call", t.text, 0, false, -1, -1, args, at);
    }
  }
}
