/**
  Whatever the parser accepts is a piece of the grammar, and it is exactly the tokens
  that were consumed.
 */
module ParsingSound {
  import opened Syntax
  import opened Parsing
  import opened ParsingComplete

  predicate Spans(ts: seq<Token>, pos: nat, c: Cst, n: nat) {
    Fits(c) && NotGeneric(ts, pos, c) && pos < n <= |ts| && Tokens(c) == ts[pos..n]
  }

  predicate SpansList(ts: seq<Token>, pos: nat, l: List, close: string, n: nat) {
    && pos < n <= |ts| && AllFit(l.args) && NoneGeneric(ts, pos, l.args) && Commas(l.args, l.commas) && NotClosing(l.args, close)
    && ListTokens(l.args, l.commas) + [l.close] == ts[pos..n] && l.close.text == close
  }

  lemma Join(ts: seq<Token>, a: nat, b: nat, c: nat)
    requires a <= b <= c <= |ts|
    ensures ts[a..b] + ts[b..c] == ts[a..c]
    ensures b < |ts| ==> ts[a..b] + [ts[b]] == ts[a..b + 1]
  {
  }

  lemma {:induction false} ExpressionSpans(ts: seq<Token>, pos: nat)
    requires pos <= |ts| && ParseExpression(ts, pos).Ok?
    ensures Spans(ts, pos, ParseExpression(ts, pos).value, ParseExpression(ts, pos).next)
    ensures Starts(ParseExpression(ts, pos).value)
    decreases |ts| - pos, 20
  {
    hide Spans, ParseBinary, PipeRest;
    BinarySpans(ts, pos, 1);
    var r := ParseBinary(ts, pos, 1);
    PipeRestSpans(ts, pos, r.value, r.next);
  }

  lemma NotIndexedSpan(ts: seq<Token>, pos: nat, c: Cst, n: nat)
    requires Spans(ts, pos, c, n) && !(At(ts, pos).kind == Ident && Text(ts, pos + 1) == "[")
    ensures !StartsIndexed(c)
  {
    assert Tokens(c)[0] == ts[pos];
    if |Tokens(c)| > 1 { assert Tokens(c)[1] == ts[pos + 1]; }
  }

  lemma PipeSpans(ts: seq<Token>, p0: nat, l: Cst, pos: nat, t: Cst, n: nat)
    requires Spans(ts, p0, l, pos) && Starts(l) && pos < |ts| && ts[pos].text == "|>"
    requires Spans(ts, pos + 1, t, n) && Level(t) == POSTFIX && !StartsIndexed(t)
    requires HasTag(ToTree(t), "call") || HasTag(ToTree(t), "ident")
    ensures Spans(ts, p0, Pipe(l, ts[pos], t), n) && Starts(Pipe(l, ts[pos], t))
  {
    Join(ts, p0, pos, pos);
    Join(ts, p0, pos + 1, n);
  }

  lemma {:induction false} PipeRestSpans(ts: seq<Token>, p0: nat, l: Cst, pos: nat)
    requires pos <= |ts| && p0 < pos && Spans(ts, p0, l, pos) && Starts(l) && PipeRest(ts, l, pos).Ok?
    ensures Spans(ts, p0, PipeRest(ts, l, pos).value, PipeRest(ts, l, pos).next)
    ensures Starts(PipeRest(ts, l, pos).value)
    decreases |ts| - pos, 19
  {
    hide ParsePostfix, Spans, Starts, StartsIndexed, ToTree;
    if Text(ts, pos) == "|>" {
      PostfixSpans(ts, pos + 1);
      var t := ParsePostfix(ts, pos + 1);
      NotIndexedSpan(ts, pos + 1, t.value, t.next);
      PipeSpans(ts, p0, l, pos, t.value, t.next);
      PipeRestSpans(ts, p0, Pipe(l, ts[pos], t.value), t.next);
    }
  }

  lemma {:induction false} BinarySpans(ts: seq<Token>, pos: nat, lvl: nat)
    requires pos <= |ts| && 1 <= lvl <= UNARY && ParseBinary(ts, pos, lvl).Ok?
    ensures Spans(ts, pos, ParseBinary(ts, pos, lvl).value, ParseBinary(ts, pos, lvl).next)
    ensures Level(ParseBinary(ts, pos, lvl).value) >= lvl && Starts(ParseBinary(ts, pos, lvl).value)
    decreases |ts| - pos, 18 - lvl
  {
    hide Spans, Level, ParseUnary, BinaryRest;
    if lvl == UNARY {
      UnarySpans(ts, pos);
    } else {
      BinarySpans(ts, pos, lvl + 1);
      var l := ParseBinary(ts, pos, lvl + 1);
      BinaryRestSpans(ts, pos, lvl, l.value, l.next);
    }
  }

  lemma BinSpans(ts: seq<Token>, p0: nat, l: Cst, pos: nat, r: Cst, n: nat)
    requires Spans(ts, p0, l, pos) && pos < |ts| && Spans(ts, pos + 1, r, n) && OpLevel(ts[pos]) > 0
    requires Starts(l) && Starts(r)
    requires Level(l) >= LeftLevel(OpLevel(ts[pos])) && Level(r) >= RightLevel(OpLevel(ts[pos]))
    ensures Spans(ts, p0, Bin(ts[pos], l, r), n) && Starts(Bin(ts[pos], l, r))
  {
    Join(ts, p0, pos, pos);
    Join(ts, p0, pos + 1, n);
  }

  lemma {:induction false} BinaryRestSpans(ts: seq<Token>, p0: nat, lvl: nat, l: Cst, pos: nat)
    requires pos <= |ts| && 1 <= lvl < UNARY && p0 < pos && Spans(ts, p0, l, pos)
    requires Level(l) >= LeftLevel(lvl) && Starts(l) && BinaryRest(ts, lvl, l, pos).Ok?
    ensures Spans(ts, p0, BinaryRest(ts, lvl, l, pos).value, BinaryRest(ts, lvl, l, pos).next)
    ensures Level(BinaryRest(ts, lvl, l, pos).value) >= lvl && Starts(BinaryRest(ts, lvl, l, pos).value)
    decreases |ts| - pos, 18 - lvl
  {
    hide Spans, ParseBinary;
    if OpLevel(At(ts, pos)) == lvl {
      BinarySpans(ts, pos + 1, RightLevel(lvl));
      var r := ParseBinary(ts, pos + 1, RightLevel(lvl));
      BinSpans(ts, p0, l, pos, r.value, r.next);
      if LeftLevel(lvl) == lvl { BinaryRestSpans(ts, p0, lvl, Bin(ts[pos], l, r.value), r.next); }
    }
  }

  lemma {:induction false} UnarySpans(ts: seq<Token>, pos: nat)
    requires pos <= |ts| && ParseUnary(ts, pos).Ok?
    ensures Spans(ts, pos, ParseUnary(ts, pos).value, ParseUnary(ts, pos).next)
    ensures Level(ParseUnary(ts, pos).value) >= UNARY && Starts(ParseUnary(ts, pos).value)
    decreases |ts| - pos, 7
  {
    hide ParsePostfix;
    var t := At(ts, pos);
    if t.kind == Str {
      PostfixSpans(ts, pos);
    } else if t.text in {"ref", "&"} {
      BorrowSpans(ts, pos);
    } else if IsUnary(t.text) {
      UnarySpans(ts, pos + 1);
      Join(ts, pos, pos + 1, ParseUnary(ts, pos + 1).next);
    } else {
      PostfixSpans(ts, pos);
    }
  }

  lemma BorrowSpans(ts: seq<Token>, pos: nat)
    requires pos < |ts| && ts[pos].kind != Str && ts[pos].text in {"ref", "&"} && ParseBorrow(ts, pos).Ok?
    ensures Spans(ts, pos, ParseBorrow(ts, pos).value, ParseBorrow(ts, pos).next)
    ensures Level(ParseBorrow(ts, pos).value) >= UNARY
  {
  }

  lemma {:induction false} PostfixSpans(ts: seq<Token>, pos: nat)
    requires pos <= |ts| && ParsePostfix(ts, pos).Ok?
    ensures Spans(ts, pos, ParsePostfix(ts, pos).value, ParsePostfix(ts, pos).next)
    ensures Level(ParsePostfix(ts, pos).value) == POSTFIX
    decreases |ts| - pos, 6
  {
    hide Spans, ParsePrimary, PostfixRest;
    PrimarySpans(ts, pos);
    var e := ParsePrimary(ts, pos);
    PostfixRestSpans(ts, pos, e.value, e.next);
  }

  lemma {:induction false} PostfixRestSpans(ts: seq<Token>, p0: nat, e: Cst, pos: nat)
    requires pos <= |ts| && p0 < pos && Spans(ts, p0, e, pos) && Level(e) == POSTFIX && NotCalled(ts, e, pos)
    requires PostfixRest(ts, e, pos).Ok?
    ensures Spans(ts, p0, PostfixRest(ts, e, pos).value, PostfixRest(ts, e, pos).next)
    ensures Level(PostfixRest(ts, e, pos).value) == POSTFIX
    decreases |ts| - pos, 6
  {
    hide Spans, PostfixOne;
    if Text(ts, pos) in {"[", ".", "("} {
      PostfixOneSpans(ts, p0, e, pos);
      var r := PostfixOne(ts, e, pos);
      PostfixRestSpans(ts, p0, r.value, r.next);
    }
  }

  lemma {:induction false} PostfixOneSpans(ts: seq<Token>, p0: nat, e: Cst, pos: nat)
    requires pos < |ts| && p0 < pos && Spans(ts, p0, e, pos) && Level(e) == POSTFIX && NotCalled(ts, e, pos)
    requires Text(ts, pos) in {"[", ".", "("} && PostfixOne(ts, e, pos).Ok?
    ensures Spans(ts, p0, PostfixOne(ts, e, pos).value, PostfixOne(ts, e, pos).next)
    ensures Level(PostfixOne(ts, e, pos).value) == POSTFIX && !PostfixOne(ts, e, pos).value.Id?
    decreases |ts| - pos, 5
  {
    hide ParseExpression, ParseList, ParseBracket;
    if ts[pos].text == "[" {
      BracketSpans(ts, p0, e, pos);
    } else if ts[pos].text == "." {
      FieldSpans(ts, p0, e, pos);
    } else {
      ListSpans(ts, pos + 1, ")");
      var r := ParseList(ts, pos + 1, ")");
      CallSpans(ts, p0, e, pos, r.value, r.next);
    }
  }

  lemma FieldSpans(ts: seq<Token>, p0: nat, e: Cst, pos: nat)
    requires Spans(ts, p0, e, pos) && Level(e) == POSTFIX && pos + 1 < |ts|
    requires ts[pos].text == "." && ts[pos + 1].kind == Ident
    ensures Spans(ts, p0, FieldOf(e, ts[pos], ts[pos + 1]), pos + 2)
  {
    assert ts[p0..pos] + [ts[pos], ts[pos + 1]] == ts[p0..pos + 2];
  }

  lemma CallSpans(ts: seq<Token>, p0: nat, e: Cst, pos: nat, l: List, n: nat)
    requires pos < |ts| && p0 < pos && Spans(ts, p0, e, pos) && Level(e) == POSTFIX
    requires ts[pos].text == "(" && SpansList(ts, pos + 1, l, ")", n)
    requires e.Id? && e.tok.text == "Some" ==> |l.args| == 1
    ensures Spans(ts, p0, CallOf(e, ts[pos], l.args, l.commas, l.close), n)
  {
    Join(ts, p0, pos, pos);
    Join(ts, p0, pos + 1, n);
    var list := ListTokens(l.args, l.commas);
    assert ts[p0..pos] + [ts[pos]] + list + [l.close] == ts[p0..pos + 1] + (list + [l.close]);
  }

  lemma {:induction false} BracketSpans(ts: seq<Token>, p0: nat, e: Cst, pos: nat)
    requires pos < |ts| && p0 < pos && Spans(ts, p0, e, pos) && Level(e) == POSTFIX && ts[pos].text == "["
    requires ParseBracket(ts, e, pos).Ok?
    ensures Spans(ts, p0, ParseBracket(ts, e, pos).value, ParseBracket(ts, e, pos).next)
    ensures Level(ParseBracket(ts, e, pos).value) == POSTFIX && !ParseBracket(ts, e, pos).value.Id?
    decreases |ts| - pos, 4
  {
    hide ParseExpression, Spans, Starts;
    ExpressionSpans(ts, pos + 1);
    var i := ParseExpression(ts, pos + 1);
    if Text(ts, i.next) == ".." {
      ExpressionSpans(ts, i.next + 1);
      var j := ParseExpression(ts, i.next + 1);
      SliceSpans(ts, p0, e, pos, i.value, i.next, j.value, j.next);
    } else {
      IndexSpans(ts, p0, e, pos, i.value, i.next);
    }
  }

  lemma IndexSpans(ts: seq<Token>, p0: nat, e: Cst, pos: nat, i: Cst, n: nat)
    requires Spans(ts, p0, e, pos) && Level(e) == POSTFIX && pos < |ts| && ts[pos].text == "["
    requires Spans(ts, pos + 1, i, n) && Starts(i) && n < |ts| && ts[n].text == "]"
    ensures Spans(ts, p0, IndexOf(e, ts[pos], i, ts[n]), n + 1)
  {
    Join(ts, p0, pos, pos);
    Join(ts, p0, pos + 1, n);
    Join(ts, p0, n, n);
  }

  lemma SliceSpans(ts: seq<Token>, p0: nat, e: Cst, pos: nat, i: Cst, n: nat, j: Cst, k: nat)
    requires Spans(ts, p0, e, pos) && Level(e) == POSTFIX && pos < |ts| && ts[pos].text == "["
    requires Spans(ts, pos + 1, i, n) && Starts(i) && n < |ts| && ts[n].text == ".."
    requires Spans(ts, n + 1, j, k) && Starts(j) && k < |ts| && ts[k].text == "]"
    ensures Spans(ts, p0, SliceOf(e, ts[pos], i, ts[n], j, ts[k]), k + 1)
  {
    SliceTokens(ts, p0, e, pos, i, n, j, k);
    hide GenericCallAhead, StartsIndexed, Occurs;
    var c := SliceOf(e, ts[pos], i, ts[n], j, ts[k]);
    assert Fits(c) && NotGeneric(ts, p0, c);
  }

  lemma SliceTokens(ts: seq<Token>, p0: nat, e: Cst, pos: nat, i: Cst, n: nat, j: Cst, k: nat)
    requires Spans(ts, p0, e, pos) && Spans(ts, pos + 1, i, n) && Spans(ts, n + 1, j, k) && k < |ts|
    ensures Tokens(SliceOf(e, ts[pos], i, ts[n], j, ts[k])) == ts[p0..k + 1]
    ensures Width(e) == pos - p0 && Width(i) == n - pos - 1
  {
    hide Fits, NotGeneric;
    Join(ts, p0, pos, pos);
    Join(ts, p0, pos + 1, n);
    Join(ts, p0, n, n);
    Join(ts, p0, n + 1, k);
    Join(ts, p0, k, k);
  }

  lemma {:induction false} ListSpans(ts: seq<Token>, pos: nat, close: string)
    requires pos <= |ts| && close != "" && ParseList(ts, pos, close).Ok?
    ensures SpansList(ts, pos, ParseList(ts, pos, close).value, close, ParseList(ts, pos, close).next)
    decreases |ts| - pos, 22
  {
    hide ParseItems;
    if Text(ts, pos) != close {
      ItemsSpan(ts, pos, close);
    }
  }

  lemma {:induction false} ItemsSpan(ts: seq<Token>, pos: nat, close: string)
    requires pos <= |ts| && close != "" && ParseItems(ts, pos, close).Ok?
    ensures var l := ParseItems(ts, pos, close).value;
            && l.args != [] && AllFit(l.args) && NoneGeneric(ts, pos, l.args) && Commas(l.args, l.commas) && l.close.text == close
            && ListTokens(l.args, l.commas) + [l.close] == ts[pos..ParseItems(ts, pos, close).next]
            && Tokens(l.args[0]) != [] && Tokens(l.args[0])[0] == ts[pos]
    decreases |ts| - pos, 21
  {
    hide ParseExpression;
    ExpressionSpans(ts, pos);
    var e := ParseExpression(ts, pos);
    assert Tokens(e.value)[0] == ts[pos];
    Join(ts, pos, e.next, e.next);
    if Text(ts, e.next) == "," {
      ItemsSpan(ts, e.next + 1, close);
      var rest := ParseItems(ts, e.next + 1, close);
      Join(ts, pos, e.next + 1, rest.next);
      ItemsJoin(ts, pos, e.value, e.next, rest.value, rest.next);
    }
  }

  lemma ItemsJoin(ts: seq<Token>, pos: nat, e: Cst, n: nat, rest: List, k: nat)
    requires Spans(ts, pos, e, n) && Starts(e) && n < k <= |ts| && ts[n].text == ","
    requires rest.args != [] && AllFit(rest.args) && NoneGeneric(ts, n + 1, rest.args) && Commas(rest.args, rest.commas)
    requires ListTokens(rest.args, rest.commas) + [rest.close] == ts[n + 1..k]
    ensures var l := List([e] + rest.args, [ts[n]] + rest.commas, rest.close);
            && AllFit(l.args) && NoneGeneric(ts, pos, l.args) && Commas(l.args, l.commas)
            && ListTokens(l.args, l.commas) + [l.close] == ts[pos..k]
  {
    Join(ts, pos, n, n);
    Join(ts, pos, n + 1, k);
    var l := List([e] + rest.args, [ts[n]] + rest.commas, rest.close);
    assert l.args[1..] == rest.args && l.commas[1..] == rest.commas;
    var list := ListTokens(rest.args, rest.commas);
    assert ListTokens(l.args, l.commas) == Tokens(e) + [ts[n]] + list;
    assert Tokens(e) + [ts[n]] + list + [l.close] == ts[pos..n + 1] + (list + [l.close]);
  }

  lemma {:induction false} PrimarySpans(ts: seq<Token>, pos: nat)
    requires pos <= |ts| && ParsePrimary(ts, pos).Ok?
    ensures var r := ParsePrimary(ts, pos);
            Spans(ts, pos, r.value, r.next) && Level(r.value) == POSTFIX && NotCalled(ts, r.value, r.next)
    decreases |ts| - pos, 5
  {
    hide ParseExpression, ParseList, ParseName, Starts;
    var t := At(ts, pos);
    if t.kind in {Number, Bool, Str} {
    } else if t.kind == Ident {
      NameSpans(ts, pos);
    } else if t.text == "(" {
      ExpressionSpans(ts, pos + 1);
      var e := ParseExpression(ts, pos + 1);
      ParenSpans(ts, pos, e.value, e.next);
    } else if t.text == "[" {
      ListSpans(ts, pos + 1, "]");
      var l := ParseList(ts, pos + 1, "]");
      ArraySpans(ts, pos, l.value, l.next);
    }
  }

  lemma ParenSpans(ts: seq<Token>, pos: nat, e: Cst, n: nat)
    requires pos < |ts| && Punctuation(ts[pos], "(") && Spans(ts, pos + 1, e, n) && Starts(e)
    ensures n < |ts| && ts[n].text == ")" ==> Spans(ts, pos, Paren(ts[pos], e, ts[n]), n + 1)
  {
    Join(ts, pos, pos, pos + 1);
    Join(ts, pos, pos + 1, n);
    Join(ts, pos, n, n);
  }

  lemma ArraySpans(ts: seq<Token>, pos: nat, l: List, n: nat)
    requires pos < |ts| && Punctuation(ts[pos], "[") && SpansList(ts, pos + 1, l, "]", n)
    ensures Spans(ts, pos, Array(ts[pos], l.args, l.commas, l.close), n)
  {
    Join(ts, pos, pos + 1, n);
    var list := ListTokens(l.args, l.commas);
    assert [ts[pos]] + list + [l.close] == ts[pos..pos + 1] + (list + [l.close]);
  }

  lemma {:induction false} NameSpans(ts: seq<Token>, pos: nat)
    requires pos < |ts| && ts[pos].kind == Ident && ts[pos].text != "fn" && ParseName(ts, pos).Ok?
    ensures var r := ParseName(ts, pos);
            Spans(ts, pos, r.value, r.next) && Level(r.value) == POSTFIX && NotCalled(ts, r.value, r.next)
    decreases |ts| - pos, 4
  {
    hide ParseList;
    var id := Id(ts[pos]);
    assert Spans(ts, pos, id, pos + 1);
    if ts[pos].text != "None" && Text(ts, pos + 1) == "(" {
      ListSpans(ts, pos + 2, ")");
      var l := ParseList(ts, pos + 2, ")");
      CallSpans(ts, pos, id, pos + 1, l.value, l.next);
    }
  }
}
