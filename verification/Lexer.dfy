/**
  The tokenizer: one loop over a position, a line and a column. Its tokens are in order
  and do not overlap, and their lines and columns lead back to where they start.
 */
module Lexer {
  import opened Options
  import opened Syntax
  import opened Lexing
  import opened Positions

  datatype Lexeme = Lexeme(kind: Kind, text: string, line: int, column: int, start: nat, end: nat, generated: bool)

  function ShapeOf(t: Lexeme): Shape {
    Shape(t.kind, t.text, t.start, t.end, t.generated)
  }

  function Shapes(ts: seq<Lexeme>): (r: seq<Shape>)
    ensures |r| == |ts| && forall i :: 0 <= i < |ts| ==> r[i] == ShapeOf(ts[i])
  {
    seq(|ts|, i requires 0 <= i < |ts| => ShapeOf(ts[i]))
  }

  lemma ShapesMore(ts: seq<Lexeme>, t: Lexeme)
    ensures Shapes(ts + [t]) == Shapes(ts) + [ShapeOf(t)]
  {
  }

  // ----- what is claimed of the tokens -----

  /** Neither a tab nor a line feed between two positions. */
  predicate NoBreaks(src: string, a: nat, b: nat)
    requires b <= |src|
  {
    forall k :: a <= k < b ==> src[k] != '\t' && src[k] != '\n'
  }

  /** In order, without overlap, inside the source read so far. */
  predicate Ordered(tokens: seq<Lexeme>, pos: nat) {
    && (forall i :: 0 <= i < |tokens| ==> tokens[i].start <= tokens[i].end <= pos)
    && (forall i, j :: 0 <= i < j < |tokens| ==> tokens[i].end <= tokens[j].start)
  }

  /** Inside a literal: there the lexer counts every character as one column. */
  ghost predicate InLiteral(tokens: seq<Lexeme>, k: nat) {
    exists i :: 0 <= i < |tokens| && tokens[i].kind in {Number, Str} && tokens[i].start <= k < tokens[i].end
  }

  /** The place of a position by the lexer's count. */
  ghost function Counted(src: string, tokens: seq<Lexeme>, p: nat): (r: Place)
    requires p <= |src|
    ensures r.line >= 1 && r.column >= 1
  {
    if p == 0 then FIRST
    else
      var at := Counted(src, tokens, p - 1);
      if InLiteral(tokens, p - 1) then Place(at.line, at.column + 1) else After(at, src[p - 1])
  }

  predicate PlacedAt(src: string, t: Lexeme)
    requires t.start <= |src|
  {
    Place(t.line, t.column) == PlaceOf(src, t.start)
  }

  /** Every token that was not generated has the place that was counted for its start. */
  ghost predicate Placed(src: string, tokens: seq<Lexeme>)
    requires Ordered(tokens, |src|)
  {
    forall i :: 0 <= i < |tokens| && !tokens[i].generated
      ==> Place(tokens[i].line, tokens[i].column) == Counted(src, tokens, tokens[i].start)
  }

  lemma Outside(tokens: seq<Lexeme>, pos: nat, k: nat)
    requires Ordered(tokens, pos) && pos <= k
    ensures !InLiteral(tokens, k)
  {
  }

  /** A further token changes nothing before it, and nothing at all when it is no literal. */
  lemma {:induction false} CountedMore(src: string, tokens: seq<Lexeme>, t: Lexeme, p: nat)
    requires p <= |src| && (p <= t.start || t.kind !in {Number, Str})
    ensures Counted(src, tokens + [t], p) == Counted(src, tokens, p)
    decreases p
  {
    if p > 0 {
      CountedMore(src, tokens, t, p - 1);
      LiteralsMore(tokens, t, p - 1);
    }
  }

  lemma LiteralsMore(tokens: seq<Lexeme>, t: Lexeme, k: nat)
    requires k < t.start || t.kind !in {Number, Str}
    ensures InLiteral(tokens + [t], k) == InLiteral(tokens, k)
  {
    var more := tokens + [t];
    if InLiteral(tokens, k) {
      var i :| 0 <= i < |tokens| && tokens[i].kind in {Number, Str} && tokens[i].start <= k < tokens[i].end;
      assert more[i] == tokens[i];
    }
    if InLiteral(more, k) {
      var i :| 0 <= i < |more| && more[i].kind in {Number, Str} && more[i].start <= k < more[i].end;
      assert i < |tokens| && tokens[i] == more[i];
    }
  }

  // ----- places along a line -----

  /** In a literal, and where there are no tabs and line feeds, every character is one column. */
  lemma {:induction false} Straight(src: string, tokens: seq<Lexeme>, a: nat, b: nat)
    requires PlainSource(src) && a <= b <= |src|
    requires (forall k :: a <= k < b ==> InLiteral(tokens, k)) || NoBreaks(src, a, b)
    ensures Counted(src, tokens, b) == Place(Counted(src, tokens, a).line, Counted(src, tokens, a).column + b - a)
    decreases b
  {
    hide InLiteral;
    if a < b { Straight(src, tokens, a, b - 1); }
  }

  lemma {:induction false} SameLine(src: string, tokens: seq<Lexeme>, a: nat, b: nat)
    requires a <= b <= |src| && forall k :: a <= k < b ==> src[k] != '\n'
    ensures Counted(src, tokens, b).line == Counted(src, tokens, a).line
    decreases b
  {
    hide InLiteral;
    if a < b { SameLine(src, tokens, a, b - 1); }
  }

  // ----- pieces of the loop -----

  /** To the end of the line; every character counts as one column, a tab too. */
  method SkipLineComment(src: string, pos: nat, column: int) returns (pos': nat, column': int)
    requires pos < |src| && src[pos] == '/'
    ensures pos < pos' <= |src| && column' == column + pos' - pos
    ensures pos + 1 < |src| && src[pos + 1] != '\n' ==> pos + 1 < pos'
    ensures pos' < |src| ==> src[pos'] == '\n'
    ensures forall k :: pos <= k < pos' ==> src[k] != '\n'
  {
    pos', column' := pos, column;
    while pos' < |src| && src[pos'] != '\n'
      invariant pos <= pos' <= |src| && column' == column + pos' - pos
      invariant forall k :: pos <= k < pos' ==> src[k] != '\n'
    {
      pos' := pos' + 1;
      column' := column' + 1;
    }
  }

  method SkipBlockComment(src: string, pos: nat, at: Place, ghost tokens: seq<Lexeme>)
    returns (pos': nat, at': Place, newline: bool)
    requires PlainSource(src) && pos + 1 < |src| && src[pos] == '/' && src[pos + 1] == '*' && Ordered(tokens, pos)
    ensures pos < pos' == BlockEnd(src, pos + 2) <= |src|
    ensures newline == HasFeed(src, pos + 2, BlockStop(src, pos + 2))
    ensures at == Counted(src, tokens, pos) ==> at' == Counted(src, tokens, pos')
  {
    hide InLiteral, Ordered;
    Outside(tokens, pos, pos);
    Outside(tokens, pos, pos + 1);
    pos' := pos + 2;
    var line, column := at.line, at.column + 2;
    newline := false;
    while pos' + 1 < |src| && (src[pos'] != '*' || src[pos' + 1] != '/')
      invariant pos + 2 <= pos' <= |src| && BlockStop(src, pos') == BlockStop(src, pos + 2)
      invariant newline == HasFeed(src, pos + 2, pos')
      invariant at == Counted(src, tokens, pos) ==> Place(line, column) == Counted(src, tokens, pos')
    {
      Outside(tokens, pos, pos');
      if src[pos'] == '\n' {
        newline := true;
        line := line + 1;
        column := 1;
      } else if src[pos'] == '\t' {
        column := (column - 1) / 8 * 8 + 9;
      } else {
        column := column + 1;
      }
      pos' := pos' + 1;
    }
    if pos' + 1 < |src| {
      Outside(tokens, pos, pos');
      Outside(tokens, pos, pos' + 1);
      pos' := pos' + 2;
      column := column + 2;
    }
    at' := Place(line, column);
  }

  method NextNonSpace(src: string, pos: nat) returns (c: Option<char>)
    ensures c == NextChar(src, pos)
  {
    var i := pos;
    while i < |src|
      invariant NextChar(src, i) == NextChar(src, pos)
      decreases |src| - i
    {
      if src[i] == ' ' || src[i] == '\t' || src[i] == '\r' || src[i] == '\n' {
        i := i + 1;
      } else if src[i] == '/' && i + 1 < |src| && src[i + 1] == '/' {
        ghost var start := i;
        var column;
        i, column := SkipLineComment(src, i, 1);
        LineEndIs(src, start + 1, i);
      } else if src[i] == '/' && i + 1 < |src| && src[i + 1] == '*' {
        ghost var start := i;
        i := i + 2;
        while i + 1 < |src| && (src[i] != '*' || src[i + 1] != '/')
          invariant start < i <= |src| && BlockStop(src, i) == BlockStop(src, start + 2)
        {
          i := i + 1;
        }
        if i + 1 < |src| { i := i + 2; }
      } else {
        return Some(src[i]);
      }
    }
    c := None;
  }

  method NeedsSemicolon(src: string, pos: nat, tokens: seq<Lexeme>) returns (needed: bool)
    ensures needed == SemicolonNeeded(src, pos, Shapes(tokens))
  {
    if tokens == [] { return false; }
    var last := tokens[|tokens| - 1];
    if !CanEndStatement(last.kind, last.text) { return false; }
    var next := NextNonSpace(src, pos);
    needed := next.Some? && (next.value == '}' || next.value == '"' || IsAlpha(next.value) || IsDigit(next.value));
  }

  method Escape(src: string, pos: nat) returns (value: char, n: nat)
    requires pos + 1 < |src| && src[pos] == '\\'
    ensures n == EscapeLength(src, pos) && value == EscapeValue(src, pos)
  {
    var next := src[pos + 1];
    if next == '0' && pos + 3 < |src| && src[pos + 2] == '3' && src[pos + 3] == '3' {
      return 27 as char, 4;
    }
    n := 2;
    value := match next
      case 'n' => 10 as char
      case 't' => 9 as char
      case 'r' => 13 as char
      case _ => next;
  }

  method LexCharacter(src: string, pos: nat, column: int) returns (pos': nat, column': int)
    requires pos < |src|
    ensures pos < pos' == CharacterEnd(src, pos) <= |src| && column' == column + pos' - pos
  {
    pos', column' := pos + 1, column + 1;
    if pos' < |src| {
      if src[pos'] == '\\' && pos' + 1 < |src| {
        var value, n := Escape(src, pos');
        pos', column' := pos' + n, column' + n;
      } else {
        pos', column' := pos' + 1, column' + 1;
      }
    }
    if pos' < |src| && src[pos'] == '\'' {
      pos', column' := pos' + 1, column' + 1;
    }
  }

  method LexString(src: string, pos: nat, column: int) returns (text: string, pos': nat, column': int)
    requires pos < |src|
    ensures pos < pos' <= |src| && column' == column + pos' - pos
    ensures var s := StringFrom(src, pos + 1, ""); text == s.0 && pos' == if s.1 < |src| then s.1 + 1 else s.1
  {
    text := "";
    pos', column' := pos + 1, column + 1;
    while pos' < |src| && src[pos'] != '"'
      invariant pos < pos' <= |src| && column' == column + pos' - pos
      invariant StringFrom(src, pos', text) == StringFrom(src, pos + 1, "")
    {
      if src[pos'] == '\\' && pos' + 1 < |src| {
        var value, n := Escape(src, pos');
        text := text + [value];
        pos', column' := pos' + n, column' + n;
      } else {
        text := text + [src[pos']];
        pos', column' := pos' + 1, column' + 1;
      }
    }
    if pos' < |src| && src[pos'] == '"' {
      pos', column' := pos' + 1, column' + 1;
    }
  }

  lemma {:induction false} WordEndIs(src: string, i: nat, j: nat)
    requires i <= j <= |src| && (j < |src| ==> !IsIdent(src[j])) && forall k :: i <= k < j ==> IsIdent(src[k])
    ensures WordEnd(src, i) == j
    decreases j - i
  {
    if i < j { WordEndIs(src, i + 1, j); }
  }

  lemma WordsHaveNoBreaks(src: string, a: nat, b: nat)
    requires a <= b <= |src| && forall k :: a <= k < b ==> IsIdent(src[k])
    ensures NoBreaks(src, a, b)
  {
  }

  method LexWord(src: string, pos: nat, column: int) returns (text: string, pos': nat, column': int)
    requires pos < |src| && IsAlpha(src[pos])
    ensures pos < pos' == WordEnd(src, pos) <= |src| && text == src[pos..pos']
    ensures column' == column + pos' - pos && NoBreaks(src, pos, pos')
  {
    assert IsIdent(src[pos]);
    hide WordEnd, NoBreaks, IsIdent, IsAlpha;
    text := "";
    pos', column' := pos, column;
    while pos' < |src| && IsIdent(src[pos'])
      invariant pos <= pos' <= |src| && column' == column + pos' - pos && text == src[pos..pos']
      invariant forall k :: pos <= k < pos' ==> IsIdent(src[k])
    {
      text := text + [src[pos']];
      pos', column' := pos' + 1, column' + 1;
    }
    WordEndIs(src, pos, pos');
    WordsHaveNoBreaks(src, pos, pos');
  }

  method SkipDigits(src: string, pos: nat, column: int) returns (pos': nat, column': int)
    requires pos <= |src|
    ensures pos <= pos' == DigitsEnd(src, pos) <= |src| && column' == column + pos' - pos && NoBreaks(src, pos, pos')
  {
    pos', column' := pos, column;
    while pos' < |src| && IsDigit(src[pos'])
      invariant pos <= pos' <= |src| && column' == column + pos' - pos && DigitsEnd(src, pos') == DigitsEnd(src, pos)
      invariant forall k :: pos <= k < pos' ==> IsDigit(src[k])
    {
      pos', column' := pos' + 1, column' + 1;
    }
  }

  method LexNumber(src: string, pos: nat, column: int) returns (kind: Kind, pos': nat, column': int)
    requires pos < |src| && IsDigit(src[pos])
    ensures kind in {Number, Float} && kind == TokenAt(src, pos).kind && pos' == TokenAt(src, pos).end
    ensures pos < pos' <= |src| && column' == column + pos' - pos && NoBreaks(src, pos, pos')
  {
    kind := Number;
    pos', column' := SkipDigits(src, pos, column);
    if pos' + 1 < |src| && src[pos'] == '.' && IsDigit(src[pos' + 1]) {
      kind := Float;
      pos', column' := SkipDigits(src, pos' + 1, column' + 1);
    }
  }

  lemma SymbolHasNoBreaks(src: string, pos: nat)
    requires pos < |src| && src[pos] != '\t' && src[pos] != '\n'
    ensures NoBreaks(src, pos, pos + SymbolLength(src, pos))
  {
  }

  // ----- one token -----

  /** The token at a character that is neither blank nor the start of a comment. */
  method LexToken(src: string, pos: nat, line: int, column: int) returns (t: Lexeme, pos': nat, column': int)
    requires pos < |src| && src[pos] !in {' ', '\r', '\t', '\n'}
    ensures pos < pos' <= |src| && column' == column + pos' - pos
    ensures ShapeOf(t) == TokenAt(src, pos) && t.end == pos' && t.line == line && t.column == column
    ensures t.kind !in {Number, Str} ==> NoBreaks(src, pos, pos')
  {
    var c := src[pos];
    if c == '\'' {
      if pos + 1 < |src| && IsAlpha(src[pos + 1]) && (pos + 2 >= |src| || src[pos + 2] != '\'') {
        t := Lexeme(Symbol, "'", line, column, pos, pos + 1, false);
        return t, pos + 1, column + 1;
      }
      pos', column' := LexCharacter(src, pos, column);
      t := Lexeme(Number, "", line, column, pos, pos', false);
    } else if c == '"' {
      var text;
      text, pos', column' := LexString(src, pos, column);
      t := Lexeme(Str, text, line, column, pos, pos', false);
    } else if IsAlpha(c) {
      var text;
      text, pos', column' := LexWord(src, pos, column);
      var kind := if text in {"true", "false"} then Bool else if IsKeyword(text) then Keyword else Ident;
      t := Lexeme(kind, text, line, column, pos, pos', false);
    } else if IsDigit(c) {
      var kind;
      kind, pos', column' := LexNumber(src, pos, column);
      t := Lexeme(kind, if kind == Float then src[pos..pos'] else "", line, column, pos, pos', false);
    } else {
      SymbolHasNoBreaks(src, pos);
      var n := SymbolLength(src, pos);
      t := Lexeme(Symbol, src[pos..pos + n], line, column, pos, pos + n, false);
      pos', column' := pos + n, column + n;
    }
  }

  // ----- the loop -----

  /** The line is right, and so is the column but at the end of a line comment. */
  ghost predicate InStep(src: string, tokens: seq<Lexeme>, pos: nat, at: Place)
    requires pos <= |src|
  {
    && at.line == Counted(src, tokens, pos).line
    && (at == Counted(src, tokens, pos) || (pos < |src| && src[pos] == '\n'))
  }

  lemma Pushed(src: string, tokens: seq<Lexeme>, t: Lexeme, pos: nat)
    requires Ordered(tokens, pos) && pos <= t.start <= t.end <= |src| && Placed(src, tokens)
    requires !t.generated ==> Place(t.line, t.column) == Counted(src, tokens, t.start)
    ensures Ordered(tokens + [t], t.end) && Placed(src, tokens + [t])
  {
    hide InLiteral, Counted;
    var more := tokens + [t];
    forall i | 0 <= i < |more| && !more[i].generated
      ensures Place(more[i].line, more[i].column) == Counted(src, more, more[i].start)
    {
      if i < |tokens| { assert more[i] == tokens[i]; }
      CountedMore(src, tokens, t, more[i].start);
    }
  }

  /** The state of the loop between two steps. */
  ghost predicate Going(src: string, tokens: seq<Lexeme>, pos: nat, line: int, column: int) {
    pos <= |src| && Ordered(tokens, pos) && Placed(src, tokens) && InStep(src, tokens, pos, Place(line, column))
  }

  lemma Begun(src: string)
    ensures Going(src, [], 0, 1, 1)
  {
  }

  /** A character that is no token: blank or tab. */
  lemma BlankStep(src: string, tokens: seq<Lexeme>, pos: nat, line: int, column: int, column': int)
    requires PlainSource(src) && Going(src, tokens, pos, line, column) && pos < |src| && src[pos] in {' ', '\t'}
    requires column' == if src[pos] == ' ' then column + 1 else TabStop(column)
    ensures Going(src, tokens, pos + 1, line, column')
  {
    hide Placed, InLiteral;
    Outside(tokens, pos, pos);
  }

  lemma LineFeedStep(src: string, tokens: seq<Lexeme>, pos: nat, line: int, column: int)
    requires Going(src, tokens, pos, line, column) && pos < |src| && src[pos] == '\n'
    ensures Going(src, tokens, pos + 1, line + 1, 1)
  {
    hide Placed, InLiteral;
    Outside(tokens, pos, pos);
  }

  lemma CommentStep(src: string, tokens: seq<Lexeme>, pos: nat, line: int, column: int, pos': nat, column': int)
    requires PlainSource(src) && Going(src, tokens, pos, line, column) && pos + 1 < pos' < |src|
    requires src[pos] == '/' && src[pos + 1] == '/' && column' == column + pos' - pos
    requires (forall k :: pos <= k < pos' ==> src[k] != '\n') && src[pos'] == '\n'
    ensures Going(src, tokens, pos', line, column')
  {
    hide Placed, Counted;
    SameLine(src, tokens, pos, pos');
  }

  /** The place that the lexer reaches when the source ends in a line comment. */
  ghost predicate TailReached(src: string, tokens: seq<Lexeme>, line: int, column: int, start: nat) {
    && Ordered(tokens, |src|) && Placed(src, tokens) && start <= |src|
    && Place(line, column) == TailPlace(src, tokens, start)
  }

  /** Along a line comment every character counts as one column. */
  ghost function TailPlace(src: string, tokens: seq<Lexeme>, start: nat): Place
    requires start <= |src|
  {
    var at := Counted(src, tokens, start);
    Place(at.line, at.column + |src| - start)
  }

  lemma TailStep(src: string, tokens: seq<Lexeme>, pos: nat, line: int, column: int, column': int)
    requires PlainSource(src) && Going(src, tokens, pos, line, column) && pos < |src|
    requires column' == column + |src| - pos && src[pos] != '\n'
    ensures TailReached(src, tokens, line, column', pos)
  {
    hide Counted;
  }

  lemma BlockStep(src: string, tokens: seq<Lexeme>, pos: nat, line: int, column: int, pos': nat, at': Place)
    requires Going(src, tokens, pos, line, column) && pos < pos' <= |src| && src[pos] != '\n'
    requires Place(line, column) == Counted(src, tokens, pos) ==> at' == Counted(src, tokens, pos')
    ensures Going(src, tokens, pos', at'.line, at'.column)
  {
    hide Counted, InLiteral;
  }

  /** A semicolon is added at the position itself or for the line feed just read. */
  lemma SemicolonStep(src: string, tokens: seq<Lexeme>, pos: nat, line: int, column: int, t: Lexeme)
    requires Going(src, tokens, pos, line, column) && t.generated && t.kind == Symbol && t.start <= t.end == pos
    requires Ordered(tokens, t.start)
    ensures Going(src, tokens + [t], pos, line, column)
  {
    hide Placed, Counted;
    Pushed(src, tokens, t, t.start);
    CountedMore(src, tokens, t, pos);
  }

  lemma TokenStep(src: string, tokens: seq<Lexeme>, pos: nat, line: int, column: int, t: Lexeme, pos': nat, column': int)
    requires PlainSource(src) && Going(src, tokens, pos, line, column) && pos < pos' <= |src| && src[pos] != '\n'
    requires t.start == pos && t.end == pos' && t.line == line && t.column == column && !t.generated
    requires column' == column + pos' - pos && (t.kind !in {Number, Str} ==> NoBreaks(src, pos, pos'))
    ensures Going(src, tokens + [t], pos', line, column')
  {
    hide Placed, NoBreaks, Counted;
    Pushed(src, tokens, t, pos);
    CountedMore(src, tokens, t, pos);
    var more := tokens + [t];
    assert more[|tokens|] == t;
    if t.kind in {Number, Str} { assert forall k :: pos <= k < pos' ==> InLiteral(more, k); }
    Straight(src, more, pos, pos');
  }

  /** Where the lexer puts the end token. */
  ghost function EndPlace(src: string, tokens: seq<Lexeme>): Place {
    match TrailingComment(src, 0)
    case None => Counted(src, tokens, |src|)
    case Some(start) => TailPlace(src, tokens, start)
  }

  /** The tokens are those of the source; each has the place that was counted for its start,
      and the end token the place that the columns of a comment at the end lead to. */
  method Tokenize(src: string) returns (tokens: seq<Lexeme>)
    requires PlainSource(src)
    ensures tokens != [] && Ordered(tokens, |src|)
    ensures Placed(src, tokens[..|tokens| - 1])
    ensures var eof := tokens[|tokens| - 1];
            && eof.kind == Eof && eof.start == eof.end == |src| && !eof.generated
            && Place(eof.line, eof.column) == EndPlace(src, tokens)
    ensures Shapes(tokens) == LexFrom(src, 0, [])
  {
    hide NoBreaks, Placed, Going, InStep, Counted, TokenAt, LineEnd, BlockEnd, HasFeed, SemicolonNeeded, TailReached;
    tokens := [];
    var pos, line, column := 0, 1, 1;
    ghost var tail: Option<nat> := None;
    Begun(src);
    while pos < |src|
      invariant Ordered(tokens, pos) && pos <= |src|
      invariant if tail.None? then Going(src, tokens, pos, line, column)
                else pos == |src| && TailReached(src, tokens, line, column, tail.value)
      invariant TrailingComment(src, 0) == if tail.None? then TrailingComment(src, pos) else tail
      invariant LexFrom(src, pos, Shapes(tokens)) == LexFrom(src, 0, [])
      decreases |src| - pos
    {
      var c := src[pos];
      var next := if pos + 1 < |src| then src[pos + 1] else ' ';
      if c == ' ' || c == '\t' {
        ghost var before := column;
        column := if c == ' ' then column + 1 else (column - 1) / 8 * 8 + 9;
        BlankStep(src, tokens, pos, line, before, column);
        pos := pos + 1;
      } else if c == '\n' {
        pos, tokens := LexLineFeed(src, tokens, pos, line, column);
        line, column := line + 1, 1;
      } else if c == '/' && next == '/' {
        var pos', column' := SkipLineComment(src, pos, column);
        LineEndIs(src, pos + 1, pos');
        if pos' < |src| {
          CommentStep(src, tokens, pos, line, column, pos', column');
        } else {
          TailStep(src, tokens, pos, line, column, column');
          tail := Some(pos);
          TailIsOrdered(src, tokens, line, column', pos);
        }
        pos, column := pos', column';
      } else if c == '/' && next == '*' {
        tokens, pos, line, column := LexBlockComment(src, tokens, pos, line, column);
      } else {
        var t, pos', column' := LexToken(src, pos, line, column);
        TokenStep(src, tokens, pos, line, column, t, pos', column');
        ShapesMore(tokens, t);
        tokens, pos, column := tokens + [t], pos', column';
      }
    }
    var eof := Lexeme(Eof, "", line, column, pos, pos, false);
    if tail.None? { EndStep(src, tokens, line, column); }
    EndPlaced(src, tokens, eof, tail);
    ShapesMore(tokens, eof);
    tokens := tokens + [eof];
  }

  lemma TailIsOrdered(src: string, tokens: seq<Lexeme>, line: int, column: int, start: nat)
    requires TailReached(src, tokens, line, column, start)
    ensures Ordered(tokens, |src|) && Placed(src, tokens)
  {
  }

  lemma EndStep(src: string, tokens: seq<Lexeme>, line: int, column: int)
    requires Going(src, tokens, |src|, line, column)
    ensures Ordered(tokens, |src|) && Placed(src, tokens)
    ensures Place(line, column) == Counted(src, tokens, |src|)
  {
  }

  lemma EndPlaced(src: string, tokens: seq<Lexeme>, eof: Lexeme, tail: Option<nat>)
    requires Ordered(tokens, |src|) && eof.start == eof.end == |src| && tail == TrailingComment(src, 0) && eof.kind == Eof
    requires if tail.None? then Placed(src, tokens) && Place(eof.line, eof.column) == Counted(src, tokens, |src|)
             else TailReached(src, tokens, eof.line, eof.column, tail.value)
    ensures var more := tokens + [eof];
            && Ordered(more, |src|) && Placed(src, more[..|more| - 1])
            && Place(eof.line, eof.column) == EndPlace(src, more)
  {
    hide Placed, Counted;
    var more := tokens + [eof];
    assert more[..|more| - 1] == tokens;
    if tail.Some? { TailIsOrdered(src, tokens, eof.line, eof.column, tail.value); }
    CountedMore(src, tokens, eof, if tail.Some? then tail.value else |src|);
  }

  lemma GoingIsPlaced(src: string, tokens: seq<Lexeme>, pos: nat, line: int, column: int)
    requires Going(src, tokens, pos, line, column)
    ensures Ordered(tokens, |src|) && Placed(src, tokens)
  {
  }

  method LexLineFeed(src: string, tokens: seq<Lexeme>, pos: nat, line: int, column: int) returns (pos': nat, tokens': seq<Lexeme>)
    requires Going(src, tokens, pos, line, column) && pos < |src| && src[pos] == '\n'
    ensures pos' == pos + 1 && Ordered(tokens', pos') && Going(src, tokens', pos', line + 1, 1)
    ensures Shapes(tokens') == WithSemicolon(src, Shapes(tokens), pos', pos)
  {
    hide NoBreaks, Placed, InStep, Counted;
    pos', tokens' := pos + 1, tokens;
    LineFeedStep(src, tokens, pos, line, column);
    var needed := NeedsSemicolon(src, pos', tokens);
    if needed {
      var semicolon := Lexeme(Symbol, ";", line, column, pos' - 1, pos', true);
      SemicolonStep(src, tokens, pos', line + 1, 1, semicolon);
      ShapesMore(tokens, semicolon);
      tokens' := tokens + [semicolon];
    }
  }

  method LexBlockComment(src: string, tokens: seq<Lexeme>, pos: nat, line: int, column: int)
    returns (tokens': seq<Lexeme>, pos': nat, line': int, column': int)
    requires PlainSource(src) && Going(src, tokens, pos, line, column)
    requires pos + 1 < |src| && src[pos] == '/' && src[pos + 1] == '*'
    ensures pos < pos' <= |src| && Ordered(tokens', pos') && Going(src, tokens', pos', line', column')
    ensures pos' == BlockEnd(src, pos + 2)
    ensures Shapes(tokens') == if HasFeed(src, pos + 2, BlockStop(src, pos + 2)) then WithSemicolon(src, Shapes(tokens), pos', pos')
                               else Shapes(tokens)
  {
    hide NoBreaks, Placed, InStep, Counted;
    var at, newline;
    pos', at, newline := SkipBlockComment(src, pos, Place(line, column), tokens);
    BlockStep(src, tokens, pos, line, column, pos', at);
    tokens', line', column' := tokens, at.line, at.column;
    var needed := NeedsSemicolon(src, pos', tokens);
    if newline && needed {
      var semicolon := Lexeme(Symbol, ";", line', column', pos', pos', true);
      SemicolonStep(src, tokens, pos', line', column', semicolon);
      ShapesMore(tokens, semicolon);
      tokens' := tokens + [semicolon];
    }
  }

}
