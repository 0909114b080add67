/**
  What the tokens of a source are, apart from lines and columns.
 */
module Lexing {
  import opened Options
  import opened Syntax

  predicate IsAlpha(c: char) {
    'a' <= c <= 'z' || 'A' <= c <= 'Z' || c == '_'
  }

  predicate IsDigit(c: char) {
    '0' <= c <= '9'
  }

  predicate IsIdent(c: char) {
    IsAlpha(c) || IsDigit(c)
  }

  predicate IsKeyword(text: string) {
    text in {"fn", "return", "let", "mut", "if", "elif", "else", "while", "for", "in",
             "match", "struct", "type", "pub", "import", "extern", "break", "continue", "mod", "as",
             "i32", "i64", "i8", "f32", "f64", "string", "void", "nil", "true", "false",
             "and", "or", "print"}
  }

  predicate CanEndStatement(kind: Kind, text: string) {
    kind in {Ident, Number, Float, Str, Bool} || text in {")", "]", "}", "break", "continue", "return"}
  }

  // ----- blanks and comments -----

  /** The end of the line that a position is on. */
  function LineEnd(src: string, i: nat): (r: nat)
    ensures i < |src| ==> i <= r <= |src|
    decreases |src| - i
  {
    if i >= |src| || src[i] == '\n' then i else LineEnd(src, i + 1)
  }

  lemma {:induction false} LineEndIs(src: string, i: nat, j: nat)
    requires i <= j <= |src| && (j < |src| ==> src[j] == '\n') && forall k :: i <= k < j ==> src[k] != '\n'
    ensures LineEnd(src, i) == j
    decreases j - i
  {
    if i < j { LineEndIs(src, i + 1, j); }
  }

  /** Where the scan of a block comment stops: at its end mark, or at the last character. */
  function BlockStop(src: string, i: nat): (r: nat)
    ensures i <= r && (i < |src| ==> r < |src|)
    decreases |src| - i
  {
    if i + 1 >= |src| || (src[i] == '*' && src[i + 1] == '/') then i else BlockStop(src, i + 1)
  }

  function BlockEnd(src: string, i: nat): (r: nat)
    ensures i <= r && (i <= |src| ==> r <= |src|)
  {
    var stop := BlockStop(src, i);
    if stop + 1 < |src| then stop + 2 else stop
  }

  /** The next character that is neither blank nor in a comment. */
  function NextChar(src: string, i: nat): Option<char>
    decreases |src| - i
  {
    if i >= |src| then None
    else if src[i] in {' ', '\t', '\r', '\n'} then NextChar(src, i + 1)
    else if src[i] == '/' && i + 1 < |src| && src[i + 1] == '/' then NextChar(src, LineEnd(src, i + 1))
    else if src[i] == '/' && i + 1 < |src| && src[i + 1] == '*' then NextChar(src, BlockEnd(src, i + 2))
    else Some(src[i])
  }

  /** A statement can begin with this character. */
  predicate StartsStatement(c: char) {
    c == '}' || c == '"' || IsAlpha(c) || IsDigit(c)
  }

  // ----- one token -----

  /** The longest operator that starts here: one, two or three characters. */
  function SymbolLength(src: string, pos: nat): (n: nat)
    requires pos < |src|
    ensures 1 <= n && pos + n <= |src|
  {
    if pos + 1 >= |src| then 1
    else
      var c, next := src[pos], src[pos + 1];
      if c == '.' && next == '.' then (if pos + 2 < |src| && src[pos + 2] == '.' then 3 else 2)
      else if [c, next] in {"=>", "==", "!=", "<=", "<<", ">=", ">>", "+=", "-=", "->", "**", "::", "??", "|>"} then 2
      else 1
  }

  function EscapeLength(src: string, pos: nat): (n: nat)
    requires pos + 1 < |src|
    ensures 2 <= n && pos + n <= |src|
  {
    if src[pos + 1] == '0' && pos + 3 < |src| && src[pos + 2] == '3' && src[pos + 3] == '3' then 4 else 2
  }

  /** The escapes in a literal; an escape is two characters, or the four of `\033`. */
  function EscapeValue(src: string, pos: nat): char
    requires pos + 1 < |src|
  {
    if EscapeLength(src, pos) == 4 then 27 as char
    else match src[pos + 1]
      case 'n' => 10 as char
      case 't' => 9 as char
      case 'r' => 13 as char
      case c => c
  }

  function CharacterEnd(src: string, pos: nat): (r: nat)
    requires pos < |src|
    ensures pos < r <= |src|
  {
    var p := if pos + 1 >= |src| then pos + 1
             else if src[pos + 1] == '\\' && pos + 2 < |src| then pos + 1 + EscapeLength(src, pos + 1)
             else pos + 2;
    if p < |src| && src[p] == '\'' then p + 1 else p
  }

  /** The text of a string literal from a position on, and where its characters end. */
  function StringFrom(src: string, pos: nat, text: string): (r: (string, nat))
    requires pos <= |src|
    ensures pos <= r.1 <= |src|
    decreases |src| - pos
  {
    if pos == |src| || src[pos] == '"' then (text, pos)
    else if src[pos] == '\\' && pos + 1 < |src| then StringFrom(src, pos + EscapeLength(src, pos), text + [EscapeValue(src, pos)])
    else StringFrom(src, pos + 1, text + [src[pos]])
  }

  function WordEnd(src: string, pos: nat): (r: nat)
    requires pos <= |src|
    ensures pos <= r <= |src| && (pos < |src| && IsIdent(src[pos]) ==> pos < r)
    decreases |src| - pos
  {
    if pos < |src| && IsIdent(src[pos]) then WordEnd(src, pos + 1) else pos
  }

  function DigitsEnd(src: string, pos: nat): (r: nat)
    requires pos <= |src|
    ensures pos <= r <= |src| && (pos < |src| && IsDigit(src[pos]) ==> pos < r)
    decreases |src| - pos
  {
    if pos < |src| && IsDigit(src[pos]) then DigitsEnd(src, pos + 1) else pos
  }

  datatype Shape = Shape(kind: Kind, text: string, start: nat, end: nat, generated: bool)

  function WordKind(text: string): Kind {
    if text in {"true", "false"} then Bool else if IsKeyword(text) then Keyword else Ident
  }

  /** The token at a character that is neither blank nor the start of a comment. */
  function TokenAt(src: string, pos: nat): (t: Shape)
    requires pos < |src|
    ensures t.start == pos < t.end <= |src| && !t.generated
  {
    var c := src[pos];
    if c == '\'' then
      if pos + 1 < |src| && IsAlpha(src[pos + 1]) && (pos + 2 >= |src| || src[pos + 2] != '\'')
      then Shape(Symbol, "'", pos, pos + 1, false)
      else Shape(Number, "", pos, CharacterEnd(src, pos), false)
    else if c == '"' then
      var s := StringFrom(src, pos + 1, "");
      Shape(Str, s.0, pos, if s.1 < |src| then s.1 + 1 else s.1, false)
    else if IsAlpha(c) then
      var end := WordEnd(src, pos);
      Shape(WordKind(src[pos..end]), src[pos..end], pos, end, false)
    else if IsDigit(c) then
      var whole := DigitsEnd(src, pos);
      if whole + 1 < |src| && src[whole] == '.' && IsDigit(src[whole + 1])
      then var end := DigitsEnd(src, whole + 1); Shape(Float, src[pos..end], pos, end, false)
      else Shape(Number, "", pos, whole, false)
    else
      var end := pos + SymbolLength(src, pos);
      Shape(Symbol, src[pos..end], pos, end, false)
  }

  // ----- all tokens -----

  /** A line feed ends the statement when the last token can end one and what follows can
      begin one. */
  predicate SemicolonNeeded(src: string, pos: nat, tokens: seq<Shape>) {
    && tokens != [] && CanEndStatement(tokens[|tokens| - 1].kind, tokens[|tokens| - 1].text)
    && NextChar(src, pos).Some? && StartsStatement(NextChar(src, pos).value)
  }

  function WithSemicolon(src: string, tokens: seq<Shape>, after: nat, start: nat): seq<Shape>
    requires start <= after
  {
    if SemicolonNeeded(src, after, tokens) then tokens + [Shape(Symbol, ";", start, after, true)] else tokens
  }

  predicate IsComment(src: string, pos: nat, second: char) {
    pos + 1 < |src| && src[pos] == '/' && src[pos + 1] == second
  }

  predicate HasFeed(src: string, from: nat, to: nat) {
    exists k :: from <= k < to && k < |src| && src[k] == '\n'
  }

  /** The tokens from a position on, after those there are. */
  function LexFrom(src: string, pos: nat, tokens: seq<Shape>): seq<Shape>
    requires pos <= |src|
    decreases |src| - pos
  {
    if pos == |src| then tokens + [Shape(Eof, "", pos, pos, false)]
    else if src[pos] in {' ', '\r', '\t'} then LexFrom(src, pos + 1, tokens)
    else if src[pos] == '\n' then LexFrom(src, pos + 1, WithSemicolon(src, tokens, pos + 1, pos))
    else if IsComment(src, pos, '/') then LexFrom(src, LineEnd(src, pos + 1), tokens)
    else if IsComment(src, pos, '*') then
      var end := BlockEnd(src, pos + 2);
      LexFrom(src, end, if HasFeed(src, pos + 2, BlockStop(src, pos + 2)) then WithSemicolon(src, tokens, end, end) else tokens)
    else LexFrom(src, TokenAt(src, pos).end, tokens + [TokenAt(src, pos)])
  }

  /** Where the line comment begins that the source ends in, if it does. */
  function TrailingComment(src: string, pos: nat): (r: Option<nat>)
    requires pos <= |src|
    ensures r.Some? ==> pos <= r.value && IsComment(src, r.value, '/') && LineEnd(src, r.value + 1) == |src|
    decreases |src| - pos
  {
    if pos == |src| then None
    else if src[pos] in {' ', '\r', '\t', '\n'} then TrailingComment(src, pos + 1)
    else if IsComment(src, pos, '/') then
      if LineEnd(src, pos + 1) == |src| then Some(pos) else TrailingComment(src, LineEnd(src, pos + 1))
    else if IsComment(src, pos, '*') then TrailingComment(src, BlockEnd(src, pos + 2))
    else TrailingComment(src, TokenAt(src, pos).end)
  }

  lemma {:induction false} NoFeedBefore(src: string, i: nat)
    requires i <= |src|
    ensures forall k :: i <= k < LineEnd(src, i) ==> src[k] != '\n'
    decreases |src| - i
  {
    if i < |src| && src[i] != '\n' { NoFeedBefore(src, i + 1); }
  }

  // ----- nothing is lost -----

  /** Blanks and comments, whole ones, from one position to another. */
  ghost predicate Blank(src: string, a: nat, b: nat)
    decreases |src| - a
  {
    a == b ||
    (a < b <= |src| &&
     if src[a] in {' ', '\r', '\t', '\n'} then Blank(src, a + 1, b)
     else if IsComment(src, a, '/') then Blank(src, LineEnd(src, a + 1), b)
     else IsComment(src, a, '*') && Blank(src, BlockEnd(src, a + 2), b))
  }

  lemma {:induction false} BlankThen(src: string, a: nat, b: nat, c: nat)
    requires Blank(src, a, b) && Blank(src, b, c) && a <= b <= c
    ensures Blank(src, a, c)
    decreases |src| - a
  {
    if a < b && b < c {
      BlankInside(src, a, b);
      if src[a] in {' ', '\r', '\t', '\n'} { BlankThen(src, a + 1, b, c); }
      else if IsComment(src, a, '/') { BlankThen(src, LineEnd(src, a + 1), b, c); }
      else { BlankThen(src, BlockEnd(src, a + 2), b, c); }
    }
  }

  lemma {:induction false} BlankInside(src: string, a: nat, b: nat)
    requires Blank(src, a, b) && a < b
    ensures var next := if src[a] in {' ', '\r', '\t', '\n'} then a + 1
                        else if IsComment(src, a, '/') then LineEnd(src, a + 1) else BlockEnd(src, a + 2);
            a < next <= b
  {
  }

  function EndOf(tokens: seq<Shape>): nat {
    if tokens == [] then 0 else tokens[|tokens| - 1].end
  }

  /** Each token is what stands at its place, and only blanks and comments stand before it. */
  ghost predicate Faithful(src: string, tokens: seq<Shape>) {
    forall i :: 0 <= i < |tokens| ==>
      && EndOf(tokens[..i]) <= tokens[i].start <= tokens[i].end <= |src| && Blank(src, EndOf(tokens[..i]), tokens[i].start)
      && (tokens[i].generated || tokens[i].kind == Eof || (tokens[i].start < |src| && tokens[i] == TokenAt(src, tokens[i].start)))
      && (tokens[i].generated ==> tokens[i].text == ";" && Blank(src, tokens[i].start, tokens[i].end))
  }

  lemma FaithfulMore(src: string, tokens: seq<Shape>, t: Shape)
    requires Faithful(src, tokens) && EndOf(tokens) <= t.start <= t.end <= |src| && Blank(src, EndOf(tokens), t.start)
    requires t.generated || t.kind == Eof || (t.start < |src| && t == TokenAt(src, t.start))
    requires t.generated ==> t.text == ";" && Blank(src, t.start, t.end)
    ensures Faithful(src, tokens + [t])
  {
    hide Blank, TokenAt;
    var more := tokens + [t];
    forall i | 0 <= i < |more|
      ensures EndOf(more[..i]) <= more[i].start <= more[i].end <= |src| && Blank(src, EndOf(more[..i]), more[i].start)
    {
      assert more[..i] == tokens[..i];
      if i == |tokens| { assert tokens[..i] == tokens; }
    }
  }

  lemma OneBlank(src: string, a: nat, b: nat)
    requires a < b <= |src|
    requires if src[a] in {' ', '\r', '\t', '\n'} then b == a + 1
             else if IsComment(src, a, '/') then b == LineEnd(src, a + 1)
             else IsComment(src, a, '*') && b == BlockEnd(src, a + 2)
    ensures Blank(src, a, b)
  {
    assert Blank(src, b, b);
  }

  predicate Ended(src: string, tokens: seq<Shape>) {
    tokens != [] && tokens[|tokens| - 1] == Shape(Eof, "", |src|, |src|, false)
  }

  lemma {:induction false} LexIsFaithful(src: string, pos: nat, tokens: seq<Shape>)
    requires pos <= |src| && Faithful(src, tokens) && EndOf(tokens) <= pos && Blank(src, EndOf(tokens), pos)
    ensures Faithful(src, LexFrom(src, pos, tokens)) && Ended(src, LexFrom(src, pos, tokens))
    decreases |src| - pos
  {
    hide Faithful, Blank, TokenAt, SemicolonNeeded, LineEnd, BlockEnd, HasFeed;
    if pos == |src| {
      FaithfulMore(src, tokens, Shape(Eof, "", pos, pos, false));
    } else if src[pos] in {' ', '\r', '\t'} {
      OneBlank(src, pos, pos + 1);
      BlankThen(src, EndOf(tokens), pos, pos + 1);
      LexIsFaithful(src, pos + 1, tokens);
    } else if src[pos] == '\n' {
      OneBlank(src, pos, pos + 1);
      BlankThen(src, EndOf(tokens), pos, pos + 1);
      SemicolonFaithful(src, tokens, pos + 1, pos);
      LexIsFaithful(src, pos + 1, WithSemicolon(src, tokens, pos + 1, pos));
    } else if IsComment(src, pos, '/') {
      var end := LineEnd(src, pos + 1);
      OneBlank(src, pos, end);
      BlankThen(src, EndOf(tokens), pos, end);
      LexIsFaithful(src, end, tokens);
    } else if IsComment(src, pos, '*') {
      var end := BlockEnd(src, pos + 2);
      OneBlank(src, pos, end);
      BlankThen(src, EndOf(tokens), pos, end);
      NoBlank(src, end);
      SemicolonFaithful(src, tokens, end, end);
      LexIsFaithful(src, end, if HasFeed(src, pos + 2, BlockStop(src, pos + 2)) then WithSemicolon(src, tokens, end, end) else tokens);
    } else {
      var t := TokenAt(src, pos);
      FaithfulMore(src, tokens, t);
      NoBlank(src, t.end);
      LexIsFaithful(src, t.end, tokens + [t]);
    }
  }

  lemma NoBlank(src: string, a: nat)
    ensures Blank(src, a, a)
  {
  }

  lemma SemicolonFaithful(src: string, tokens: seq<Shape>, after: nat, start: nat)
    requires Faithful(src, tokens) && EndOf(tokens) <= start <= after <= |src|
    requires Blank(src, EndOf(tokens), start) && Blank(src, start, after) && Blank(src, EndOf(tokens), after)
    ensures var more := WithSemicolon(src, tokens, after, start);
            Faithful(src, more) && EndOf(more) <= after && Blank(src, EndOf(more), after)
  {
    hide Faithful, Blank, SemicolonNeeded;
    if SemicolonNeeded(src, after, tokens) {
      FaithfulMore(src, tokens, Shape(Symbol, ";", start, after, true));
      NoBlank(src, after);
    }
  }

  /** Every character of a source is in one token, in a blank or in a comment; a token is
      what can be read where it stands; only semicolons are added. */
  lemma NothingIsLost(src: string)
    ensures Faithful(src, LexFrom(src, 0, [])) && Ended(src, LexFrom(src, 0, []))
  {
    LexIsFaithful(src, 0, []);
  }
}
