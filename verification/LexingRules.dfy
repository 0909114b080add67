/**
  The rules of the scanner with their operators, words and characters written out.
 */
module LexingRules {
  import opened Options
  import opened Syntax
  import opened Lexing

  /** The operators of more than one character. */
  predicate Operator(text: string) {
    text in {"=>", "==", "!=", "<=", "<<", ">=", ">>", "+=", "-=", "->", "**", "::", "??", "|>", "..", "..."}
  }

  predicate OperatorAt(src: string, pos: nat, length: nat) {
    pos + length <= |src| && Operator(src[pos..pos + length])
  }

  /** A symbol is the longest operator that stands there, or one character. */
  lemma SymbolsAreLongest(src: string, pos: nat)
    requires pos < |src|
    ensures var n := SymbolLength(src, pos);
            (n == 1 || OperatorAt(src, pos, n)) && forall m :: m > n ==> !OperatorAt(src, pos, m)
  {
    var n := SymbolLength(src, pos);
    if pos + 1 < |src| { assert src[pos..pos + 2] == [src[pos], src[pos + 1]]; }
    if n == 3 { assert src[pos..pos + 3] == "..."; }
    forall m | m > n ensures !OperatorAt(src, pos, m) {
      if pos + m <= |src| {
        var t := src[pos..pos + m];
        assert t[0] == src[pos] && t[1] == src[pos + 1];
        if m == 2 { assert t == [src[pos], src[pos + 1]]; }
        if m > 2 { assert t[2] == src[pos + 2]; }
      }
    }
  }

  predicate WordChar(c: char) {
    'a' <= c <= 'z' || 'A' <= c <= 'Z' || c == '_' || '0' <= c <= '9'
  }

  /** A word goes on as long as it can, and its kind is that of its text. */
  lemma WordsAreWhole(src: string, pos: nat)
    requires pos < |src| && WordChar(src[pos]) && !('0' <= src[pos] <= '9')
    ensures var t := TokenAt(src, pos);
            && pos < t.end <= |src| && (forall k :: pos <= k < t.end ==> WordChar(src[k]))
            && (t.end < |src| ==> !WordChar(src[t.end])) && t.text == src[pos..t.end]
            && t.kind == (if t.text in {"true", "false"} then Bool
                          else if t.text in {"fn", "return", "let", "mut", "if", "elif", "else", "while", "for", "in", "match",
                                             "struct", "type", "pub", "import", "extern", "break", "continue", "mod", "as", "i32",
                                             "i64", "i8", "f32", "f64", "string", "void", "nil", "and", "or", "print"}
                          then Keyword
                          else Ident)
  {
    WordRun(src, pos);
  }

  lemma {:induction false} WordRun(src: string, i: nat)
    requires i <= |src|
    ensures var j := WordEnd(src, i);
            i <= j <= |src| && (forall k :: i <= k < j ==> WordChar(src[k])) && (j < |src| ==> !WordChar(src[j]))
    decreases |src| - i
  {
    if i < |src| && WordChar(src[i]) { WordRun(src, i + 1); }
  }

  // ----- semicolons -----

  /** The first character behind blanks and comments. */
  ghost predicate ComesNext(src: string, i: nat, p: nat) {
    && i <= p < |src| && Blank(src, i, p)
    && src[p] !in {' ', '\t', '\r', '\n'} && !IsComment(src, p, '/') && !IsComment(src, p, '*')
  }

  lemma {:induction false} NextCharIs(src: string, i: nat)
    requires i <= |src|
    ensures match NextChar(src, i)
            case None => forall p: nat :: !ComesNext(src, i, p)
            case Some(c) => exists p: nat :: ComesNext(src, i, p) && src[p] == c
    ensures forall p: nat :: ComesNext(src, i, p) ==> NextChar(src, i) == Some(src[p])
    decreases |src| - i
  {
    if i < |src| {
      var j := if src[i] in {' ', '\t', '\r', '\n'} then i + 1
               else if IsComment(src, i, '/') then LineEnd(src, i + 1)
               else if IsComment(src, i, '*') then BlockEnd(src, i + 2) else i;
      if j == i {
        assert Blank(src, i, i) && ComesNext(src, i, i);
      } else {
        NextCharIs(src, j);
        forall p: nat ensures ComesNext(src, i, p) <==> ComesNext(src, j, p) {
          assert Blank(src, j, p) ==> j <= p;
          assert i < j && (Blank(src, i, p) <==> i == p || (i < p <= |src| && Blank(src, j, p)));
        }
      }
    }
  }

  /** A line feed becomes a semicolon exactly when the last token is a name, a literal, a closing
      bracket, `break`, `continue` or `return`, and the first character behind blanks and
      comments is `}`, a quote, a letter, `_` or a digit. */
  lemma SemicolonsExactly(src: string, pos: nat, tokens: seq<Shape>)
    requires pos <= |src|
    ensures SemicolonNeeded(src, pos, tokens)
            <==> (&& tokens != []
                  && (tokens[|tokens| - 1].kind in {Ident, Number, Float, Str, Bool}
                      || tokens[|tokens| - 1].text in {")", "]", "}", "break", "continue", "return"})
                  && exists p: nat :: ComesNext(src, pos, p) && (src[p] in {'}', '"'} || WordChar(src[p])))
  {
    hide ComesNext, NextChar;
    NextCharIs(src, pos);
  }

  // ----- numbers -----

  ghost predicate DigitRun(src: string, i: nat, j: nat) {
    && i < j <= |src| && (forall k :: i <= k < j ==> '0' <= src[k] <= '9')
    && (j < |src| ==> !('0' <= src[j] <= '9'))
  }

  lemma {:induction false} DigitsGoOn(src: string, i: nat)
    requires i < |src| && '0' <= src[i] <= '9'
    ensures DigitRun(src, i, DigitsEnd(src, i))
    decreases |src| - i
  {
    if i + 1 < |src| && '0' <= src[i + 1] <= '9' { DigitsGoOn(src, i + 1); }
  }

  /** Digits go on as long as they can; with a point and more digits behind them they are a
      float, and otherwise the number ends in front of the point. */
  lemma NumbersAreWhole(src: string, pos: nat)
    requires pos < |src| && '0' <= src[pos] <= '9'
    ensures var t := TokenAt(src, pos);
            exists n: nat ::
              && DigitRun(src, pos, n) && t.text == (if t.kind == Float then src[pos..t.end] else "")
              && (if n + 1 < |src| && src[n] == '.' && '0' <= src[n + 1] <= '9'
                  then t.kind == Float && DigitRun(src, n + 1, t.end) else t.kind == Number && t.end == n)
  {
    var n := DigitsEnd(src, pos);
    DigitsGoOn(src, pos);
    if n + 1 < |src| && src[n] == '.' && '0' <= src[n + 1] <= '9' { DigitsGoOn(src, n + 1); }
    assert DigitRun(src, pos, n);
  }

  // ----- literals -----

  /** How a character is written between quotes. */
  function Written(c: char): string {
    match c as int
    case 10 => "\\n"
    case 9 => "\\t"
    case 13 => "\\r"
    case 27 => "\\033"
    case 34 => "\\\""
    case 92 => "\\\\"
    case _ => [c]
  }

  function WrittenAll(text: string): string {
    if text == "" then "" else Written(text[0]) + WrittenAll(text[1..])
  }

  /** The characters from a position on. */
  predicate Stands(src: string, pos: nat, s: string) {
    pos + |s| <= |src| && src[pos..pos + |s|] == s
  }

  lemma StandsSplit(src: string, pos: nat, a: string, b: string)
    requires Stands(src, pos, a + b)
    ensures Stands(src, pos, a) && Stands(src, pos + |a|, b)
  {
    assert src[pos..pos + |a|] == (a + b)[..|a|];
    assert src[pos + |a|..pos + |a| + |b|] == (a + b)[|a|..];
  }

  lemma {:induction false} WrittenIsRead(src: string, pos: nat, text: string, done: string)
    requires Stands(src, pos, WrittenAll(text) + "\"")
    ensures StringFrom(src, pos, done) == (done + text, pos + |WrittenAll(text)|)
    decreases |text|
  {
    if text == "" {
      assert src[pos] == src[pos..pos + 1][0] == '"';
      assert done + text == done;
    } else {
      var w := Written(text[0]);
      assert WrittenAll(text) + "\"" == w + (WrittenAll(text[1..]) + "\"");
      StandsSplit(src, pos, w, WrittenAll(text[1..]) + "\"");
      OneIsRead(src, pos, text[0], done);
      WrittenIsRead(src, pos + |w|, text[1..], done + [text[0]]);
      assert done + [text[0]] + text[1..] == done + text;
    }
  }

  lemma CharactersStand(src: string, pos: nat, w: string)
    requires Stands(src, pos, w)
    ensures forall k :: 0 <= k < |w| ==> src[pos + k] == w[k]
  {
    forall k | 0 <= k < |w| ensures src[pos + k] == w[k] {
      assert src[pos..pos + |w|][k] == src[pos + k];
    }
  }

  lemma OneIsRead(src: string, pos: nat, c: char, done: string)
    requires Stands(src, pos, Written(c))
    ensures StringFrom(src, pos, done) == StringFrom(src, pos + |Written(c)|, done + [c])
  {
    var w := Written(c);
    CharactersStand(src, pos, w);
    if |w| == 1 {
      assert w[0] == c && c != '"' && c != '\\';
    } else {
      assert src[pos] == w[0] == '\\' && src[pos + 1] == w[1];
      EscapeIsRead(src, pos, c);
    }
  }

  lemma EscapeIsRead(src: string, pos: nat, c: char)
    requires Stands(src, pos, Written(c)) && |Written(c)| > 1
    ensures EscapeLength(src, pos) == |Written(c)| && EscapeValue(src, pos) == c
  {
    var w := Written(c);
    CharactersStand(src, pos, w);
    assert src[pos + 1] == w[1];
    if c == 27 as char {
      assert src[pos + 2] == w[2] && src[pos + 3] == w[3];
    } else {
      assert w[1] != '0';
    }
  }

  /** Any text at all, written with the escapes it needs between quotes, is read back as the text of
      one token that ends behind the closing quote. */
  lemma LiteralsReadBack(src: string, pos: nat, text: string)
    requires Stands(src, pos, "\"" + WrittenAll(text) + "\"")
    ensures TokenAt(src, pos) == Shape(Str, text, pos, pos + |WrittenAll(text)| + 2, false)
  {
    assert "\"" + WrittenAll(text) + "\"" == "\"" + (WrittenAll(text) + "\"");
    StandsSplit(src, pos, "\"", WrittenAll(text) + "\"");
    assert src[pos] == src[pos..pos + 1][0] == '"';
    WrittenIsRead(src, pos + 1, text, "");
    assert "" + text == text;
  }

  // ----- comments -----

  ghost predicate EndMark(src: string, k: nat) {
    k + 1 < |src| && src[k] == '*' && src[k + 1] == '/'
  }

  /** A line comment ends in front of the next line feed. */
  lemma LineCommentsEnd(src: string, pos: nat)
    requires pos + 1 < |src|
    ensures var l := LineEnd(src, pos + 1);
            && pos + 1 <= l <= |src| && (forall k :: pos < k < l ==> src[k] != '\n') && (l < |src| ==> src[l] == '\n')
  {
    NoFeedBefore(src, pos + 1);
    LineStops(src, pos + 1);
  }

  /** A block comment ends behind the first end mark behind its opening. Without an end mark
      it ends with the source, but for the last character if there is one behind the opening:
      that one is scanned as if no comment stood in front of it. */
  lemma BlockCommentsEnd(src: string, pos: nat, b: nat)
    requires pos + 1 < |src|
    ensures BlockEnd(src, pos + 2) == b
            <==> (if exists k :: k >= pos + 2 && EndMark(src, k)
                  then b >= pos + 4 && EndMark(src, b - 2) && forall k :: pos + 2 <= k < b - 2 ==> !EndMark(src, k)
                  else b == if pos + 2 == |src| then |src| else |src| - 1)
  {
    FirstMark(src, pos + 2);
    var j := BlockStop(src, pos + 2);
    if EndMark(src, j) && b >= pos + 4 && EndMark(src, b - 2) && forall k :: pos + 2 <= k < b - 2 ==> !EndMark(src, k) {
      assert !(j < b - 2) && !(b - 2 < j);
    }
  }

  /** A slash, a star and an x: the x of the comment becomes a name. */
  lemma AnOpenCommentLeavesAName()
    ensures LexFrom("/*x", 0, []) == [Shape(Ident, "x", 2, 3, false), Shape(Eof, "", 3, 3, false)]
  {
    var src := "/*x";
    BlockCommentsEnd(src, 0, 2);
    assert !exists k :: k >= 2 && EndMark(src, k);
    assert WordEnd(src, 3) == 3 && src[2..3] == "x";
    assert TokenAt(src, 2) == Shape(Ident, "x", 2, 3, false);
    assert LexFrom(src, 2, []) == LexFrom(src, 3, [TokenAt(src, 2)]);
  }

  lemma {:induction false} LineStops(src: string, i: nat)
    requires i <= |src|
    ensures LineEnd(src, i) < |src| ==> src[LineEnd(src, i)] == '\n'
    decreases |src| - i
  {
    if i < |src| { LineStops(src, i + 1); }
  }

  lemma {:induction false} FirstMark(src: string, i: nat)
    requires i <= |src|
    ensures var j := BlockStop(src, i);
            && i <= j && (forall k :: i <= k < j ==> !EndMark(src, k))
            && (if j + 1 < |src| then EndMark(src, j) else j == if i == |src| then i else |src| - 1)
    decreases |src| - i
  {
    if i + 1 < |src| && !EndMark(src, i) { FirstMark(src, i + 1); }
  }
}
