/**
  Where tokens are by the lexer's count, and when that is where they really start: the
  lexer counts a tab in a literal or a line comment as one column, and a line feed in a
  literal as a column too.
 */
module TokenPlaces {
  import opened Options
  import opened Syntax
  import opened Lexing
  import opened Positions
  import opened Lexer

  // ----- lines -----

  /** No line feed stands in a literal before this position. */
  ghost predicate NoFeeds(src: string, tokens: seq<Lexeme>, p: nat)
    requires p <= |src|
  {
    forall k :: 0 <= k < p && src[k] == '\n' ==> !InLiteral(tokens, k)
  }

  lemma {:induction false} LinesAreCounted(src: string, tokens: seq<Lexeme>, p: nat)
    requires p <= |src|
    ensures Counted(src, tokens, p).line <= PlaceOf(src, p).line
    ensures Counted(src, tokens, p).line == PlaceOf(src, p).line <==> NoFeeds(src, tokens, p)
    decreases p
  {
    hide InLiteral;
    if p > 0 {
      LinesAreCounted(src, tokens, p - 1);
      assert NoFeeds(src, tokens, p) <==> NoFeeds(src, tokens, p - 1) && (src[p - 1] == '\n' ==> !InLiteral(tokens, p - 1));
    }
  }

  // ----- columns -----

  lemma TabWidth(column: int)
    ensures TabStop(column) >= column + 1 && (TabStop(column) == column + 1 <==> column % 8 == 0)
  {
  }

  lemma TabStopsGrow(a: int, b: int)
    requires a <= b
    ensures TabStop(a) <= TabStop(b)
  {
  }

  lemma {:induction false} ColumnsAreBehind(src: string, tokens: seq<Lexeme>, p: nat)
    requires PlainSource(src) && p <= |src| && NoFeeds(src, tokens, p)
    ensures Counted(src, tokens, p).column <= PlaceOf(src, p).column
    decreases p
  {
    hide InLiteral;
    if p > 0 {
      ColumnsAreBehind(src, tokens, p - 1);
      TabWidth(PlaceOf(src, p - 1).column);
      TabStopsGrow(Counted(src, tokens, p - 1).column, PlaceOf(src, p - 1).column);
    }
  }

  /** A tab in a literal, where a tab is more than one column wide. */
  ghost predicate Wide(src: string, tokens: seq<Lexeme>, k: nat)
    requires k < |src|
  {
    src[k] == '\t' && InLiteral(tokens, k) && PlaceOf(src, k).column % 8 != 0
  }

  /** A tab between tokens that leads to the same column by either count. */
  ghost predicate Aligns(src: string, tokens: seq<Lexeme>, s: nat)
    requires s < |src|
  {
    src[s] == '\t' && !InLiteral(tokens, s) && TabStop(Counted(src, tokens, s).column) == TabStop(PlaceOf(src, s).column)
  }

  ghost predicate MadeUp(src: string, tokens: seq<Lexeme>, k: nat, p: nat)
    requires p <= |src|
  {
    exists s :: k < s < p && Aligns(src, tokens, s)
  }

  /** What the wide tabs of this line lost, a later tab of the line made up for. */
  ghost predicate TabsMadeUp(src: string, tokens: seq<Lexeme>, p: nat)
    requires p <= |src|
  {
    forall k :: 0 <= k < p && Wide(src, tokens, k) && PlaceOf(src, k).line == PlaceOf(src, p).line ==> MadeUp(src, tokens, k, p)
  }

  lemma {:induction false} LinesGrow(src: string, k: nat, p: nat)
    requires k <= p <= |src|
    ensures PlaceOf(src, k).line <= PlaceOf(src, p).line
    decreases p
  {
    if k < p { LinesGrow(src, k, p - 1); }
  }

  /** After a line feed nothing is to be made up. */
  lemma FeedMakesUp(src: string, tokens: seq<Lexeme>, p: nat)
    requires 0 < p <= |src| && src[p - 1] == '\n'
    ensures TabsMadeUp(src, tokens, p)
  {
    forall k | 0 <= k < p ensures PlaceOf(src, k).line < PlaceOf(src, p).line {
      LinesGrow(src, k, p - 1);
    }
  }

  /** After a tab between tokens everything is made up, or nothing more than before. */
  lemma TabMakesUp(src: string, tokens: seq<Lexeme>, p: nat)
    requires 0 < p <= |src| && src[p - 1] == '\t' && !InLiteral(tokens, p - 1)
    ensures TabsMadeUp(src, tokens, p) <==> Aligns(src, tokens, p - 1) || TabsMadeUp(src, tokens, p - 1)
  {
    hide InLiteral, Counted;
    if Aligns(src, tokens, p - 1) {
      forall k | 0 <= k < p && Wide(src, tokens, k) ensures MadeUp(src, tokens, k, p) {
        assert k < p - 1 < p;
      }
    } else {
      SameDebts(src, tokens, p);
    }
  }

  /** A character that is neither a line feed nor a tab that aligns. */
  lemma SameDebts(src: string, tokens: seq<Lexeme>, p: nat)
    requires 0 < p <= |src| && src[p - 1] != '\n' && !Aligns(src, tokens, p - 1)
    ensures TabsMadeUp(src, tokens, p) <==> TabsMadeUp(src, tokens, p - 1) && !Wide(src, tokens, p - 1)
  {
    hide InLiteral, Counted, Aligns, Wide;
    assert PlaceOf(src, p).line == PlaceOf(src, p - 1).line;
    forall k | 0 <= k < p - 1 ensures MadeUp(src, tokens, k, p) <==> MadeUp(src, tokens, k, p - 1) {
      if MadeUp(src, tokens, k, p) {
        var s :| k < s < p && Aligns(src, tokens, s);
        assert k < s < p - 1;
      }
      if MadeUp(src, tokens, k, p - 1) {
        var s :| k < s < p - 1 && Aligns(src, tokens, s);
      }
    }
    assert !MadeUp(src, tokens, p - 1, p);
    if TabsMadeUp(src, tokens, p) {
      forall k | 0 <= k < p - 1 && Wide(src, tokens, k) && PlaceOf(src, k).line == PlaceOf(src, p - 1).line
        ensures MadeUp(src, tokens, k, p - 1)
      {
        assert MadeUp(src, tokens, k, p);
      }
    }
  }

  /** The count is right exactly when no line feed stands in a literal before, and every
      wide tab in a literal of the line is made up for. */
  lemma {:induction false} PlacesAreCounted(src: string, tokens: seq<Lexeme>, p: nat)
    requires PlainSource(src) && p <= |src|
    ensures Counted(src, tokens, p) == PlaceOf(src, p) <==> NoFeeds(src, tokens, p) && TabsMadeUp(src, tokens, p)
    decreases p
  {
    LinesAreCounted(src, tokens, p);
    if p > 0 && NoFeeds(src, tokens, p) {
      PlacesAreCounted(src, tokens, p - 1);
      LinesAreCounted(src, tokens, p - 1);
      assert NoFeeds(src, tokens, p - 1);
      ColumnsAreBehind(src, tokens, p - 1);
      CharacterIsCounted(src, tokens, p);
    }
  }

  lemma CharacterIsCounted(src: string, tokens: seq<Lexeme>, p: nat)
    requires PlainSource(src) && 0 < p <= |src| && (src[p - 1] == '\n' ==> !InLiteral(tokens, p - 1))
    requires Counted(src, tokens, p - 1).line == PlaceOf(src, p - 1).line
    requires Counted(src, tokens, p - 1).column <= PlaceOf(src, p - 1).column
    requires Counted(src, tokens, p - 1) == PlaceOf(src, p - 1) <==> TabsMadeUp(src, tokens, p - 1)
    ensures Counted(src, tokens, p) == PlaceOf(src, p) <==> TabsMadeUp(src, tokens, p)
  {
    hide InLiteral, TabsMadeUp;
    TabWidth(PlaceOf(src, p - 1).column);
    if src[p - 1] == '\n' {
      FeedMakesUp(src, tokens, p);
    } else if src[p - 1] == '\t' && !InLiteral(tokens, p - 1) {
      TabMakesUp(src, tokens, p);
    } else {
      SameDebts(src, tokens, p);
    }
  }

  // ----- tokens -----

  /** A token has the line and column of its start exactly under these conditions. */
  lemma TokensArePlaced(src: string, tokens: seq<Lexeme>, i: nat)
    requires PlainSource(src) && Ordered(tokens, |src|) && Placed(src, tokens)
    requires i < |tokens| && !tokens[i].generated
    ensures PlacedAt(src, tokens[i])
            <==> NoFeeds(src, tokens, tokens[i].start) && TabsMadeUp(src, tokens, tokens[i].start)
  {
    hide InLiteral, Counted, NoFeeds, TabsMadeUp;
    PlacesAreCounted(src, tokens, tokens[i].start);
  }

  /** The scan from a place up to a later one. */
  lemma {:induction false} ScanReaches(src: string, o: nat, p: nat, wanted: Place)
    requires PlainSource(src) && o <= p <= |src| && PlaceOf(src, o).line <= wanted.line <= PlaceOf(src, p).line
    requires wanted.line == PlaceOf(src, p).line ==> wanted.column <= PlaceOf(src, p).column
    ensures OffsetFrom(src, o, PlaceOf(src, o), wanted) == p
            <==> (wanted.line == PlaceOf(src, p).line
                  && (o < p ==> PlaceOf(src, p - 1).line < wanted.line || PlaceOf(src, p - 1).column < wanted.column))
    decreases p - o
  {
    if o < p {
      PlacesIncrease(src, o, p);
      if o < p - 1 { PlacesIncrease(src, o, p - 1); }
      if PlaceOf(src, o + 1).line <= wanted.line { ScanReaches(src, o + 1, p, wanted); }
    }
  }

  /** Diagnostics go back to the start of a token exactly when no line feed stands in a
      literal before it and its column is past that of the character before it. */
  lemma TokensAreFound(src: string, tokens: seq<Lexeme>, i: nat)
    requires PlainSource(src) && Ordered(tokens, |src|) && Placed(src, tokens)
    requires i < |tokens| && !tokens[i].generated
    ensures var t := tokens[i];
            OffsetAt(src, t.line, t.column) == t.start
            <==> (NoFeeds(src, tokens, t.start)
                  && (t.start > 0 ==>
                        var before := PlaceOf(src, t.start - 1);
                        before.line < t.line || before.column < t.column))
  {
    hide InLiteral, Counted, NoFeeds;
    var t := tokens[i];
    LinesAreCounted(src, tokens, t.start);
    if NoFeeds(src, tokens, t.start) { ColumnsAreBehind(src, tokens, t.start); }
    ScanReaches(src, 0, t.start, Place(t.line, t.column));
  }

  /** In this source the line feed of the literal is counted as a column: the `+` is put in
      line 1, column 4, and diagnostics find the line feed there. */
  method AFeedInALiteralMovesTokens() returns (t: Lexeme)
    ensures t.start == 3 && t.line == 1 && t.column == 4 && OffsetAt("\"\n\"+", t.line, t.column) == 1
  {
    var src := "\"\n\"+";
    var tokens := Tokenize(src);
    LiteralThenPlus(src);
    t := tokens[1];
    assert ShapeOf(t) == Shapes(tokens)[1] && ShapeOf(tokens[0]) == Shapes(tokens)[0];
    assert tokens[..|tokens| - 1][1] == t && tokens[..|tokens| - 1][0] == tokens[0];
    LiteralIsOneLine(src, tokens[..|tokens| - 1]);
    assert OffsetFrom(src, 1, Place(1, 2), Place(1, 4)) == 1;
  }

  lemma LiteralThenPlus(src: string)
    requires src == "\"\n\"+"
    ensures LexFrom(src, 0, [])
            == [Shape(Str, "\n", 0, 3, false), Shape(Symbol, "+", 3, 4, false), Shape(Eof, "", 4, 4, false)]
  {
    assert StringFrom(src, 2, "" + [src[1]]) == ("" + [src[1]], 2);
    assert StringFrom(src, 1, "") == ("" + [src[1]], 2) && "" + [src[1]] == "\n";
    var (a, b) := (Shape(Str, "\n", 0, 3, false), Shape(Symbol, "+", 3, 4, false));
    assert TokenAt(src, 0) == a;
    assert src[3..4] == "+";
    assert TokenAt(src, 3) == b;
    assert LexFrom(src, 4, [a, b]) == [a, b] + [Shape(Eof, "", 4, 4, false)];
    assert LexFrom(src, 3, [a]) == LexFrom(src, 4, [a] + [b]);
    assert LexFrom(src, 0, []) == LexFrom(src, 3, [] + [a]) && [] + [a] == [a];
  }

  lemma LiteralIsOneLine(src: string, tokens: seq<Lexeme>)
    requires |src| >= 3 && tokens != [] && tokens[0].kind == Str && tokens[0].start == 0 && tokens[0].end == 3
    ensures Counted(src, tokens, 3) == Place(1, 4)
  {
    assert forall k :: 0 <= k < 3 ==> InLiteral(tokens, k);
    assert Counted(src, tokens, 1) == Place(1, 2);
    assert Counted(src, tokens, 2) == Place(1, 3);
  }

  // ----- the end of the source -----

  /** The tabs are where a tab is one column wide. */
  predicate NarrowTabs(src: string, a: nat, b: nat)
    requires b <= |src|
  {
    forall j :: a <= j < b && src[j] == '\t' ==> PlaceOf(src, j).column % 8 == 0
  }

  lemma {:induction false} ColumnsGrow(src: string, a: nat, b: nat)
    requires PlainSource(src) && a <= b <= |src| && forall k :: a <= k < b ==> src[k] != '\n'
    ensures PlaceOf(src, b).line == PlaceOf(src, a).line && PlaceOf(src, b).column >= PlaceOf(src, a).column + b - a
    ensures PlaceOf(src, b).column == PlaceOf(src, a).column + b - a <==> NarrowTabs(src, a, b)
    decreases b
  {
    if a < b {
      ColumnsGrow(src, a, b - 1);
      TabWidth(PlaceOf(src, b - 1).column);
      assert NarrowTabs(src, a, b) <==>
             NarrowTabs(src, a, b - 1) && (src[b - 1] == '\t' ==> PlaceOf(src, b - 1).column % 8 == 0);
    }
  }

  lemma TailHasNoFeed(src: string, start: nat)
    requires TrailingComment(src, 0) == Some(start)
    ensures start + 1 < |src| && forall k :: start <= k < |src| ==> src[k] != '\n'
  {
    hide TrailingComment, LineEnd;
    NoFeedBefore(src, start + 1);
    assert IsComment(src, start, '/') && LineEnd(src, start + 1) == |src|;
  }

  /** From where the end of the source is one line comment, or has nothing more. */
  function TailStart(src: string): (r: nat)
    ensures r <= |src|
  {
    match TrailingComment(src, 0)
    case None => |src|
    case Some(start) => start
  }

  lemma TailIs(src: string, tokens: seq<Lexeme>)
    ensures var start := TailStart(src);
            && EndPlace(src, tokens) == Place(Counted(src, tokens, start).line, Counted(src, tokens, start).column + |src| - start)
            && forall k :: start <= k < |src| ==> src[k] != '\n'
  {
    hide Counted;
    match TrailingComment(src, 0)
    case None =>
    case Some(start) => TailHasNoFeed(src, start);
  }

  lemma EndIsBehind(src: string, tokens: seq<Lexeme>)
    requires PlainSource(src)
    ensures var start := TailStart(src);
            && PlaceOf(src, |src|).line == PlaceOf(src, start).line
            && 1 <= EndPlace(src, tokens).line <= PlaceOf(src, |src|).line && EndPlace(src, tokens).column >= 1
            && (EndPlace(src, tokens).line == PlaceOf(src, |src|).line <==> NoFeeds(src, tokens, start))
            && (NoFeeds(src, tokens, start) ==> EndPlace(src, tokens).column <= PlaceOf(src, |src|).column)
  {
    hide Counted, InLiteral, NoFeeds;
    var start := TailStart(src);
    TailIs(src, tokens);
    LinesAreCounted(src, tokens, start);
    if NoFeeds(src, tokens, start) { ColumnsAreBehind(src, tokens, start); }
    ColumnsGrow(src, start, |src|);
  }

  /** The end token is at the end of the source exactly when what comes before a comment at
      the end is counted right and that comment has no tab that is wider than one column. */
  lemma EndIsPlaced(src: string, tokens: seq<Lexeme>)
    requires PlainSource(src)
    ensures var start := TailStart(src);
            EndPlace(src, tokens) == PlaceOf(src, |src|)
            <==> NoFeeds(src, tokens, start) && TabsMadeUp(src, tokens, start) && NarrowTabs(src, start, |src|)
  {
    hide NarrowTabs, Counted, InLiteral, NoFeeds, TabsMadeUp;
    var start := TailStart(src);
    TailIs(src, tokens);
    PlacesAreCounted(src, tokens, start);
    LinesAreCounted(src, tokens, start);
    if NoFeeds(src, tokens, start) { ColumnsAreBehind(src, tokens, start); }
    ColumnsGrow(src, start, |src|);
  }

  /** Diagnostics go back to the end exactly when no line feed stands in a literal and the
      column of the end token is past that of the last character. */
  lemma EndIsFound(src: string, tokens: seq<Lexeme>)
    requires PlainSource(src)
    ensures var end := EndPlace(src, tokens);
            OffsetAt(src, end.line, end.column) == |src|
            <==> (NoFeeds(src, tokens, TailStart(src))
                  && (|src| > 0 ==>
                        var before := PlaceOf(src, |src| - 1);
                        before.line < end.line || before.column < end.column))
  {
    hide Counted, InLiteral, NoFeeds, EndPlace;
    EndIsBehind(src, tokens);
    ScanReaches(src, 0, |src|, EndPlace(src, tokens));
  }

  /** With all else counted right, that is: the last character of a comment at the end may
      be a wide tab, and no other. */
  lemma OnlyTheLastTabMayBeWide(src: string, tokens: seq<Lexeme>)
    requires PlainSource(src) && NoFeeds(src, tokens, TailStart(src)) && TabsMadeUp(src, tokens, TailStart(src))
    ensures var end := EndPlace(src, tokens);
            OffsetAt(src, end.line, end.column) == |src|
            <==> (TailStart(src) == |src| || NarrowTabs(src, TailStart(src), |src| - 1))
  {
    hide NarrowTabs, Counted, InLiteral, NoFeeds, TabsMadeUp, EndPlace;
    var start := TailStart(src);
    EndIsFound(src, tokens);
    TailIs(src, tokens);
    PlacesAreCounted(src, tokens, start);
    if start < |src| {
      ColumnsGrow(src, start, |src| - 1);
    } else if |src| > 0 {
      PlacesIncrease(src, |src| - 1, |src|);
    }
  }

  /** In this source the tab of the comment is at column 3: the end token is put in column
      5, and the offset found for that is the one of the last character. */
  method TabbedCommentMovesTheEnd() returns (eof: Lexeme)
    ensures eof.start == |"//\tx"| && eof.column == 5 && OffsetAt("//\tx", eof.line, eof.column) == 3
  {
    var src := "//\tx";
    var tokens := Tokenize(src);
    eof := tokens[|tokens| - 1];
    CommentOnly(src);
    assert After(FIRST, src[0]) == Place(1, 2) && After(Place(1, 2), src[1]) == Place(1, 3) && After(Place(1, 3), src[2]) == Place(1, 9);
    assert PlaceOf(src, 1) == Place(1, 2) && PlaceOf(src, 2) == Place(1, 3) && PlaceOf(src, 3) == Place(1, 9);
    assert OffsetFrom(src, 3, Place(1, 9), Place(1, 5)) == 3;
    assert OffsetFrom(src, 2, Place(1, 3), Place(1, 5)) == 3;
    assert OffsetFrom(src, 1, Place(1, 2), Place(1, 5)) == 3;
    assert |Shapes(tokens)| == 1;
    assert PlaceOf(src, 4).line == 1;
  }

  lemma CommentOnly(src: string)
    requires src == "//\tx"
    ensures TrailingComment(src, 0) == Some(0) && |LexFrom(src, 0, [])| == 1
  {
    assert LineEnd(src, 4) == 4 && LineEnd(src, 3) == 4 && LineEnd(src, 2) == 4 && LineEnd(src, 1) == 4;
  }
}
