/**
  Folding a branch in the text of a line folds the line.
 */
module MirFolding {
  import opened MirLines
  import opened MirText
  import opened MirPieces
  import opened MirReading
  import opened MirSpelling

  // ----- scanning -----

  lemma {:induction false} FindIs(s: string, c: char, from: nat, k: nat)
    requires from <= k <= |s| && (forall i :: from <= i < k ==> s[i] != c) && (k < |s| ==> s[k] == c)
    ensures Find(s, c, from) == k
    decreases k - from
  {
    if from < k { FindIs(s, c, from + 1, k); }
  }

  lemma {:induction false} SkipJoined(b: string, s: string)
    requires AllBlank(b) && (s != "" ==> !Blank(s[0]))
    ensures SkipBlanks(b + s) == s
    decreases |b|
  {
    if b == "" {
      assert b + s == s;
    } else {
      assert (b + s)[0] == b[0] && (b + s)[1..] == b[1..] + s;
      SkipJoined(b[1..], s);
    }
  }

  lemma {:induction false} CutJoined(s: string, b: string)
    requires AllBlank(b) && (s != "" ==> !Blank(s[|s| - 1]))
    ensures CutBlanks(s + b) == s
    decreases |b|
  {
    var t := s + b;
    if b == "" {
      assert t == s;
    } else {
      assert t[|t| - 1] == b[|b| - 1] && t[..|t| - 1] == s + b[..|b| - 1];
      CutJoined(s, b[..|b| - 1]);
    }
  }

  lemma TrimIs(a: string, w: string, b: string)
    requires AllBlank(a) && AllBlank(b) && w != "" && !Blank(w[0]) && !Blank(w[|w| - 1])
    ensures Trim(a + w + b) == w
  {
    assert a + w + b == a + (w + b);
    SkipJoined(a, w + b);
    CutJoined(w, b);
  }

  // ----- the parts of a conditional branch -----

  predicate Gapped(b: string) {
    AllBlank(b) && b != "" && b[0] == ' '
  }

  lemma {:induction false} SplitBlanks(s: string) returns (b: string)
    ensures s == b + SkipBlanks(s) && AllBlank(b)
  {
    var r := SkipBlanks(s);
    b := s[..|s| - |r|];
  }

  /** Blanks and the next piece. */
  lemma GapThen(s: string, ps: seq<Piece>) returns (b: string, r: string)
    requires Reads(s, ps) && |ps| > 1 && ps[0] == Gap && ps[1] != Gap
    ensures s == b + TextOf(ps[1]) + r && Gapped(b) && Opens(ps[1], TextOf(ps[1]) + r) && Reads(r, ps[2..])
  {
    hide Reads, Gapped, Opens, SkipBlanks;
    GapReads(s, ps);
    b := GapFirst(s);
    r := PieceThen(SkipBlanks(s), ps[1..]);
    assert ps[1..][1..] == ps[2..];
    assert s == b + (TextOf(ps[1]) + r) == b + TextOf(ps[1]) + r;
  }

  lemma GapReads(s: string, ps: seq<Piece>)
    requires Reads(s, ps) && ps != [] && ps[0] == Gap
    ensures s != "" && s[0] == ' ' && Reads(SkipBlanks(s), ps[1..])
  {
  }

  lemma GapFirst(s: string) returns (b: string)
    requires s != "" && s[0] == ' '
    ensures s == b + SkipBlanks(s) && Gapped(b)
  {
    var t := SkipBlanks(s);
    b := SplitBlanks(s);
    assert t == "" || !Blank(t[0]);
    assert |t| < |s|;
  }

  lemma PieceThen(s: string, ps: seq<Piece>) returns (r: string)
    requires Reads(s, ps) && ps != [] && ps[0] != Gap
    ensures s == TextOf(ps[0]) + r && Opens(ps[0], s) && Reads(r, ps[1..])
  {
    r := s[|TextOf(ps[0])|..];
  }

  datatype Parts = Parts(b1: string, b2: string, b3: string, b4: string, b5: string, b6: string)

  predicate PartsFit(p: Parts) {
    Gapped(p.b1) && Gapped(p.b2) && Gapped(p.b3) && Gapped(p.b4) && Gapped(p.b5) && AllBlank(p.b6)
  }

  function Choice(a: string, b: string, name: string): string {
    "," + a + "label" + b + name
  }

  function Branch(p: Parts, cond: string, yes: string, no: string): string {
    "br_cond" + p.b1 + cond + Choice(p.b2, p.b3, yes) + Choice(p.b4, p.b5, no) + p.b6
  }

  function ChoicePieces(name: string): seq<Piece> {
    [Other(','), Gap, Word("label"), Gap, Word(name)]
  }

  lemma WordOpens(w: string, s: string)
    requires Opens(Word(w), s)
    ensures ValueText(w)
  {
  }

  lemma ChoiceThen(s: string, ps: seq<Piece>, name: string) returns (a: string, b: string, r: string)
    requires Reads(s, ChoicePieces(name) + ps)
    ensures s == Choice(a, b, name) + r && Gapped(a) && Gapped(b) && ValueText(name) && Reads(r, ps)
  {
    hide Reads, Gapped, ValueText, Opens;
    var qs := ChoicePieces(name) + ps;
    var r0 := PieceThen(s, qs);
    var r1;
    a, r1 := GapThen(r0, qs[1..]);
    assert qs[1..][2..] == qs[3..];
    b, r := GapThen(r1, qs[3..]);
    assert qs[3..][2..] == ps;
    WordOpens(name, name + r);
    assert s == "," + (a + "label" + (b + name + r)) == Choice(a, b, name) + r;
  }

  lemma BranchParts(s: string, cond: string, yes: string, no: string) returns (p: Parts)
    requires Reads(s, CondJump(cond, yes, no))
    ensures s == Branch(p, cond, yes, no) && PartsFit(p) && ValueText(cond) && ValueText(yes) && ValueText(no)
  {
    hide Reads, Gapped, ValueText, Choice;
    var ps := CondJump(cond, yes, no);
    var r0 := PieceThen(s, ps);
    var b1, r1 := GapThen(r0, ps[1..]);
    assert ps[1..][2..] == ChoicePieces(yes) + ChoicePieces(no);
    var b2, b3, r2 := ChoiceThen(r1, ChoicePieces(no), yes);
    assert ChoicePieces(no) + [] == ChoicePieces(no);
    var b4, b5, b6 := ChoiceThen(r2, [], no);
    NothingRead(b6);
    p := Parts(b1, b2, b3, b4, b5, b6);
    assert s == "br_cond" + (b1 + cond + (Choice(b2, b3, yes) + (Choice(b4, b5, no) + b6)));
  }

  lemma NothingRead(s: string)
    requires Reads(s, [])
    ensures AllBlank(s)
  {
  }

  // ----- what folding finds -----

  predicate NoComma(s: string) {
    ',' !in s
  }

  lemma ValueEnds(w: string)
    requires ValueText(w)
    ensures w != "" && !Blank(w[0]) && !Blank(w[|w| - 1]) && NoComma(w)
  {
  }

  lemma BlankHasNoComma(b: string)
    requires AllBlank(b)
    ensures NoComma(b)
  {
  }

  /** The first comma behind a text without commas. */
  lemma CommaAfter(a: string, b: string, from: nat)
    requires from <= |a| && NoComma(a[from..]) && b != "" && b[0] == ','
    ensures Find(a + b, ',', from) == |a|
  {
    forall i | from <= i < |a| ensures (a + b)[i] != ',' {
      assert a[from..][i - from] == a[i];
    }
    FindIs(a + b, ',', from, |a|);
  }

  function Label(b: string, name: string): string {
    "label" + b + name
  }

  lemma ChoiceTrims(a: string, b: string, name: string, e: string)
    requires Gapped(a) && Gapped(b) && ValueText(name) && AllBlank(e)
    ensures Trim(Choice(a, b, name)[1..] + e) == Label(b, name)
  {
    hide Blank, ValueText, NoComma, Trim;
    var w := Label(b, name);
    ValueEnds(name);
    assert Choice(a, b, name)[1..] == a + w;
    NoBlankLetter();
    assert w[0] == 'l' && w[|w| - 1] == name[|name| - 1];
    TrimIs(a, w, e);
  }

  lemma ChoiceNoComma(a: string, b: string, name: string)
    requires AllBlank(a) && AllBlank(b) && ValueText(name)
    ensures NoComma(Choice(a, b, name)[1..])
  {
    hide Blank, ValueText;
    ValueEnds(name);
    BlankHasNoComma(a);
    BlankHasNoComma(b);
    assert Choice(a, b, name)[1..] == a + ("label" + b + name);
  }

  lemma LabelName(b: string, name: string)
    requires Gapped(b)
    ensures "label " <= Label(b, name) && Label(b, name)[6..] == b[1..] + name
  {
    var w := Label(b, name);
    assert w == "label" + (b + name);
    assert w[..6] == "label" + [b[0]] == "label ";
    assert w[6..] == (b + name)[1..];
  }

  lemma NoBlankLetter()
    ensures !Blank('l')
  {
  }

  // ----- the folded line -----

  /** What folding makes of a branch: the jump, if the condition is constant. */
  lemma FoldedText(i: string, p: Parts, cond: string, yes: string, no: string)
    requires AllBlank(i) && PartsFit(p) && ValueText(cond) && ValueText(yes) && ValueText(no)
    ensures FoldText(i + Branch(p, cond, yes, no))
            == if Truthy(cond) then i + "br label " + (p.b3[1..] + yes)
               else if Falsy(cond) then i + "br label " + (p.b5[1..] + no)
               else i + Branch(p, cond, yes, no)
  {
    hide Gapped, ValueText, Trim, Choice, Find, SkipBlanks, Branch, FoldBody, Label, AllBlank, Truthy, Falsy;
    var s := Branch(p, cond, yes, no);
    BranchSkips(i, p, cond, yes, no);
    BranchCuts(p, cond, yes, no);
    var c1 := |"br_cond" + p.b1 + cond|;
    FoldsAt(i + s, s, c1, c1 + |Choice(p.b2, p.b3, yes)|);
    LabelName(p.b3, yes);
    LabelName(p.b5, no);
    assert (i + s)[..|i + s| - |s|] == i;
  }

  lemma FoldsAt(t: string, s: string, c1: nat, c2: nat)
    requires |s| <= |t| && "br_cond " <= s && 8 <= c1 < c2 < |s| && Find(s, ',', 8) == c1 && Find(s, ',', c1 + 1) == c2
    ensures FoldBody(t, s) == Choose(t, t[..|t| - |s|], Trim(s[8..c1]), Trim(s[c1 + 1..c2]), Trim(s[c2 + 1..]))
  {
    hide Trim, Choose, Find;
  }

  lemma BranchSkips(i: string, p: Parts, cond: string, yes: string, no: string)
    requires AllBlank(i)
    ensures var s := Branch(p, cond, yes, no); s != "" && SkipBlanks(i + s) == s
  {
    hide Choice;
    var s := Branch(p, cond, yes, no);
    assert s[0] == 'b';
    SkipJoined(i, s);
  }

  lemma BranchCuts(p: Parts, cond: string, yes: string, no: string)
    requires PartsFit(p) && ValueText(cond) && ValueText(yes) && ValueText(no)
    ensures var s := Branch(p, cond, yes, no);
            var c1 := |"br_cond" + p.b1 + cond|;
            var c2 := c1 + |Choice(p.b2, p.b3, yes)|;
            && "br_cond " <= s && 8 <= c1 < c2 < |s| && Find(s, ',', 8) == c1 && Find(s, ',', c1 + 1) == c2
            && Trim(s[8..c1]) == cond
            && Trim(s[c1 + 1..c2]) == Label(p.b3, yes) && Trim(s[c2 + 1..]) == Label(p.b5, no)
  {
    hide ValueText, NoComma, Trim, Blank, Find;
    var k := "br_cond" + p.b1 + cond;
    var x, y := Choice(p.b2, p.b3, yes), Choice(p.b4, p.b5, no);
    var s := Branch(p, cond, yes, no);
    assert s == k + (x + (y + p.b6)) == k + x + (y + p.b6);
    ConditionCut(p.b1, cond);
    CommaAfter(k, x + (y + p.b6), 8);
    ChoiceNoComma(p.b2, p.b3, yes);
    assert (k + x)[|k| + 1..] == x[1..];
    CommaAfter(k + x, y + p.b6, |k| + 1);
    ChoiceTrims(p.b2, p.b3, yes, "");
    ChoiceTrims(p.b4, p.b5, no, p.b6);
    assert s[8..|k|] == k[8..];
    assert s[|k| + 1..|k + x|] == x[1..] == x[1..] + "";
    assert s[|k + x| + 1..] == y[1..] + p.b6;
    assert "br_cond " <= k;
  }

  lemma ConditionCut(b: string, cond: string)
    requires Gapped(b) && ValueText(cond)
    ensures var k := "br_cond" + b + cond;
            8 <= |k| && "br_cond " <= k && NoComma(k[8..]) && Trim(k[8..]) == cond
  {
    hide ValueText, Trim, Blank;
    var k := "br_cond" + b + cond;
    ValueEnds(cond);
    BlankHasNoComma(b);
    assert k == "br_cond" + (b + cond);
    assert k[..8] == "br_cond" + [b[0]] == "br_cond ";
    assert k[8..] == (b + cond)[1..] == b[1..] + cond == b[1..] + cond + "";
    TrimIs(b[1..], cond, "");
  }

  // ----- reading the jump -----

  predicate Spaces(b: string) {
    forall i :: 0 <= i < |b| ==> b[i] == ' '
  }

  lemma {:induction false} SpacesCoarse(b: string, r: string)
    requires Spaces(b)
    ensures Coarse(Lex(b + r)) == if b == "" then Coarse(Lex(r)) else Blanked(Coarse(Lex(r)))
    decreases |b|
  {
    hide Lex, Coarse;
    if b == "" {
      assert b + r == r;
    } else {
      SpacesCoarse(b[1..], r);
      assert b + r == [' '] + (b[1..] + r);
      LexOther(' ', b[1..] + r);
      CoarseBlank(Lex(b[1..] + r));
    }
  }

  lemma WordCoarse(w: string, r: string)
    requires NameText(w)
    ensures Coarse(Lex(w + (" " + r))) == [Word(w)] + Blanked(Coarse(Lex(r)))
  {
    hide Lex, Coarse;
    LexWord(w, " " + r);
    LexOther(' ', r);
    assert " " + r == [' '] + r;
    CoarseBlank(Lex(r));
    CoarseWord(w, Lex(" " + r));
  }

  lemma CoarseWord(w: string, ps: seq<Piece>)
    ensures Coarse([Word(w)] + ps) == [Word(w)] + Coarse(ps)
  {
    assert ([Word(w)] + ps)[1..] == ps;
  }

  lemma CoarseValue(v: string)
    requires ValueText(v)
    ensures Coarse(Lex(v)) == [Word(v)]
  {
    hide Lex;
    assert v + "" == v;
    LexValue(v, "");
    if !NameText(v) { assert "-" + v[1..] == v; }
  }

  lemma JumpRead(i: string, b: string, w: string)
    requires Spaces(i) && Spaces(b) && ValueText(w)
    ensures Pieces(i + "br label " + (b + w)) == Jump(w)
  {
    hide Lex, Coarse, ValueText, Spaces, NameText;
    CoarseValue(w);
    SpacesCoarse(b, w);
    assert NameText("label") && NameText("br") by { BranchWords(); }
    WordCoarse("label", b + w);
    WordCoarse("br", "label" + (" " + (b + w)));
    var r := "br" + (" " + ("label" + (" " + (b + w))));
    SpacesCoarse(i, r);
    JumpText(i, b + w);
    JumpTrims(i != "", w);
  }

  lemma JumpText(i: string, w: string)
    ensures i + "br label " + w == i + ("br" + (" " + ("label" + (" " + w))))
  {
    assert "br label " == "br" + " " + "label" + " ";
  }

  lemma BranchWords()
    ensures NameText("label") && NameText("br")
  {
  }

  lemma JumpTrims(indented: bool, w: string)
    ensures var cs := [Word("br")] + Blanked([Word("label")] + Blanked([Word(w)]));
            TrimBack(TrimFront(if indented then Blanked(cs) else cs)) == Jump(w)
  {
  }

  // ----- folding -----

  lemma BlanksAreSpaces(b: string)
    requires OnlySpaces(b) && AllBlank(b)
    ensures Spaces(b)
  {
    forall i | 0 <= i < |b| ensures b[i] == ' ' { assert White(b[i]); }
  }

  lemma JumpIsWell(t: string, i: string, b: string, w: string)
    requires OnlySpaces(t) && !HasDest(t) && ValueText(w) && |w| <= 127
    requires AllBlank(i) && AllBlank(b) && (forall c :: c in i + b ==> c in t)
    ensures var r := i + "br label " + (b + w); Read(r) == Plain(Jump(w)) && WellSpelled(r)
  {
    hide Pieces, ValueText, OnlySpaces, LineFits, WellSpelled;
    var r := i + "br label " + (b + w);
    JumpSpaces(t, i, b, w);
    BlanksAreSpaces(i);
    BlanksAreSpaces(b);
    JumpRead(i, b, w);
    assert UsesText(r) == r;
    JumpFits(w);
    WellIs(r);
  }

  lemma WellIs(t: string)
    requires OnlySpaces(t) && LineFits(Read(t))
    ensures WellSpelled(t)
  {
  }

  lemma JumpSpaces(t: string, i: string, b: string, w: string)
    requires OnlySpaces(t) && !HasDest(t) && ValueText(w) && forall c :: c in i + b ==> c in t
    ensures OnlySpaces(i) && OnlySpaces(b) && OnlySpaces(i + "br label " + (b + w)) && !HasDest(i + "br label " + (b + w))
  {
    hide White, ValueText;
    var r := i + "br label " + (b + w);
    forall c | c in r ensures (White(c) ==> c == ' ') && c != '=' {
      if c in i + b {
        var k :| 0 <= k < |t| && t[k] == c;
      } else if c in w {
        ValueChars(w, c);
      } else {
        assert c in "br label ";
        LetterChars(c);
      }
    }
    forall k | 0 <= k < |r| && White(r[k]) ensures r[k] == ' ' { assert r[k] in r; }
    forall k | 0 <= k < |i| && White(i[k]) ensures i[k] == ' ' { assert i[k] in r; }
    forall k | 0 <= k < |b| && White(b[k]) ensures b[k] == ' ' { assert b[k] in b && b[k] in r; }
  }

  lemma LetterChars(c: char)
    requires c in "br label "
    ensures (White(c) ==> c == ' ') && c != '='
  {
  }

  lemma JumpFits(w: string)
    requires |w| <= 127
    ensures LineFits(Plain(Jump(w)))
  {
  }

  /** Folding the text of a line folds the line. */
  lemma FoldReads(t: string)
    requires WellSpelled(t)
    ensures Read(FoldText(t)) == Fold(Read(t)) && WellSpelled(FoldText(t))
  {
    if HasDest(t) {
      NoBranch(t);
    } else {
      PlainFolds(t);
    }
  }

  lemma NoBranch(t: string)
    requires HasDest(t) && DestFits(DestText(t))
    ensures FoldText(t) == t
  {
    hide Find, FoldBody, Trim, SkipBlanks, NameText;
    var n := Find(t, '=', 0);
    TrimmedFirst(t[..n]);
    assert t == t[..n] + t[n..];
    SkipFirst(t[..n], t[n..]);
    NameIsNoBranch(t, SkipBlanks(t));
  }

  lemma TrimmedFirst(d: string)
    requires Trim(d) != ""
    ensures SkipBlanks(d) != "" && SkipBlanks(d)[0] == Trim(d)[0]
  {
  }

  lemma SkipFirst(d: string, r: string)
    requires SkipBlanks(d) != ""
    ensures SkipBlanks(d + r) == SkipBlanks(d) + r
  {
    hide SkipBlanks;
    var i := SplitBlanks(d);
    var x := SkipBlanks(d);
    assert d + r == i + (x + r);
    SkipJoined(i, x + r);
  }

  lemma NameIsNoBranch(t: string, s: string)
    requires s != "" && s[0] == '%' && |s| <= |t|
    ensures FoldBody(t, s) == t
  {
    assert !("br_cond " <= s) by { assert "br_cond "[0] == 'b'; }
  }

  lemma PlainFolds(t: string)
    requires WellSpelled(t) && !HasDest(t)
    ensures Read(FoldText(t)) == Fold(Read(t)) && WellSpelled(FoldText(t))
  {
    hide Pieces, OnlySpaces, Reads, SkipBlanks, IsCondJump, NameText, FoldBody, NoMinus, WordsFit;
    assert UsesText(t) == t;
    UsesSpaces(t);
    var s, ps := SkipBlanks(t), Pieces(t);
    CallWordsAreNames();
    StartsText(s, ps, "br_cond");
    assert "br_cond" + " " == "br_cond ";
    if Starts(ps, "br_cond") {
      BranchFolds(t, ps);
    } else {
      NoFold(ps);
      if "br_cond " <= s { LoneBranch(s); }
      NothingFolds(t, s);
    }
  }

  lemma NoFold(ps: seq<Piece>)
    requires !Starts(ps, "br_cond")
    ensures FoldBranch(ps) == ps
  {
  }

  lemma LoneBranch(s: string)
    requires Reads(s, [Word("br_cond")]) && "br_cond " <= s
    ensures Find(s, ',', 8) == |s|
  {
    hide Blank;
    var r := s[|"br_cond"|..];
    assert [Word("br_cond")][1..] == [] && AllBlank(r);
    BlankHasNoComma(r);
    forall i | 8 <= i < |s| ensures s[i] != ',' { assert s[i] == r[i - 7]; }
    FindIs(s, ',', 8, |s|);
  }

  lemma NothingFolds(t: string, s: string)
    requires |s| <= |t| && ("br_cond " <= s ==> Find(s, ',', 8) == |s|)
    ensures FoldBody(t, s) == t
  {
  }

  lemma BranchFolds(t: string, ps: seq<Piece>)
    requires OnlySpaces(t) && !HasDest(t) && Read(t) == Plain(ps) && LineFits(Read(t)) && Starts(ps, "br_cond")
    requires Reads(SkipBlanks(t), ps)
    ensures Read(FoldText(t)) == Fold(Read(t)) && WellSpelled(FoldText(t))
  {
    hide OnlySpaces, Reads, SkipBlanks, NameText, ValueText, FoldText, Pieces;
    hide NoMinus, WordsFit, Truthy, Falsy, WellSpelled, Read, Branch, Gapped;
    BranchWordsFit(ps);
    var cond, yes, no := ps[2].text, ps[7].text, ps[12].text;
    var p := BranchParts(SkipBlanks(t), cond, yes, no);
    var i := SplitBlanks(t);
    FoldedText(i, p, cond, yes, no);
    GappedRest(p.b3);
    GappedRest(p.b5);
    BlanksWithin(t, i, p, cond, yes, no);
    JumpIsWell(t, i, p.b3[1..], yes);
    JumpIsWell(t, i, p.b5[1..], no);
    WellIs(t);
  }

  lemma BranchWordsFit(ps: seq<Piece>)
    requires LineFits(Plain(ps)) && Starts(ps, "br_cond")
    ensures IsCondJump(ps) && |ps[7].text| <= 127 && |ps[12].text| <= 127
  {
  }

  lemma GappedRest(b: string)
    requires Gapped(b)
    ensures b != "" && AllBlank(b[1..])
  {
  }

  lemma BlanksWithin(t: string, i: string, p: Parts, cond: string, yes: string, no: string)
    requires t == i + Branch(p, cond, yes, no) && p.b3 != "" && p.b5 != ""
    ensures forall c :: c in i + p.b3[1..] ==> c in t
    ensures forall c :: c in i + p.b5[1..] ==> c in t
  {
    var x, y := Choice(p.b2, p.b3, yes), Choice(p.b4, p.b5, no);
    var s := Branch(p, cond, yes, no);
    forall c ensures c in p.b3 ==> c in x { assert x == "," + p.b2 + "label" + p.b3 + yes; }
    forall c ensures c in p.b5 ==> c in y { assert y == "," + p.b4 + "label" + p.b5 + no; }
    forall c ensures c in x || c in y ==> c in s {
      assert s == "br_cond" + p.b1 + cond + x + y + p.b6;
    }
  }
}
