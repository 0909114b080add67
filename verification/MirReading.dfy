/**
  The lines of the middle form as the pass reads them from their text: an assignment ends
  its destination at the first `=`, copies are read by fields, branches by commas.
 */
module MirReading {
  import opened Options
  import opened MirLines
  import opened MirText
  import opened MirPieces

  // ----- scanning -----

  predicate Blank(c: char) {
    c in {' ', '\t', '\r'}
  }

  /** What separates fields. */
  predicate White(c: char) {
    Blank(c) || c == '\n' || c as int in {11, 12}
  }

  function SkipBlanks(s: string): (r: string)
    ensures |r| <= |s| && r == s[|s| - |r|..] && (r != "" ==> !Blank(r[0]))
    ensures forall i :: 0 <= i < |s| - |r| ==> Blank(s[i])
  {
    if s != "" && Blank(s[0]) then SkipBlanks(s[1..]) else s
  }

  function CutBlanks(s: string): (r: string)
    ensures r <= s && (r != "" ==> !Blank(r[|r| - 1]))
    ensures forall i :: |r| <= i < |s| ==> Blank(s[i])
  {
    if s != "" && Blank(s[|s| - 1]) then CutBlanks(s[..|s| - 1]) else s
  }

  function Trim(s: string): string {
    CutBlanks(SkipBlanks(s))
  }

  function SkipWhite(s: string): (r: string)
    ensures |r| <= |s| && r == s[|s| - |r|..] && (r != "" ==> !White(r[0]))
    ensures forall i :: 0 <= i < |s| - |r| ==> White(s[i])
  {
    if s != "" && White(s[0]) then SkipWhite(s[1..]) else s
  }

  /** The characters of a field, up to a limit. */
  function FieldLength(s: string, limit: nat): (n: nat)
    ensures n <= |s| && n <= limit && forall i :: 0 <= i < n ==> !White(s[i])
    ensures n < limit && n < |s| ==> White(s[n])
  {
    if limit == 0 || s == "" || White(s[0]) then 0 else FieldLength(s[1..], limit - 1) + 1
  }

  /** Two fields of at most 31 and 127 characters, and no third. */
  function TwoFields(s: string): Option<(string, string)> {
    var a := SkipWhite(s);
    var n := FieldLength(a, 31);
    var b := SkipWhite(a[n..]);
    var k := FieldLength(b, 127);
    if a != "" && b != "" && SkipWhite(b[k..]) == "" then Some((a[..n], b[..k])) else None
  }

  function Find(s: string, c: char, from: nat): (r: nat)
    requires from <= |s|
    ensures from <= r <= |s| && (r < |s| ==> s[r] == c) && forall i :: from <= i < r ==> s[i] != c
    decreases |s| - from
  {
    if from == |s| || s[from] == c then from else Find(s, c, from + 1)
  }

  // ----- the parts of a line -----

  predicate HasDest(t: string) {
    '=' in t
  }

  function DestText(t: string): string
    requires HasDest(t)
  {
    Trim(t[..Find(t, '=', 0)])
  }

  /** Everything up to the `=`, or nothing. */
  function Head(t: string): string {
    if HasDest(t) then t[..Find(t, '=', 0) + 1] else ""
  }

  function UsesText(t: string): string {
    t[|Head(t)|..]
  }

  /** `copy T v` or, for an integer type, `const T v`. */
  function AliasText(t: string): Option<string> {
    var rhs := SkipBlanks(UsesText(t));
    if "copy " <= rhs && TwoFields(rhs[5..]).Some? then Some(TwoFields(rhs[5..]).value.1)
    else if "const " <= rhs && TwoFields(rhs[6..]).Some? && IntegerType(TwoFields(rhs[6..]).value.0) then
      Some(TwoFields(rhs[6..]).value.1)
    else None
  }

  predicate CallText(t: string) {
    var rhs := SkipBlanks(UsesText(t));
    "call " <= rhs || "syscall " <= rhs
  }

  function Choose(t: string, indent: string, cond: string, yes: string, no: string): string {
    var target := if Truthy(cond) then yes else no;
    if (Truthy(cond) || Falsy(cond)) && "label " <= target then indent + "br label " + target[6..] else t
  }

  function FoldBody(t: string, s: string): string
    requires |s| <= |t|
  {
    if !("br_cond " <= s) || Find(s, ',', 8) == |s| then t
    else
      var c1 := Find(s, ',', 8);
      var c2 := Find(s, ',', c1 + 1);
      if c2 == |s| then t
      else Choose(t, t[..|t| - |s|], Trim(s[8..c1]), Trim(s[c1 + 1..c2]), Trim(s[c2 + 1..]))
  }

  /** A branch on a constant becomes a jump to the label it takes. */
  function FoldText(t: string): string {
    FoldBody(t, SkipBlanks(t))
  }

  function Read(t: string): Line {
    if HasDest(t) then Assign(DestText(t), Pieces(UsesText(t))) else Plain(Pieces(UsesText(t)))
  }

  // ----- texts that spell lines -----

  /** The only blanks are spaces. */
  predicate OnlySpaces(s: string) {
    forall i :: 0 <= i < |s| && White(s[i]) ==> s[i] == ' '
  }

  predicate AllBlank(s: string) {
    forall i :: 0 <= i < |s| ==> Blank(s[i])
  }

  /** The pieces one after the other, with blanks at the gaps and perhaps behind. */
  predicate Reads(s: string, ps: seq<Piece>)
    decreases |ps|
  {
    if ps == [] then AllBlank(s)
    else if ps[0] == Gap then s != "" && s[0] == ' ' && Reads(SkipBlanks(s), ps[1..])
    else
      var w := TextOf(ps[0]);
      && Opens(ps[0], s) && Reads(s[|w|..], ps[1..])
  }

  predicate Opens(p: Piece, s: string) {
    var w := TextOf(p);
    && w != "" && w <= s
    && (p.Word? ==> ValueText(w) && Ended(s[|w|..]))
    && (p.Quote? ==> w[0] == '"')
    && (p.Other? ==> !NameChar(p.c) && !White(p.c))
  }

  lemma SpacesPart(s: string, i: nat, j: nat)
    requires OnlySpaces(s) && i <= j <= |s|
    ensures OnlySpaces(s[i..j])
  {
  }

  lemma {:induction false} ReadsCoarse(s: string)
    requires OnlySpaces(s)
    ensures Reads(s, Coarse(Lex(s)))
    decreases |s|
  {
    if s != "" {
      hide OnlySpaces, Coarse, Lex, Opens, NameChar;
      var n := FirstLength(s);
      SpacesPart(s, n, |s|);
      assert s[n..|s|] == s[n..];
      ReadsCoarse(s[n..]);
      if s[0] == ' ' {
        ReadsBlank(s);
      } else if s[0] == '-' {
        if n < |s| {
          SpacesPart(s, n + FirstLength(s[n..]), |s|);
          assert s[n + FirstLength(s[n..])..|s|] == s[n..][FirstLength(s[n..])..];
          ReadsCoarse(s[n..][FirstLength(s[n..])..]);
        }
        ReadsMinus(s);
      } else {
        ReadsOne(s);
      }
    } else {
      assert Coarse(Lex("")) == [] by { LexNothing(); }
    }
  }

  lemma ReadsBlank(s: string)
    requires s != "" && s[0] == ' ' && Reads(s[1..], Coarse(Lex(s[1..])))
    ensures FirstLength(s) == 1 && Reads(s, Coarse(Lex(s)))
  {
    hide Lex, Coarse;
    var rest := s[1..];
    var cs := Coarse(Lex(rest));
    FirstWord(s);
    assert FirstPiece(s) == Other(' ') && Lex(s) == [Other(' ')] + Lex(rest);
    CoarseBlank(Lex(rest));
    assert SkipBlanks(s) == SkipBlanks(rest);
    if !(cs != [] && cs[0] == Gap) {
      NoBlankFirst(rest);
      assert SkipBlanks(rest) == rest;
      assert ([Gap] + cs)[1..] == cs;
    }
  }

  lemma CoarseBlank(ps: seq<Piece>)
    ensures Coarse([Other(' ')] + ps) == Blanked(Coarse(ps))
  {
    assert ([Other(' ')] + ps)[1..] == ps;
  }

  /** A text whose pieces do not begin with a gap does not begin with a blank. */
  lemma NoBlankFirst(s: string)
    requires Reads(s, Coarse(Lex(s)))
    requires !(Coarse(Lex(s)) != [] && Coarse(Lex(s))[0] == Gap)
    ensures s != "" ==> !Blank(s[0])
  {
    if s != "" {
      var cs := Coarse(Lex(s));
      FirstWord(s);
      CoarseSome(Lex(s));
      assert cs != [] && cs[0] != Gap;
      SolidFirst(cs[0], s);
    }
  }

  lemma CoarseSome(ps: seq<Piece>)
    ensures ps != [] ==> Coarse(ps) != []
  {
  }

  lemma SolidFirst(p: Piece, s: string)
    requires p != Gap && Opens(p, s)
    ensures s != "" && !White(s[0])
  {
  }

  lemma ReadsOne(s: string)
    requires s != "" && s[0] !in {' ', '-'} && !White(s[0]) && Reads(s[FirstLength(s)..], Coarse(Lex(s[FirstLength(s)..])))
    ensures Reads(s, Coarse(Lex(s)))
  {
    hide Lex;
    FirstWord(s);
    var p, n := FirstPiece(s), FirstLength(s);
    assert ([p] + Lex(s[n..]))[1..] == Lex(s[n..]);
    assert Coarse(Lex(s)) == [p] + Coarse(Lex(s[n..]));
    assert ([p] + Coarse(Lex(s[n..])))[1..] == Coarse(Lex(s[n..]));
  }

  lemma ReadsMinus(s: string)
    requires s != "" && s[0] == '-' && Reads(s[1..], Coarse(Lex(s[1..])))
    requires |s| > 1 ==> Reads(s[1..][FirstLength(s[1..])..], Coarse(Lex(s[1..][FirstLength(s[1..])..])))
    ensures FirstLength(s) == 1 && Reads(s, Coarse(Lex(s)))
  {
    hide Lex, Coarse, Reads, WordLength, QuoteLength;
    FirstWord(s);
    var rest := s[1..];
    var qs := Lex(s);
    assert FirstPiece(s) == Other('-') && qs[0] == Other('-') && qs[1..] == Lex(rest);
    if |s| > 1 {
      FirstWord(rest);
      assert qs[1] == FirstPiece(rest);
      if Numeral(qs[1]) {
        MinusNumber(s, qs, rest);
      } else {
        MinusAlone(s, qs, rest);
      }
    } else {
      LexNothing();
      MinusAlone(s, qs, rest);
    }
  }

  lemma MinusNumber(s: string, qs: seq<Piece>, rest: string)
    requires s != "" && s[0] == '-' && rest == s[1..] && rest != "" && qs == [Other('-')] + Lex(rest)
    requires Numeral(FirstPiece(rest)) && Reads(rest[FirstLength(rest)..], Coarse(Lex(rest[FirstLength(rest)..])))
    ensures Reads(s, Coarse(qs))
  {
    hide Lex, FirstPiece, FirstLength;
    FirstWord(rest);
    var n := FirstLength(rest);
    var w := "-" + rest[..n];
    var more := Coarse(Lex(rest[n..]));
    assert qs[2..] == Lex(rest[n..]);
    assert Coarse(qs) == [Word(w)] + more;
    assert s[..|w|] == w && s[|w|..] == rest[n..] && w[1..] == rest[..n];
    assert ([Word(w)] + more)[1..] == more;
  }

  lemma MinusAlone(s: string, qs: seq<Piece>, rest: string)
    requires s != "" && s[0] == '-' && rest == s[1..] && qs == [Other('-')] + Lex(rest) && Reads(rest, Coarse(Lex(rest)))
    requires !(|qs| > 1 && Numeral(qs[1]))
    ensures Reads(s, Coarse(qs))
  {
    hide Lex;
    assert qs[1..] == Lex(rest);
    assert Coarse(qs) == [Other('-')] + Coarse(Lex(rest));
    assert ([Other('-')] + Coarse(Lex(rest)))[1..] == Coarse(Lex(rest));
  }

  lemma {:induction false} ReadsBack(s: string, ps: seq<Piece>)
    requires Reads(s, ps)
    ensures Reads(s, TrimBack(ps))
    decreases |ps|
  {
    if ps == [] {
    } else if |ps| == 1 {
      if ps[0] == Gap {
        assert ps[1..] == [];
        BlankAgain(s);
      }
    } else if ps[0] == Gap {
      ReadsBack(SkipBlanks(s), ps[1..]);
      TrimTail(ps);
    } else {
      ReadsBack(s[|TextOf(ps[0])|..], ps[1..]);
      TrimTail(ps);
    }
  }

  lemma TrimTail(ps: seq<Piece>)
    requires |ps| > 1
    ensures TrimBack(ps) != [] && TrimBack(ps)[0] == ps[0] && TrimBack(ps)[1..] == TrimBack(ps[1..])
  {
  }

  lemma BlankAgain(s: string)
    requires AllBlank(SkipBlanks(s))
    ensures AllBlank(s)
  {
    var r := SkipBlanks(s);
    if r != "" { assert false; }
  }

  /** The text behind its leading blanks is read as its pieces. */
  lemma ReadsPieces(s: string)
    requires OnlySpaces(s)
    ensures Reads(SkipBlanks(s), Pieces(s))
  {
    hide Lex, Coarse;
    ReadsCoarse(s);
    var cs := Coarse(Lex(s));
    if cs != [] && cs[0] == Gap {
      assert Reads(SkipBlanks(s), cs[1..]);
    } else {
      NoBlankFirst(s);
      assert SkipBlanks(s) == s;
    }
    ReadsBack(SkipBlanks(s), TrimFront(cs));
  }

  // ----- words of the text -----

  predicate Starts(ps: seq<Piece>, word: string) {
    |ps| > 1 && ps[0] == Word(word) && ps[1] == Gap
  }

  /** A text that begins with a word and a blank begins with that piece, and back. */
  lemma StartsText(s: string, ps: seq<Piece>, word: string)
    requires Reads(s, ps) && NameText(word)
    ensures word + " " <= s && ps != [Word(word)] ==> Starts(ps, word)
    ensures Starts(ps, word) ==> word + " " <= s
    ensures word + " " <= s ==> ps != [] && ps[0] == Word(word)
  {
    if word + " " <= s {
      assert s[0] == word[0] && s[|word|] == ' ';
      NotBlankFirst(s, ps);
      WordBegins(s, ps, word);
    }
    if Starts(ps, word) {
      var r := s[|word|..];
      assert Reads(r, ps[1..]) && r[0] == ' ';
      assert s == word + r;
    }
  }

  lemma NotBlankFirst(s: string, ps: seq<Piece>)
    requires Reads(s, ps) && s != "" && NameChar(s[0])
    ensures ps != [] && ps[0].Word? && NameText(ps[0].text)
  {
    assert ps == [] ==> Blank(s[0]);
    assert ps != [] && ps[0] != Gap;
    assert TextOf(ps[0])[0] == s[0];
  }

  lemma WordBegins(s: string, ps: seq<Piece>, word: string)
    requires Reads(s, ps) && NameText(word) && word + " " <= s && ps != [] && ps[0].Word? && NameText(ps[0].text)
    ensures ps[0] == Word(word) && (|ps| > 1 ==> ps[1] == Gap)
  {
    var w := ps[0].text;
    SameWord(s, w, word);
    if |ps| > 1 {
      var r := s[|w|..];
      assert r[0] == ' ';
      if ps[1] != Gap { SolidFirst(ps[1], r); }
    }
  }

  /** A text begins with one whole word. */
  lemma SameWord(s: string, a: string, b: string)
    requires NameText(a) && NameText(b) && a <= s && b <= s && Ended(s[|a|..]) && Ended(s[|b|..])
    ensures a == b
  {
    hide NameChar;
    assert |a| < |s| ==> s[|a|..][0] == s[|a|];
    assert |b| < |s| ==> s[|b|..][0] == s[|b|];
    assert forall i :: 0 <= i < |a| ==> NameChar(a[i]) && a[i] == s[i];
    assert forall i :: 0 <= i < |b| ==> NameChar(b[i]) && b[i] == s[i];
    assert |a| == |b|;
    assert a == s[..|a|] && b == s[..|b|];
  }

  // ----- fields -----

  lemma {:induction false} SameSkips(s: string)
    requires OnlySpaces(s)
    ensures SkipWhite(s) == SkipBlanks(s)
    decreases |s|
  {
    if s != "" {
      SpacesPart(s, 1, |s|);
      SameSkips(s[1..]);
    }
  }

  lemma {:induction false} FieldIs(s: string, k: nat, limit: nat)
    requires k <= |s| && k <= limit && (forall i :: 0 <= i < k ==> !White(s[i])) && (k < |s| ==> White(s[k]))
    ensures FieldLength(s, limit) == k
    decreases k
  {
    if k > 0 { FieldIs(s[1..], k - 1, limit - 1); }
  }

  predicate Solid(s: string) {
    s != "" && forall i :: 0 <= i < |s| ==> !White(s[i])
  }

  lemma ValueIsSolid(w: string)
    requires ValueText(w)
    ensures Solid(w)
  {
  }

  lemma {:induction false} BlankRest(s: string)
    requires AllBlank(s)
    ensures SkipBlanks(s) == ""
  {
    if s != "" { BlankRest(s[1..]); }
  }

  lemma FieldsAre(x: string, f: string, g: string)
    requires OnlySpaces(x) && Solid(f) && Solid(g) && |f| <= 31 && |g| <= 127 && f <= SkipBlanks(x)
    requires var c := SkipBlanks(x)[|f|..];
             c != "" && c[0] == ' ' && g <= SkipBlanks(c) && AllBlank(SkipBlanks(c)[|g|..])
    ensures TwoFields(x) == Some((f, g))
  {
    hide White, OnlySpaces, TwoFields, Solid, Blank;
    var a := SkipBlanks(x);
    var c := a[|f|..];
    var b := SkipBlanks(c);
    SkipSame(x);
    Suffix(a, |f|);
    SkipSame(c);
    Suffix(b, |g|);
    SameSkips(b[|g|..]);
    BlankRest(b[|g|..]);
    SpaceIsBlank();
    FieldThen(a, f, 31);
    EndsBlank(b, |g|);
    FieldThen(b, g, 127);
    FieldsFrom(x, a, f, c, b, g);
  }

  lemma SkipSame(s: string)
    requires OnlySpaces(s)
    ensures SkipWhite(s) == SkipBlanks(s) && OnlySpaces(SkipBlanks(s))
  {
    hide OnlySpaces;
    SameSkips(s);
    Suffix(s, |s| - |SkipBlanks(s)|);
  }

  lemma SpaceIsBlank()
    ensures Blank(' ')
  {
  }

  lemma EndsBlank(s: string, n: nat)
    requires n <= |s| && AllBlank(s[n..])
    ensures n < |s| ==> Blank(s[n..][0])
  {
  }

  lemma FieldsFrom(x: string, a: string, f: string, c: string, b: string, g: string)
    requires SkipWhite(x) == a && a != "" && FieldLength(a, 31) == |f| && a[..|f|] == f && a[|f|..] == c
    requires SkipWhite(c) == b && b != "" && FieldLength(b, 127) == |g| && b[..|g|] == g && SkipWhite(b[|g|..]) == ""
    ensures TwoFields(x) == Some((f, g))
  {
  }

  lemma Suffix(s: string, i: nat)
    requires OnlySpaces(s) && i <= |s|
    ensures OnlySpaces(s[i..])
  {
  }

  lemma FieldThen(s: string, f: string, limit: nat)
    requires Solid(f) && f <= s && |f| <= limit && (|f| < |s| ==> Blank(s[|f|..][0]))
    ensures FieldLength(s, limit) == |f| && s[..|f|] == f && s != ""
  {
    assert forall i :: 0 <= i < |f| ==> s[i] == f[i];
    FieldIs(s, |f|, limit);
  }

  lemma NoFields(x: string)
    requires OnlySpaces(x) && AllBlank(x)
    ensures TwoFields(x) == None
  {
    SameSkips(x);
    BlankRest(x);
  }

  // ----- copies -----

  /** Pieces without gaps are one field. */
  lemma {:induction false} SolidReads(s: string, mid: seq<Piece>, ps: seq<Piece>)
    requires Reads(s, mid + ps) && Gap !in mid && forall i :: 0 <= i < |mid| ==> !mid[i].Quote?
    ensures Render(mid) <= s && Reads(s[|Render(mid)|..], ps) && (mid != [] ==> Solid(Render(mid)))
    decreases |mid|
  {
    if mid == [] {
      assert mid + ps == ps;
    } else {
      hide Solid;
      var all := mid + ps;
      assert all[0] == mid[0] && all[1..] == mid[1..] + ps && mid[0] in mid;
      var w := TextOf(mid[0]);
      var r := s[|w|..];
      SolidReads(r, mid[1..], ps);
      SolidPiece(mid[0], s);
      var m := Render(mid[1..]);
      assert Render(mid) == w + m;
      JoinedPrefix(s, w, m);
      SolidJoin(w, m);
    }
  }

  lemma SolidPiece(p: Piece, s: string)
    requires Opens(p, s) && p != Gap && !p.Quote?
    ensures Solid(TextOf(p))
  {
    if p.Word? { ValueIsSolid(p.text); }
  }

  lemma JoinedPrefix(s: string, w: string, m: string)
    requires w <= s && m <= s[|w|..]
    ensures w + m <= s && s[|w + m|..] == s[|w|..][|m|..]
  {
    assert s == w + s[|w|..];
  }

  lemma SolidJoin(a: string, b: string)
    requires Solid(a) && (b == "" || Solid(b))
    ensures Solid(a + b)
  {
    hide White;
  }

  /** A keyword, a type of one field, and a value: what the fields give. */
  lemma CopyReads(s: string, word: string, mid: seq<Piece>, v: string)
    requires OnlySpaces(s) && Reads(s, [Word(word), Gap] + mid + [Gap, Word(v)])
    requires OneField(mid) && |v| <= 127
    ensures |word| < |s| && TwoFields(s[|word| + 1..]) == Some((Render(mid), v))
  {
    hide Render, OnlySpaces, TwoFields, Solid, Opens, Reads, SkipBlanks, Blank, OneField;
    var ps := [Word(word), Gap] + mid + [Gap, Word(v)];
    AfterWord(s, ps, word);
    var x := s[|word| + 1..];
    Suffix(s, |word| + 1);
    OneBlank(s[|word|..]);
    assert s[|word|..][1..] == x;
    assert ps[1..][1..] == mid + [Gap, Word(v)];
    CopyFields(SkipBlanks(x), mid, v);
    ShortField(mid);
    FieldsAre(x, Render(mid), v);
  }

  /** Pieces that are one field together, which is not cut off. */
  predicate OneField(ps: seq<Piece>) {
    ps != [] && Gap !in ps && (forall i :: 0 <= i < |ps| ==> !ps[i].Quote?) && |Render(ps)| <= 31
  }

  lemma ShortField(ps: seq<Piece>)
    requires OneField(ps)
    ensures |Render(ps)| <= 31
  {
  }

  lemma OneBlank(s: string)
    requires s != "" && s[0] == ' '
    ensures SkipBlanks(s) == SkipBlanks(s[1..])
  {
  }

  lemma CopyFields(a: string, mid: seq<Piece>, v: string)
    requires Reads(a, mid + [Gap, Word(v)]) && OneField(mid)
    ensures Solid(Render(mid)) && Solid(v) && Render(mid) <= a
    ensures var c := a[|Render(mid)|..];
            c != "" && c[0] == ' ' && v <= SkipBlanks(c) && AllBlank(SkipBlanks(c)[|v|..])
  {
    hide Render, Solid, Opens;
    SolidReads(a, mid, [Gap, Word(v)]);
    var c := a[|Render(mid)|..];
    assert [Gap, Word(v)][1..] == [Word(v)];
    assert Reads(SkipBlanks(c), [Word(v)]);
    LastWord(SkipBlanks(c), v);
  }

  lemma AfterWord(s: string, ps: seq<Piece>, word: string)
    requires Reads(s, ps) && Starts(ps, word)
    ensures word <= s && |word| < |s| && s[|word|] == ' ' && Reads(SkipBlanks(s[|word|..]), ps[1..][1..])
  {
    assert TextOf(ps[0]) == word && word <= s;
    var r := s[|word|..];
    assert Reads(r, ps[1..]) && r[0] == ' ';
  }

  lemma LastWord(b: string, v: string)
    requires Reads(b, [Word(v)])
    ensures v <= b && Solid(v) && AllBlank(b[|v|..])
  {
    assert [Word(v)][1..] == [];
    ValueIsSolid(v);
  }

  lemma NoIntegerField(s: string, ps: seq<Piece>, word: string)
    requires OnlySpaces(s) && Reads(s, ps) && Starts(ps, word)
    requires !(|ps| > 2 && ps[2].Word? && IntegerType(ps[2].text))
    ensures |word| < |s| && (TwoFields(s[|word| + 1..]).Some? ==> !IntegerType(TwoFields(s[|word| + 1..]).value.0))
  {
    hide OnlySpaces, Reads, IntegerType;
    AfterWord(s, ps, word);
    var s1 := s[|word|..];
    var x := s[|word| + 1..];
    SpacesPart(s, |word| + 1, |s|);
    assert s[|word| + 1..|s|] == x && s1[1..] == x;
    assert SkipBlanks(s1) == SkipBlanks(x);
    SameSkips(x);
    assert ps[1..][1..] == ps[2..];
    FirstFieldIsNoType(SkipBlanks(x), ps[2..]);
  }

  lemma FirstFieldIsNoType(a: string, ps: seq<Piece>)
    requires Reads(a, ps) && (a != "" ==> !Blank(a[0])) && !(ps != [] && ps[0].Word? && IntegerType(ps[0].text))
    ensures a != "" ==> !IntegerType(a[..FieldLength(a, 31)])
  {
    if a != "" && IntegerType(a[..FieldLength(a, 31)]) {
      var f := a[..FieldLength(a, 31)];
      TypeIsName(f);
      assert a[0] == f[0];
      NotBlankFirst(a, ps);
      assert |f| < |a| ==> a[|f|..][0] == a[|f|];
      SameWord(a, ps[0].text, f);
    }
  }

  lemma TypeIsName(f: string)
    requires IntegerType(f)
    ensures NameText(f) && |f| < 31
  {
  }
}
