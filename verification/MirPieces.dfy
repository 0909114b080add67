/**
  The text of a line as pieces: blanks only separate, a minus sign belongs to its number,
  and replacing a name in the text replaces its pieces.
 */
module MirPieces {
  import opened MirLines
  import opened MirText

  // ----- pieces -----

  predicate Numeral(p: Piece) {
    p.Word? && p.text != "" && '0' <= p.text[0] <= '9'
  }

  function Blanked(ps: seq<Piece>): seq<Piece> {
    if ps != [] && ps[0] == Gap then ps else [Gap] + ps
  }

  function Coarse(ps: seq<Piece>): seq<Piece>
    decreases |ps|
  {
    if ps == [] then []
    else if ps[0] == Other(' ') then Blanked(Coarse(ps[1..]))
    else if |ps| > 1 && ps[0] == Other('-') && Numeral(ps[1]) then [Word("-" + ps[1].text)] + Coarse(ps[2..])
    else [ps[0]] + Coarse(ps[1..])
  }

  function TrimFront(ps: seq<Piece>): seq<Piece> {
    if ps != [] && ps[0] == Gap then ps[1..] else ps
  }

  function TrimBack(ps: seq<Piece>): seq<Piece> {
    if ps != [] && ps[|ps| - 1] == Gap then ps[..|ps| - 1] else ps
  }

  function Pieces(s: string): seq<Piece> {
    TrimBack(TrimFront(Coarse(Lex(s))))
  }

  /** A name, or a number with its sign. */
  predicate ValueText(w: string) {
    NameText(w) || (|w| > 1 && w[0] == '-' && '0' <= w[1] <= '9' && NameText(w[1..]))
  }

  /** No minus sign stands in front of a word. */
  predicate NoMinus(ps: seq<Piece>) {
    forall i :: 0 <= i && i + 1 < |ps| && ps[i] == Other('-') ==> !ps[i + 1].Word?
  }

  // ----- pieces of joined texts -----

  predicate Ended(s: string) {
    s == "" || !NameChar(s[0])
  }

  lemma LexWord(w: string, r: string)
    requires NameText(w) && Ended(r)
    ensures Lex(w + r) == [Word(w)] + Lex(r)
  {
    var s := w + r;
    assert forall j :: 0 <= j < |w| ==> s[j] == w[j];
    WordLengthIs(s, |w|);
    assert s[0] == w[0] && NameChar(w[0]);
    assert s[..|w|] == w && s[|w|..] == r;
  }

  lemma LexOther(c: char, r: string)
    requires !NameChar(c) && c != '"'
    ensures Lex([c] + r) == [Other(c)] + Lex(r)
  {
    assert ([c] + r)[1..] == r;
  }

  /** What follows a closed quotation does not matter to it. */
  lemma {:induction false} QuoteClosed(s: string, escaped: bool, r: string)
    requires QuoteLength(s, escaped) < |s| || r == ""
    ensures QuoteLength(s[..QuoteLength(s, escaped)] + r, escaped) == QuoteLength(s, escaped)
    decreases |s|
  {
    var n := QuoteLength(s, escaped);
    if s == "" {
    } else if !escaped && s[0] == '"' {
      assert (s[..1] + r)[0] == '"';
    } else {
      QuoteClosed(s[1..], !escaped && s[0] == '\\', r);
      assert (s[..n] + r)[1..] == s[1..][..n - 1] + r;
      assert (s[..n] + r)[0] == s[0];
    }
  }

  lemma LexQuote(s: string, r: string)
    requires s != "" && s[0] == '"' && (FirstLength(s) < |s| || r == "")
    ensures Lex(s[..FirstLength(s)] + r) == [Quote(s[..FirstLength(s)])] + Lex(r)
  {
    var n := FirstLength(s);
    var t := s[..n] + r;
    QuoteClosed(s[1..], false, r);
    assert t[1..] == s[1..][..n - 1] + r;
    assert t[0] == '"' && t[..n] == s[..n] && t[n..] == r;
  }

  lemma LexValue(v: string, r: string)
    requires ValueText(v) && Ended(r)
    ensures Lex(v + r) == Lex(v) + Lex(r)
    ensures Lex(v) == if NameText(v) then [Word(v)] else [Other('-'), Word(v[1..])]
  {
    if NameText(v) { LexName(v, r); } else { LexNumber(v, r); }
  }

  lemma LexName(v: string, r: string)
    requires NameText(v) && Ended(r)
    ensures Lex(v + r) == [Word(v)] + Lex(r) && Lex(v) == [Word(v)]
  {
    hide Lex, NameText;
    LexWord(v, r);
    LexWord(v, "");
    assert v + "" == v;
    assert Lex("") == [] by { LexNothing(); }
  }

  lemma LexNothing()
    ensures Lex("") == []
  {
  }

  lemma LexNumber(v: string, r: string)
    requires |v| > 1 && v[0] == '-' && NameText(v[1..]) && Ended(r)
    ensures Lex(v + r) == [Other('-'), Word(v[1..])] + Lex(r) && Lex(v) == [Other('-'), Word(v[1..])]
    ensures !NameText(v)
  {
    hide Lex;
    assert !NameText(v) by { assert !NameChar(v[0]); }
    assert v == ['-'] + v[1..] && v + r == ['-'] + (v[1..] + r);
    LexOther('-', v[1..] + r);
    LexOther('-', v[1..]);
    LexName(v[1..], r);
  }

  // ----- replacing -----

  function Put(ps: seq<Piece>, name: string, value: string): seq<Piece> {
    if ps == [] then [] else (if ps[0] == Word(name) then Lex(value) else [ps[0]]) + Put(ps[1..], name, value)
  }

  lemma FirstWord(s: string)
    requires s != ""
    ensures var n := FirstLength(s);
            && Lex(s) == [FirstPiece(s)] + Lex(s[n..]) && s == s[..n] + s[n..]
            && TextOf(FirstPiece(s)) == s[..n]
            && (FirstPiece(s).Word? ==> NameText(s[..n]) && FirstPiece(s) == Word(s[..n]) && Ended(s[n..]))
            && (FirstPiece(s).Word? <==> NameChar(s[0]))
  {
    FirstText(s);
    if NameChar(s[0]) { FirstName(s); }
  }

  lemma FirstName(s: string)
    requires s != "" && NameChar(s[0])
    ensures var n := FirstLength(s); NameText(s[..n]) && FirstPiece(s) == Word(s[..n]) && Ended(s[n..])
  {
    hide NameChar;
    assert s[0] != '"' by { QuoteIsNoName(s[0]); }
    var n := WordLength(s);
    assert forall i :: 0 <= i < n ==> s[..n][i] == s[i];
    assert n < |s| ==> s[n..][0] == s[n];
  }

  /** A text that does not begin with a name does not begin with one afterwards. */
  lemma StaysEnded(s: string, name: string, value: string)
    requires Ended(s)
    ensures Ended(RenderWith(Lex(s), name, value))
    ensures s == "" ==> RenderWith(Lex(s), name, value) == ""
  {
    if s != "" {
      FirstWord(s);
      var r := Lex(s[FirstLength(s)..]);
      RenderWithCons(FirstPiece(s), r, name, value);
      assert RenderWith(Lex(s), name, value)[0] == s[0];
    }
  }

  lemma {:induction false} LexReplaced(s: string, name: string, value: string)
    requires NameText(name) && ValueText(value)
    ensures Lex(RenderWith(Lex(s), name, value)) == Put(Lex(s), name, value)
    decreases |s|
  {
    if s != "" {
      hide Lex, FirstLength, FirstPiece, RenderWith, ValueText, NameText, Ended;
      FirstWord(s);
      var n := FirstLength(s);
      var p, rest := FirstPiece(s), s[n..];
      var r := RenderWith(Lex(rest), name, value);
      LexReplaced(rest, name, value);
      RenderWithCons(p, Lex(rest), name, value);
      PutCons(p, Lex(rest), name, value);
      FirstReplaced(s, name, value);
    } else {
      assert Lex("") == [] && RenderWith([], name, value) == "";
    }
  }

  lemma PutCons(p: Piece, ps: seq<Piece>, name: string, value: string)
    ensures Put([p] + ps, name, value) == (if p == Word(name) then Lex(value) else [p]) + Put(ps, name, value)
  {
    assert ([p] + ps)[1..] == ps;
  }

  lemma FirstReplaced(s: string, name: string, value: string)
    requires s != "" && NameText(name) && ValueText(value)
    ensures var p := FirstPiece(s);
            var r := RenderWith(Lex(s[FirstLength(s)..]), name, value);
            if p == Word(name) then Lex(value + r) == Lex(value) + Lex(r) else Lex(TextOf(p) + r) == [p] + Lex(r)
  {
    hide Lex, RenderWith, ValueText, QuoteLength, WordLength;
    FirstWord(s);
    var p, n := FirstPiece(s), FirstLength(s);
    var r := RenderWith(Lex(s[n..]), name, value);
    if p.Word? {
      StaysEnded(s[n..], name, value);
      if p == Word(name) { LexValue(value, r); } else { LexWord(p.text, r); }
    } else if s[0] == '"' {
      if n == |s| {
        assert s[n..] == "" && Ended("");
        StaysEnded(s[n..], name, value);
      }
      LexQuote(s, r);
    } else {
      LexOther(s[0], r);
      assert s[..1] == [s[0]];
    }
  }

  lemma ReplaceCons(p: Piece, ps: seq<Piece>, a: Alias)
    ensures Replace([p] + ps, a) == [ReplacePiece(p, a)] + Replace(ps, a)
  {
  }

  lemma NoMinusTail(ps: seq<Piece>)
    requires NoMinus(ps) && ps != []
    ensures NoMinus(ps[1..])
  {
  }

  lemma NoMinusCons(p: Piece, ps: seq<Piece>)
    requires NoMinus([p] + ps)
    ensures NoMinus(ps) && (p == Other('-') && ps != [] ==> !ps[0].Word?)
  {
    var qs := [p] + ps;
    assert qs[1..] == ps;
    NoMinusTail(qs);
    if p == Other('-') && ps != [] { assert qs[0] == p && qs[0 + 1] == ps[0]; }
  }

  lemma {:induction false} CoarseReplaced(ps: seq<Piece>, name: string, value: string)
    requires NoMinus(Coarse(ps)) && name != "" && name[0] == '%' && ValueText(value)
    ensures Coarse(Put(ps, name, value)) == Replace(Coarse(ps), Alias(name, value))
    decreases |ps|
  {
    if ps != [] {
      hide NoMinus, ValueText, Lex;
      var a := Alias(name, value);
      if ps[0] == Other(' ') {
        BlankedReplaced(ps, name, value);
        CoarseReplaced(ps[1..], name, value);
      } else if |ps| > 1 && ps[0] == Other('-') && Numeral(ps[1]) {
        NoMinusCons(Word("-" + ps[1].text), Coarse(ps[2..]));
        CoarseReplaced(ps[2..], name, value);
        ReplaceCons(Word("-" + ps[1].text), Coarse(ps[2..]), a);
        NumberPut(ps, name, value);
      } else {
        NoMinusCons(ps[0], Coarse(ps[1..]));
        CoarseReplaced(ps[1..], name, value);
        ReplaceCons(ps[0], Coarse(ps[1..]), a);
        OnePut(ps, name, value);
      }
    }
  }

  lemma NumberPut(ps: seq<Piece>, name: string, value: string)
    requires |ps| > 1 && ps[0] == Other('-') && Numeral(ps[1]) && name != "" && name[0] == '%'
    ensures Coarse(Put(ps, name, value)) == [Word("-" + ps[1].text)] + Coarse(Put(ps[2..], name, value))
  {
    var qs, more := Put(ps, name, value), Put(ps[2..], name, value);
    assert ps[1..][1..] == ps[2..] && ps[1] != Word(name);
    assert Put(ps[1..], name, value) == [ps[1]] + more;
    assert qs == [ps[0]] + ([ps[1]] + more) && qs[0] == ps[0] && qs[1] == ps[1];
    assert qs[2..] == more;
  }

  lemma BlankedReplaced(ps: seq<Piece>, name: string, value: string)
    requires ps != [] && ps[0] == Other(' ') && NoMinus(Coarse(ps))
    ensures NoMinus(Coarse(ps[1..]))
    ensures Coarse(Put(ps, name, value)) == Blanked(Coarse(Put(ps[1..], name, value)))
    ensures Replace(Coarse(ps), Alias(name, value)) == Blanked(Replace(Coarse(ps[1..]), Alias(name, value)))
  {
    hide NoMinus;
    var rest := Coarse(ps[1..]);
    if !(rest != [] && rest[0] == Gap) {
      NoMinusCons(Gap, rest);
      ReplaceCons(Gap, rest, Alias(name, value));
    }
    var qs := Put(ps, name, value);
    assert qs == [ps[0]] + Put(ps[1..], name, value) && qs[1..] == Put(ps[1..], name, value);
  }

  lemma WordFirst(ps: seq<Piece>)
    requires ps != []
    ensures ps[0].Word? ==> Coarse(ps) != [] && Coarse(ps)[0] == ps[0]
  {
  }

  lemma OnePut(ps: seq<Piece>, name: string, value: string)
    requires ps != [] && ps[0] != Other(' ') && !(|ps| > 1 && ps[0] == Other('-') && Numeral(ps[1]))
    requires ps[0] == Other('-') && Coarse(ps[1..]) != [] ==> !Coarse(ps[1..])[0].Word?
    requires name != "" && name[0] == '%' && ValueText(value)
    ensures Coarse(Put(ps, name, value)) == [ReplacePiece(ps[0], Alias(name, value))] + Coarse(Put(ps[1..], name, value))
  {
    var more := Put(ps[1..], name, value);
    var qs := Put(ps, name, value);
    if ps[0] == Word(name) {
      assert value + "" == value;
      LexValue(value, "");
      if NameText(value) {
        assert qs == [Word(value)] + more && qs[1..] == more;
      } else {
        assert qs == [Other('-'), Word(value[1..])] + more && qs[2..] == more;
        assert "-" + value[1..] == value;
      }
    } else {
      assert qs == [ps[0]] + more && qs[1..] == more;
      if ps[0] == Other('-') && |ps| > 1 {
        var qs1 := ps[1..];
        WordFirst(qs1);
        assert more == [qs1[0]] + Put(qs1[1..], name, value);
      }
    }
  }

  lemma TrimsReplaced(ps: seq<Piece>, a: Alias)
    ensures TrimBack(TrimFront(Replace(ps, a))) == Replace(TrimBack(TrimFront(ps)), a)
  {
    var fs := TrimFront(ps);
    assert TrimFront(Replace(ps, a)) == Replace(fs, a);
    assert TrimBack(Replace(fs, a)) == Replace(TrimBack(fs), a);
  }

  lemma TrimsMinus(ps: seq<Piece>)
    requires NoMinus(TrimBack(TrimFront(ps)))
    ensures NoMinus(ps)
  {
    var fs := TrimFront(ps);
    var bs := TrimBack(fs);
    assert NoMinus(fs) by {
      forall i | 0 <= i && i + 1 < |fs| && fs[i] == Other('-') ensures !fs[i + 1].Word? {
        if i + 1 < |bs| { assert bs[i] == fs[i]; }
      }
    }
    forall i | 0 <= i && i + 1 < |ps| && ps[i] == Other('-') ensures !ps[i + 1].Word? {
      if |fs| < |ps| { assert fs[i - 1] == ps[i]; }
    }
  }

  /** Replacing a name in a text replaces the pieces that are that name. */
  lemma PiecesReplaced(s: string, name: string, value: string)
    requires NameText(name) && name[0] == '%' && ValueText(value) && NoMinus(Pieces(s))
    ensures Pieces(ReplaceFrom(s, 0, false, false, name, value)) == Replace(Pieces(s), Alias(name, value))
  {
    hide Lex, Coarse, NoMinus, ReplaceFrom, TrimFront, TrimBack, ValueText;
    ReplacingWholeTokens(s, name, value);
    LexReplaced(s, name, value);
    TrimsMinus(Coarse(Lex(s)));
    CoarseReplaced(Lex(s), name, value);
    TrimsReplaced(Coarse(Lex(s)), Alias(name, value));
  }

  // ----- searching -----

  lemma {:induction false} CoarseContains(ps: seq<Piece>, name: string)
    requires name != "" && name[0] == '%'
    ensures Contains(Coarse(ps), name) <==> Contains(ps, name)
    decreases |ps|
  {
    if ps != [] {
      assert ps == [ps[0]] + ps[1..];
      if ps[0] == Other(' ') {
        CoarseContains(ps[1..], name);
      } else if |ps| > 1 && ps[0] == Other('-') && Numeral(ps[1]) {
        CoarseContains(ps[2..], name);
        assert ps == [ps[0], ps[1]] + ps[2..];
      } else {
        CoarseContains(ps[1..], name);
      }
    }
  }

  /** A name is found in a text exactly when it is one of the pieces. */
  lemma PiecesContain(s: string, name: string)
    requires NameText(name) && name[0] == '%'
    ensures ContainsFrom(s, 0, false, false, name) <==> Contains(Pieces(s), name)
  {
    hide ContainsFrom, Coarse, Lex;
    ReplacingWholeTokens(s, name, "");
    var cs := Coarse(Lex(s));
    CoarseContains(Lex(s), name);
    var fs := TrimFront(cs);
    assert cs == fs || cs == [Gap] + fs;
    assert fs == TrimBack(fs) || fs == TrimBack(fs) + [Gap];
  }
}
