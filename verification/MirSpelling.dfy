/**
  Working on the text of a line and reading it come to the same as reading it and working
  on the line, for texts that the pass is meant for.
 */
module MirSpelling {
  import opened Options
  import opened MirLines
  import opened MirText
  import opened MirPieces
  import opened MirReading
  import opened MirSemantics
  import opened MirPropagation

  // ----- the texts that the pass is meant for -----

  /** A type has no names in it that could be replaced. */
  predicate TypeFits(mid: seq<Piece>) {
    OneField(mid) && forall i :: 0 <= i < |mid| && mid[i].Word? ==> !ValueName(mid[i].text)
  }

  /** Copies, and constants of integer types, are complete. */
  predicate CopyFits(rhs: seq<Piece>) {
    Starts(rhs, "copy") || (Starts(rhs, "const") && |rhs| > 2 && rhs[2].Word? && IntegerType(rhs[2].text)) ==>
      AliasValue(rhs).Some? && TypeFits(rhs[2..|rhs| - 2])
  }

  predicate WordsFit(ps: seq<Piece>) {
    forall i :: 0 <= i < |ps| && ps[i].Word? ==> |ps[i].text| <= 127
  }

  predicate DestFits(dest: string) {
    NameText(dest) && ValueName(dest)
  }

  /** No minus sign in front of a name, no word that fields would cut, a destination that is
      one name, copies `copy T v` of one word, calls with something to call, and conditional
      branches of the usual form. */
  predicate LineFits(l: Line) {
    && NoMinus(Uses(l)) && WordsFit(Uses(l))
    && (l.Assign? ==> DestFits(l.dest) && CopyFits(l.rhs) && l.rhs != [Word("call")] && l.rhs != [Word("syscall")])
    && (l.Plain? && Starts(l.body, "br_cond") ==> IsCondJump(l.body))
  }

  predicate WellSpelled(t: string) {
    OnlySpaces(t) && LineFits(Read(t))
  }

  predicate AliasFits(a: Alias) {
    DestFits(a.name) && ValueText(a.value) && |a.value| <= 127 && !Reserved(a.value)
  }

  // ----- what is read from the right side -----

  lemma UsesSpaces(t: string)
    requires OnlySpaces(t)
    ensures OnlySpaces(UsesText(t)) && OnlySpaces(SkipBlanks(UsesText(t)))
    ensures Reads(SkipBlanks(UsesText(t)), Pieces(UsesText(t)))
  {
    hide OnlySpaces, Pieces, Reads;
    Suffix(t, |Head(t)|);
    SkipSame(UsesText(t));
    ReadsPieces(UsesText(t));
  }

  lemma CallWordsAreNames()
    ensures NameText("call") && NameText("syscall") && NameText("copy") && NameText("const") && NameText("br_cond")
  {
  }

  lemma CallReads(t: string)
    requires WellSpelled(t) && HasDest(t)
    ensures CallText(t) <==> IsCall(Read(t).rhs)
  {
    hide Pieces, Reads, OnlySpaces, NoMinus, WordsFit, CopyFits, DestFits, NameText, SkipBlanks;
    UsesSpaces(t);
    CallWordsAreNames();
    var s, ps := SkipBlanks(UsesText(t)), Pieces(UsesText(t));
    StartsText(s, ps, "call");
    StartsText(s, ps, "syscall");
    assert "call" + " " == "call " && "syscall" + " " == "syscall ";
  }

  lemma AliasReads(t: string)
    requires WellSpelled(t) && HasDest(t)
    ensures AliasText(t) == AliasOf(Read(t))
  {
    hide Pieces, Reads, OnlySpaces, NoMinus, WordsFit, CopyFits, DestFits, NameText, SkipBlanks, AliasValue, TwoFields, IntegerType;
    UsesSpaces(t);
    CallWordsAreNames();
    var s, ps := SkipBlanks(UsesText(t)), Pieces(UsesText(t));
    StartsText(s, ps, "copy");
    StartsText(s, ps, "const");
    assert "copy" + " " == "copy " && "const" + " " == "const ";
    CopyRead(s, ps);
    ConstRead(s, ps);
    NoCopyNoAlias(ps);
  }

  lemma NoCopyNoAlias(ps: seq<Piece>)
    ensures !Starts(ps, "copy") && !Starts(ps, "const") ==> AliasValue(ps) == None
  {
  }

  lemma CopyRead(s: string, ps: seq<Piece>)
    requires OnlySpaces(s) && Reads(s, ps) && CopyFits(ps) && WordsFit(ps)
    ensures Starts(ps, "copy") ==> "copy " <= s && AliasValue(ps).Some?
                                   && TwoFields(s[5..]).Some? && TwoFields(s[5..]).value.1 == AliasValue(ps).value
    ensures "copy " <= s && !Starts(ps, "copy") ==> TwoFields(s[5..]) == None
  {
    hide Reads, OnlySpaces, AliasValue, TwoFields, NameText;
    CallWordsAreNames();
    StartsText(s, ps, "copy");
    assert "copy" + " " == "copy ";
    if Starts(ps, "copy") {
      CopyParts(ps);
      var n := |ps|;
      assert ps == [Word("copy"), Gap] + ps[2..n - 2] + [Gap, ps[n - 1]];
      CopyReads(s, "copy", ps[2..n - 2], ps[n - 1].text);
    } else if "copy " <= s {
      LoneWord(s, "copy");
    }
  }

  lemma CopyParts(ps: seq<Piece>)
    requires CopyFits(ps) && WordsFit(ps)
    requires Starts(ps, "copy") || (Starts(ps, "const") && |ps| > 2 && ps[2].Word? && IntegerType(ps[2].text))
    ensures var n := |ps|;
            && n >= 5 && ps[n - 2] == Gap && ps[n - 1].Word? && |ps[n - 1].text| <= 127 && OneField(ps[2..n - 2])
            && AliasValue(ps) == Some(ps[n - 1].text) && (Starts(ps, "const") ==> n == 5)
  {
    hide OneField, IntegerType;
  }

  lemma LoneWord(s: string, word: string)
    requires OnlySpaces(s) && Reads(s, [Word(word)]) && word + " " <= s
    ensures TwoFields(s[|word| + 1..]) == None
  {
    hide OnlySpaces, TwoFields;
    assert [Word(word)][1..] == [];
    var r := s[|word|..];
    assert AllBlank(r) && r[1..] == s[|word| + 1..];
    Suffix(s, |word| + 1);
    NoFields(s[|word| + 1..]);
  }

  lemma ConstRead(s: string, ps: seq<Piece>)
    requires OnlySpaces(s) && Reads(s, ps) && CopyFits(ps) && WordsFit(ps)
    ensures "const " <= s && TwoFields(s[6..]).Some? && IntegerType(TwoFields(s[6..]).value.0) ==>
              AliasValue(ps) == Some(TwoFields(s[6..]).value.1)
    ensures Starts(ps, "const") ==> "const " <= s
    ensures Starts(ps, "const") && AliasValue(ps).Some? ==>
              TwoFields(s[6..]).Some? && IntegerType(TwoFields(s[6..]).value.0) && TwoFields(s[6..]).value.1 == AliasValue(ps).value
  {
    hide Reads, OnlySpaces, AliasValue, TwoFields, NameText, IntegerType, CopyFits, WordsFit;
    CallWordsAreNames();
    StartsText(s, ps, "const");
    assert "const" + " " == "const ";
    if Starts(ps, "const") {
      if |ps| > 2 && ps[2].Word? && IntegerType(ps[2].text) {
        CopyParts(ps);
        assert ps == [Word("const"), Gap] + [ps[2]] + [Gap, ps[4]] && ps[2..3] == [ps[2]];
        CopyReads(s, "const", [ps[2]], ps[4].text);
        RenderOne(ps[2]);
      } else {
        NoIntegerField(s, ps, "const");
        NoTypeNoAlias(ps);
      }
    } else if "const " <= s {
      LoneWord(s, "const");
    }
  }

  lemma RenderOne(p: Piece)
    ensures Render([p]) == TextOf(p)
  {
    assert [p][1..] == [] && TextOf(p) + "" == TextOf(p);
  }

  lemma NoTypeNoAlias(ps: seq<Piece>)
    requires Starts(ps, "const") && !(|ps| > 2 && ps[2].Word? && IntegerType(ps[2].text))
    ensures AliasValue(ps) == None
  {
  }

  // ----- replacing -----

  lemma HeadStays(t: string, u: string)
    requires '=' !in u || HasDest(t)
    ensures Head(Head(t) + u) == Head(t) && UsesText(Head(t) + u) == u
    ensures HasDest(Head(t) + u) == HasDest(t)
    ensures HasDest(t) ==> DestText(Head(t) + u) == DestText(t)
  {
    var h := Head(t);
    var r := h + u;
    if HasDest(t) {
      var n := Find(t, '=', 0);
      NotAtEnd(t, '=');
      assert forall i :: 0 <= i <= n ==> r[i] == t[i];
      NotAtEnd(r, '=');
      assert Find(r, '=', 0) == n;
      assert r[..n] == t[..n];
    } else {
      assert r == u;
    }
  }

  lemma NotAtEnd(s: string, c: char)
    requires c in s
    ensures Find(s, c, 0) < |s|
  {
    var i :| 0 <= i < |s| && s[i] == c;
  }

  /** Every character of the result was there or belongs to the value. */
  lemma {:induction false} CharsReplaced(s: string, name: string, value: string, c: char)
    requires c in RenderWith(Lex(s), name, value)
    ensures c in s || c in value
    decreases |s|
  {
    if s != "" {
      hide Lex, FirstPiece, FirstLength;
      FirstWord(s);
      var n := FirstLength(s);
      RenderWithCons(FirstPiece(s), Lex(s[n..]), name, value);
      if c in RenderWith(Lex(s[n..]), name, value) { CharsReplaced(s[n..], name, value, c); }
    }
  }

  lemma ValueChars(v: string, c: char)
    requires ValueText(v) && c in v
    ensures !White(c) && c != '='
  {
  }

  lemma UsesReplaced(t: string, a: Alias)
    requires OnlySpaces(t) && AliasFits(a)
    ensures var u := ReplaceFrom(UsesText(t), 0, false, false, a.name, a.value);
            OnlySpaces(Head(t) + u) && ('=' in u ==> HasDest(t))
  {
    hide ReplaceFrom, Lex, RenderWith, ValueText, NameText, White, Reserved;
    var s := UsesText(t);
    ReplacingWholeTokens(s, a.name, a.value);
    var u := ReplaceFrom(s, 0, false, false, a.name, a.value);
    forall c | c in u ensures (White(c) ==> c == ' ') && (c == '=' ==> HasDest(t)) {
      CharsReplaced(s, a.name, a.value, c);
      if c in s {
        var i :| 0 <= i < |s| && s[i] == c;
        assert t[|Head(t)| + i] == c;
      } else {
        ValueChars(a.value, c);
      }
    }
    var r := Head(t) + u;
    forall i | 0 <= i < |r| && White(r[i]) ensures r[i] == ' ' {
      if i < |Head(t)| { assert r[i] == t[i]; } else { assert r[i] in u; }
    }
  }

  /** Replacing in the text behind the `=` replaces in the line. */
  lemma ReplacedReads(t: string, a: Alias)
    requires WellSpelled(t) && AliasFits(a)
    ensures var r := Head(t) + ReplaceFrom(UsesText(t), 0, false, false, a.name, a.value);
            && Read(r) == WithUses(Read(t), Replace(Uses(Read(t)), a)) && WellSpelled(r)
            && Head(r) == Head(t)
  {
    hide ReplaceFrom, Pieces, OnlySpaces, Head, LineFits, ValueText, NameText, Reserved, HasDest, NoMinus;
    UsesReplaced(t, a);
    var u := ReplaceFrom(UsesText(t), 0, false, false, a.name, a.value);
    HeadStays(t, u);
    NoMinusUses(Read(t));
    assert Uses(Read(t)) == Pieces(UsesText(t));
    PiecesReplaced(UsesText(t), a.name, a.value);
    FitsReplaced(Read(t), a);
  }

  lemma NoMinusUses(l: Line)
    requires LineFits(l)
    ensures NoMinus(Uses(l))
  {
  }

  lemma StartsShape(ps: seq<Piece>, qs: seq<Piece>, word: string)
    requires SameShape(ps, qs) && Reserved(word)
    ensures Starts(ps, word) <==> Starts(qs, word)
    ensures ps == [Word(word)] <==> qs == [Word(word)]
  {
    hide Reserved;
  }

  lemma MinusShape(ps: seq<Piece>, qs: seq<Piece>)
    requires SameShape(ps, qs) && NoMinus(ps)
    ensures NoMinus(qs)
  {
    hide Reserved;
  }

  lemma ReservedWords()
    ensures Reserved("copy") && Reserved("const") && Reserved("call") && Reserved("syscall") && Reserved("br_cond")
  {
  }

  lemma FitsReplaced(l: Line, a: Alias)
    requires LineFits(l) && AliasFits(a)
    ensures LineFits(WithUses(l, Replace(Uses(l), a)))
  {
    hide NoMinus, CopyFits, Reserved, IsCondJump, ValueText, NameText, IntegerType, Starts;
    var ps, qs := Uses(l), Replace(Uses(l), a);
    NamesAreNotReserved(a.name);
    ReplaceShape(ps, a);
    MinusShape(ps, qs);
    CondJumpShape(ps, qs);
    ReservedWords();
    StartsShape(ps, qs, "call");
    StartsShape(ps, qs, "syscall");
    StartsShape(ps, qs, "br_cond");
    if l.Assign? { CopyReplaced(ps, a); }
  }

  lemma CopyReplaced(ps: seq<Piece>, a: Alias)
    requires CopyFits(ps) && AliasFits(a) && SameShape(ps, Replace(ps, a))
    ensures CopyFits(Replace(ps, a))
  {
    hide Reserved, AliasValue, OneField, ValueText, NameText, IntegerType;
    var qs := Replace(ps, a);
    ReservedWords();
    StartsShape(ps, qs, "copy");
    StartsShape(ps, qs, "const");
    AliasShape(ps, qs);
    if |ps| > 2 && ps[2].Word? && qs[2].Word? {
      TypesAreReserved(ps[2].text);
      TypesAreReserved(qs[2].text);
    }
    if AliasValue(ps).Some? && TypeFits(ps[2..|ps| - 2]) {
      TypeStays(ps, a);
    }
  }

  lemma TypeStays(ps: seq<Piece>, a: Alias)
    requires |ps| >= 5 && TypeFits(ps[2..|ps| - 2]) && ValueName(a.name)
    ensures Replace(ps, a)[2..|ps| - 2] == ps[2..|ps| - 2]
  {
    var mid := ps[2..|ps| - 2];
    forall i | 0 <= i < |mid| ensures ReplacePiece(mid[i], a) == mid[i] {
    }
  }
}
