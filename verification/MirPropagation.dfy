/**
  Copy propagation and branch folding change nothing that can be observed.
 */
module MirPropagation {
  import opened Options
  import opened MirLines
  import opened MirSemantics

  /** The words with a meaning of their own at the places the pass looks at. */
  predicate Reserved(w: string) {
    w in {"copy", "const", "call", "syscall", "call_indirect", "br", "br_cond", "label", "block", "ret", "unreachable"}
    || IntegerType(w)
  }

  /** Copied values are names or literals. */
  predicate SimpleCopies(lines: seq<Line>) {
    forall i :: 0 <= i < |lines| && AliasOf(lines[i]).Some? ==> !Reserved(AliasOf(lines[i]).value)
  }

  // ----- shapes survive -----

  /** The same pieces at every place but for words that are not reserved. */
  ghost predicate SameShape(ps: seq<Piece>, qs: seq<Piece>) {
    && |qs| == |ps|
    && (forall i :: 0 <= i < |ps| ==> ps[i].Word? == qs[i].Word? && (!ps[i].Word? ==> ps[i] == qs[i]))
    && (forall i :: 0 <= i < |ps| && ps[i].Word? && (Reserved(ps[i].text) || Reserved(qs[i].text)) ==> ps[i] == qs[i])
  }

  lemma {:induction false} ReplaceAllShape(ps: seq<Piece>, aliases: seq<Alias>)
    requires forall k :: 0 <= k < |aliases| ==> ValueName(aliases[k].name) && !Reserved(aliases[k].value)
    ensures SameShape(ps, ReplaceAll(ps, aliases))
    decreases |aliases|
  {
    if aliases != [] {
      var last := |aliases| - 1;
      ReplaceAllShape(ps, aliases[..last]);
      var qs := ReplaceAll(ps, aliases[..last]);
      NamesAreNotReserved(aliases[last].name);
      ReplaceShape(qs, aliases[last]);
      ShapeThen(ps, qs, Replace(qs, aliases[last]));
    }
  }

  lemma NamesAreNotReserved(w: string)
    requires ValueName(w)
    ensures !Reserved(w)
  {
  }

  lemma ReplaceShape(ps: seq<Piece>, a: Alias)
    requires !Reserved(a.name) && !Reserved(a.value)
    ensures SameShape(ps, Replace(ps, a))
  {
    hide Reserved;
  }

  lemma ShapeThen(ps: seq<Piece>, qs: seq<Piece>, rs: seq<Piece>)
    requires SameShape(ps, qs) && SameShape(qs, rs)
    ensures SameShape(ps, rs)
  {
    hide Reserved;
  }

  lemma AliasShape(ps: seq<Piece>, qs: seq<Piece>)
    requires SameShape(ps, qs)
    ensures AliasValue(ps).Some? <==> AliasValue(qs).Some?
    ensures AliasValue(ps).Some? ==> |ps| >= 5 && ps[|ps| - 1] == Word(AliasValue(ps).value) && qs[|ps| - 1] == Word(AliasValue(qs).value)
  {
    var n := |ps|;
    if n >= 5 {
      hide Reserved, IntegerType;
      assert Reserved("copy") && Reserved("const") by { CopyWords(); }
      GapShape(ps, qs);
      if n == 5 && ps[2].Word? {
        assert IntegerType(ps[2].text) ==> Reserved(ps[2].text) by { TypesAreReserved(ps[2].text); }
        assert IntegerType(qs[2].text) ==> Reserved(qs[2].text) by { TypesAreReserved(qs[2].text); }
      }
    }
  }

  lemma CopyWords()
    ensures Reserved("copy") && Reserved("const")
  {
  }

  lemma TypesAreReserved(w: string)
    ensures IntegerType(w) ==> Reserved(w)
  {
  }

  lemma GapShape(ps: seq<Piece>, qs: seq<Piece>)
    requires SameShape(ps, qs) && |ps| >= 5
    ensures Gap in ps[2..|ps| - 2] <==> Gap in qs[2..|ps| - 2]
  {
    hide Reserved;
    var n := |ps|;
    if Gap in ps[2..n - 2] {
      var i :| 0 <= i < n - 4 && ps[2..n - 2][i] == Gap;
      assert qs[2..n - 2][i] == Gap;
    }
    if Gap in qs[2..n - 2] {
      var i :| 0 <= i < n - 4 && qs[2..n - 2][i] == Gap;
      assert ps[2..n - 2][i] == Gap;
    }
  }

  lemma EffectShape(ps: seq<Piece>, qs: seq<Piece>)
    requires SameShape(ps, qs)
    ensures IsEffect(ps) == IsEffect(qs) && IsCall(ps) == IsCall(qs) && IsReturn(ps) == IsReturn(qs)
  {
  }

  lemma JumpShape(ps: seq<Piece>, qs: seq<Piece>)
    requires SameShape(ps, qs)
    ensures IsJump(ps) == IsJump(qs)
  {
  }

  lemma CondJumpShape(ps: seq<Piece>, qs: seq<Piece>)
    requires SameShape(ps, qs)
    ensures IsCondJump(ps) == IsCondJump(qs)
  {
  }

  lemma HeaderShape(ps: seq<Piece>, qs: seq<Piece>)
    requires SameShape(ps, qs)
    ensures IsHeader(ps) == IsHeader(qs)
  {
  }
}
