/**
  What the pass is for: behind it nothing reads a copied or constant name, no branch on a
  constant is left, and no assignment that nothing uses. Types, conditions, calls and the
  characters of words are written out.
 */
module MirConstants {
  import opened Options
  import opened MirLines
  import opened MirSemantics
  import opened MirPropagation
  import opened MirPreservation
  import opened MirDce
  import opened MirText

  /** `d = copy T v`, or `d = const T v` where T is a type of integers. */
  predicate Settles(l: Line, d: string, ty: string, v: string) {
    || l == Assign(d, [Word("copy"), Gap, Word(ty), Gap, Word(v)])
    || (l == Assign(d, [Word("const"), Gap, Word(ty), Gap, Word(v)])
        && ty in {"i1", "i8", "i16", "i32", "i64", "u8", "u16", "u32", "u64", "usize"})
  }

  lemma SettlesIsAlias(l: Line, d: string, ty: string, v: string)
    requires Settles(l, d, ty, v)
    ensures l.Assign? && l.dest == d && AliasOf(l) == Some(v)
  {
    assert l.rhs[2..3] == [Word(ty)];
  }

  /** No line further down reads such a name once the pass is through. */
  lemma NothingReadsConstants(lines: seq<Line>, i: nat, j: nat, d: string, ty: string, v: string)
    requires Strict(lines) && SimpleCopies(lines) && i < j < |lines|
    requires forall k :: 0 <= k < |lines| && AliasOf(lines[k]).Some? ==> Reached(CodeOf(lines), k)
    requires Settles(Propagate(lines).lines[i], d, ty, v)
    ensures !Contains(Uses(Propagate(lines).lines[j]), d)
  {
    hide Strict, SimpleCopies, Reached, AliasValue, Propagate, Free, Rewrite, Settles;
    var aliases := Before(lines, j);
    SettlesIsAlias(Propagate(lines).lines[i], d, ty, v);
    LineOf(lines, i);
    LineOf(lines, j);
    AliasStays(lines, i, j, d, v);
    PropagationResolves(lines, j);
    FreeOf(Uses(Rewrite(lines[j], aliases)), aliases, Alias(d, v));
    DestIsAName(lines, i);
    FoldReadsNoMore(Rewrite(lines[j], aliases), d);
  }

  lemma LineOf(lines: seq<Line>, u: nat)
    requires u < |lines|
    ensures Propagate(lines).lines[u] == Fold(Rewrite(lines[u], Before(lines, u)))
  {
    OutLine(lines, u, |lines|);
    assert lines[..|lines|] == lines;
  }

  lemma DestIsAName(lines: seq<Line>, i: nat)
    requires Strict(lines) && i < |lines| && Fold(Rewrite(lines[i], Before(lines, i))).Assign?
    ensures ValueName(Fold(Rewrite(lines[i], Before(lines, i))).dest)
  {
    hide ReplaceAll;
  }

  /** An alias stays in the list. */
  lemma AliasStays(lines: seq<Line>, i: nat, j: nat, d: string, v: string)
    requires i < j <= |lines|
    requires var l := Fold(Rewrite(lines[i], Before(lines, i))); l.Assign? && l.dest == d && AliasOf(l) == Some(v)
    ensures Alias(d, v) in Before(lines, j)
  {
    hide AliasValue, Rewrite, Propagate;
    OutLine(lines, i, i + 1);
    OutLine(lines, i, j);
    PropagateNext(lines, i);
    var n := |Before(lines, i)|;
    assert Before(lines, i + 1) == Before(lines, i) + [Alias(d, v)];
    if i + 1 < j { OutLine(lines, i + 1, j); }
    assert Before(lines, i + 1) <= Before(lines, j);
    assert Before(lines, j)[n] == Alias(d, v);
  }

  lemma FreeOf(ps: seq<Piece>, aliases: seq<Alias>, a: Alias)
    requires Free(ps, aliases) && a in aliases
    ensures !Contains(ps, a.name)
  {
  }

  lemma FoldReadsNoMore(l: Line, d: string)
    requires !Contains(Uses(l), d) && ValueName(d)
    ensures !Contains(Uses(Fold(l)), d)
  {
    if l.Plain? {
      var ps, qs := l.body, FoldBranch(l.body);
      if IsCondJump(ps) && Word(d) in qs {
        assert ps[7] in ps && ps[12] in ps;
      }
    }
  }

  /** A branch whose condition is a constant by then becomes the jump that it takes; with any
      other condition it stays a branch. */
  lemma BranchesAreFolded(lines: seq<Line>, i: nat, cond: string, yes: string, no: string)
    requires i < |lines| && Rewrite(lines[i], Before(lines, i)) == Plain(CondJump(cond, yes, no))
    ensures Propagate(lines).lines[i]
            == Plain(if cond in {"1", "true"} then [Word("br"), Gap, Word("label"), Gap, Word(yes)]
                     else if cond in {"0", "false"} then [Word("br"), Gap, Word("label"), Gap, Word(no)]
                     else CondJump(cond, yes, no))
  {
    hide Propagate, Rewrite, FoldBranch, CondJump;
    LineOf(lines, i);
    BranchFolds(cond, yes, no);
  }

  lemma BranchFolds(cond: string, yes: string, no: string)
    ensures FoldBranch(CondJump(cond, yes, no))
            == if cond in {"1", "true"} then [Word("br"), Gap, Word("label"), Gap, Word(yes)]
               else if cond in {"0", "false"} then [Word("br"), Gap, Word("label"), Gap, Word(no)]
               else CondJump(cond, yes, no)
  {
    var ps := CondJump(cond, yes, no);
    assert ps[2] == Word(cond) && ps[7] == Word(yes) && ps[12] == Word(no);
    assert IsCondJump(ps);
  }

  /** So no branch on a constant is left. */
  lemma NoConstantBranchIsLeft(lines: seq<Line>, i: nat, cond: string, yes: string, no: string)
    requires i < |lines| && cond in {"1", "true", "0", "false"}
    ensures Propagate(lines).lines[i] != Plain(CondJump(cond, yes, no))
  {
    hide Propagate, Rewrite;
    LineOf(lines, i);
    var ps := CondJump(cond, yes, no);
    assert ps[2] == Word(cond) && ps[7] == Word(yes) && ps[12] == Word(no);
    assert IsCondJump(ps);
  }

  /** What is kept: the lines that assign nothing, calls of functions and of the system, and the
      assignments that another line that is kept reads. */
  lemma KeptExactly(lines: seq<Line>, s: set<nat>, i: nat)
    requires Greatest(lines, All(lines), s) && i < |lines|
    ensures i in s
            <==> (match lines[i]
                  case Plain(_) => true
                  case Assign(d, rhs) =>
                    || (|rhs| > 1 && rhs[0] in {Word("call"), Word("syscall")} && rhs[1] == Gap)
                    || exists j :: j in s && j < |lines| && j != i && Word(d) in Uses(lines[j]))
  {
    if i !in s { DroppedIsUnused(lines, All(lines), s, i); }
  }

  predicate WordChar(c: char) {
    'a' <= c <= 'z' || 'A' <= c <= 'Z' || '0' <= c <= '9' || c == '_' || c == '.' || c == '%' || c == '@'
  }

  lemma SameCharacters()
    ensures forall c :: WordChar(c) <==> NameChar(c)
  {
  }

  /** A word is a run of such characters, as long as it can be. */
  lemma AWordIsARun(w: string, rest: string)
    requires w != "" && (forall k :: 0 <= k < |w| ==> WordChar(w[k])) && (rest != "" ==> !WordChar(rest[0]))
    ensures Lex(w + rest) == [Word(w)] + Lex(rest)
  {
    hide NameChar, WordChar, WordLength;
    SameCharacters();
    var s := w + rest;
    WordLengthIs(s, |w|);
    assert s[..|w|] == w && s[|w|..] == rest;
    assert s[0] == w[0];
    assert s[0] != '"' by { assert !NameChar('"') by { NoQuote(); } }
  }

  lemma NoQuote()
    ensures !NameChar('"')
  {
  }

  /** A quoted string goes to the next quote. */
  lemma AQuoteIsWhole(w: string, rest: string)
    requires '"' !in w && '\\' !in w
    ensures Lex("\"" + w + "\"" + rest) == [Quote("\"" + w + "\"")] + Lex(rest)
  {
    hide QuoteLength, WordLength;
    var s := "\"" + w + "\"" + rest;
    assert s[1..] == w + ("\"" + rest);
    QuoteEnds(w, rest);
    assert FirstLength(s) == |w| + 2;
    assert s[..|w| + 2] == "\"" + w + "\"" && s[|w| + 2..] == rest;
  }

  /** Any other character stands for itself. */
  lemma OthersAreAlone(c: char, rest: string)
    requires !WordChar(c) && c != '"'
    ensures Lex([c] + rest) == [Other(c)] + Lex(rest)
  {
    SameCharacters();
    assert ([c] + rest)[1..] == rest;
  }

  lemma {:induction false} QuoteEnds(w: string, rest: string)
    requires '"' !in w && '\\' !in w
    ensures QuoteLength(w + ("\"" + rest), false) == |w| + 1
  {
    var s := w + ("\"" + rest);
    if w == "" {
      assert s[0] == '"';
    } else {
      assert s[1..] == w[1..] + ("\"" + rest);
      QuoteEnds(w[1..], rest);
    }
  }
}
