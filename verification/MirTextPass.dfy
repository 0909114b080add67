/**
  The scalar pass over the lines of one function in place, as text.
 */
module MirTextPass {
  import opened Options
  import opened MirLines
  import opened MirText
  import opened MirPieces
  import opened MirReading
  import opened MirSpelling
  import opened MirFolding
  import opened MirSemantics
  import opened MirPropagation
  import opened MirPreservation
  import opened MirDce

  // ----- reading one line -----

  method MirSkipSpace(s: string) returns (r: string)
    ensures r == SkipBlanks(s)
  {
    var i := 0;
    while i < |s| && Blank(s[i])
      invariant i <= |s| && SkipBlanks(s[i..]) == SkipBlanks(s)
    {
      assert s[i..][1..] == s[i + 1..];
      i := i + 1;
    }
    r := s[i..];
  }

  method MirTrimCopy(s: string) returns (r: string)
    ensures r == Trim(s)
  {
    hide CutBlanks;
    r := MirSkipSpace(s);
    ghost var t := r;
    while r != "" && Blank(r[|r| - 1])
      invariant CutBlanks(r) == CutBlanks(t)
      decreases |r|
    {
      CutOne(r);
      r := r[..|r| - 1];
    }
    CutNone(r);
  }

  lemma CutOne(s: string)
    requires s != "" && Blank(s[|s| - 1])
    ensures CutBlanks(s) == CutBlanks(s[..|s| - 1])
  {
  }

  lemma CutNone(s: string)
    requires s != "" ==> !Blank(s[|s| - 1])
    ensures CutBlanks(s) == s
  {
  }

  method MirAssignmentDest(line: string) returns (dest: Option<string>)
    ensures dest == if HasDest(line) then Some(DestText(line)) else None
  {
    if !HasDest(line) { return None; }
    var trimmed := MirTrimCopy(line[..Find(line, '=', 0)]);
    dest := Some(trimmed);
  }

  method MirAliasValue(line: string) returns (value: Option<string>)
    ensures value == AliasText(line)
  {
    var rhs := MirSkipSpace(UsesText(line));
    if "copy " <= rhs {
      var fields := TwoFields(rhs[5..]);
      if fields.Some? { return Some(fields.value.1); }
    }
    if "const " <= rhs {
      var fields := TwoFields(rhs[6..]);
      if fields.Some? && IntegerType(fields.value.0) { return Some(fields.value.1); }
    }
    value := None;
  }

  method MirFoldBranch(line: string) returns (out: string)
    ensures out == FoldText(line)
  {
    hide Find, Trim, SkipBlanks;
    var s := MirSkipSpace(line);
    if !("br_cond " <= s) { return line; }
    var c1 := Find(s, ',', 8);
    if c1 == |s| { return line; }
    var c2 := Find(s, ',', c1 + 1);
    if c2 == |s| { return line; }
    var cond := MirTrimCopy(s[8..c1]);
    if !Truthy(cond) && !Falsy(cond) { return line; }
    var target := MirTrimCopy(if Truthy(cond) then s[c1 + 1..c2] else s[c2 + 1..]);
    if !("label " <= target) { return line; }
    out := line[..|line| - |s|] + "br label " + target[6..];
  }

  // ----- a copy, spelled -----

  function CopyText(indent: string, dest: string, ty: string, v: string): string {
    indent + dest + " = copy " + ty + " " + v
  }

  /** What the compiler prints for a copy is read as that copy, and is text for the pass. */
  lemma CopyIsRead(indent: string, dest: string, ty: string, v: string)
    requires Spaces(indent) && DestFits(dest) && |dest| <= 127
    requires NameText(ty) && !ValueName(ty) && |ty| <= 31 && ValueText(v) && |v| <= 127
    ensures var t := CopyText(indent, dest, ty, v);
            && Read(t) == Assign(dest, [Word("copy"), Gap, Word(ty), Gap, Word(v)]) && WellSpelled(t)
            && AliasText(t) == Some(v)
  {
    hide Lex, Coarse, NameText, ValueText, Spaces, OnlySpaces, LineFits, WellSpelled, AliasText, Trim, AliasValue, Head;
    var t := CopyText(indent, dest, ty, v);
    CopyCut(indent, dest, ty, v);
    CopyPieces(ty, v);
    CopyLineFits(dest, ty, v);
    CopySpaces(indent, dest, ty, v);
    WellIs(t);
    AliasReads(t);
    CopyValue(ty, v);
  }

  lemma CopyValue(ty: string, v: string)
    ensures AliasValue([Word("copy"), Gap, Word(ty), Gap, Word(v)]) == Some(v)
  {
    var ps := [Word("copy"), Gap, Word(ty), Gap, Word(v)];
    assert ps[2..3] == [Word(ty)];
  }

  lemma CopyCut(indent: string, dest: string, ty: string, v: string)
    requires Spaces(indent) && NameText(dest)
    ensures var t := CopyText(indent, dest, ty, v);
            HasDest(t) && DestText(t) == dest && UsesText(t) == " copy " + ty + " " + v
  {
    var t := CopyText(indent, dest, ty, v);
    var a := indent + dest + " ";
    var u := " copy " + ty + " " + v;
    assert " = copy " == " " + "=" + " copy ";
    assert t == a + "=" + u;
    forall i | 0 <= i < |a| ensures t[i] == a[i] && a[i] != '=' {
      if |indent| <= i < |indent + dest| { assert a[i] == dest[i - |indent|]; }
    }
    assert t[|a|] == '=';
    FindIs(t, '=', 0, |a|);
    assert t[..|a|] == a && t[|a| + 1..] == u;
    TrimIs(indent, dest, " ");
  }

  lemma CopyPieces(ty: string, v: string)
    requires NameText(ty) && ValueText(v)
    ensures Pieces(" copy " + ty + " " + v) == [Word("copy"), Gap, Word(ty), Gap, Word(v)]
  {
    hide Lex, Coarse, NameText, ValueText, TrimBack, TrimFront, Blanked;
    CallWordsAreNames();
    CoarseValue(v);
    WordCoarse(ty, v);
    WordCoarse("copy", ty + (" " + v));
    SpacesCoarse(" ", "copy" + (" " + (ty + (" " + v))));
    CopyJoined(ty, v);
    CopyTrims(ty, v);
  }

  lemma CopyJoined(ty: string, v: string)
    ensures " copy " + ty + " " + v == " " + ("copy" + (" " + (ty + (" " + v))))
  {
    assert " copy " == " " + "copy" + " ";
  }

  lemma CopyTrims(ty: string, v: string)
    ensures TrimBack(TrimFront(Blanked([Word("copy")] + Blanked([Word(ty)] + Blanked([Word(v)])))))
            == [Word("copy"), Gap, Word(ty), Gap, Word(v)]
  {
  }

  lemma CopyLineFits(dest: string, ty: string, v: string)
    requires DestFits(dest) && !ValueName(ty) && |ty| <= 31 && |v| <= 127
    ensures LineFits(Assign(dest, [Word("copy"), Gap, Word(ty), Gap, Word(v)]))
  {
    var ps := [Word("copy"), Gap, Word(ty), Gap, Word(v)];
    assert ps[2..3] == [Word(ty)];
    RenderOne(Word(ty));
    CopyValue(ty, v);
  }

  lemma CopySpaces(indent: string, dest: string, ty: string, v: string)
    requires Spaces(indent) && NameText(dest) && NameText(ty) && ValueText(v)
    ensures OnlySpaces(CopyText(indent, dest, ty, v))
  {
    hide White, ValueText, NameText;
    var t := CopyText(indent, dest, ty, v);
    assert ValueText(dest) && ValueText(ty) by { NameIsValue(dest); NameIsValue(ty); }
    forall i | 0 <= i < |t| && White(t[i]) ensures t[i] == ' ' {
      var c := t[i];
      if c in dest { ValueChars(dest, c); }
      if c in ty { ValueChars(ty, c); }
      if c in v { ValueChars(v, c); }
      assert c in indent || c in " = copy " || c in " ";
      if c in " = copy " { CopyChars(c); }
    }
  }

  lemma NameIsValue(w: string)
    requires NameText(w)
    ensures ValueText(w)
  {
  }

  lemma CopyChars(c: char)
    requires c in " = copy "
    ensures White(c) ==> c == ' '
  {
  }

  // ----- the texts of a function -----

  function ReadAll(texts: seq<string>): (r: seq<Line>)
    ensures |r| == |texts| && forall i :: 0 <= i < |texts| ==> r[i] == Read(texts[i])
  {
    seq(|texts|, i requires 0 <= i < |texts| => Read(texts[i]))
  }

  predicate AllSpelled(texts: seq<string>) {
    forall i :: 0 <= i < |texts| ==> WellSpelled(texts[i])
  }

  /** The texts of a function that the pass is meant for. */
  ghost predicate Readable(texts: seq<string>) {
    AllSpelled(texts) && Strict(ReadAll(texts)) && SimpleCopies(ReadAll(texts))
  }

  predicate AllFit(aliases: seq<Alias>) {
    forall k :: 0 <= k < |aliases| ==> AliasFits(aliases[k])
  }

  // ----- propagation -----

  method RewriteText(text: string, aliases: seq<Alias>) returns (rewritten: string)
    requires WellSpelled(text) && AllFit(aliases)
    ensures WellSpelled(rewritten) && Read(rewritten) == Rewrite(Read(text), aliases)
  {
    hide WellSpelled, Read, Head, AliasFits, ReplaceFrom;
    rewritten := text;
    var prefix := |Head(text)|;
    for a := 0 to |aliases|
      invariant WellSpelled(rewritten) && Head(rewritten) == Head(text)
      invariant Read(rewritten) == WithUses(Read(text), ReplaceAll(Uses(Read(text)), aliases[..a]))
    {
      assert aliases[..a + 1][..a] == aliases[..a];
      ReplacedReads(rewritten, aliases[a]);
      HeadLeads(rewritten);
      NameOf(aliases[a]);
      var tail := MirReplaceTokenText(rewritten[prefix..], aliases[a].name, aliases[a].value);
      rewritten := rewritten[..prefix] + tail;
    }
    assert aliases[..|aliases|] == aliases;
  }

  lemma NameOf(a: Alias)
    requires AliasFits(a)
    ensures a.name != ""
  {
  }

  lemma HeadLeads(t: string)
    ensures |Head(t)| <= |t| && t[..|Head(t)|] == Head(t)
  {
  }

  /** The words of a text are names and numbers. */
  lemma {:induction false} WordsRead(s: string, ps: seq<Piece>, w: string)
    requires Reads(s, ps) && Word(w) in ps
    ensures ValueText(w)
    decreases |ps|
  {
    if ps[0] == Word(w) {
    } else {
      assert ps == [ps[0]] + ps[1..];
      WordsRead(if ps[0] == Gap then SkipBlanks(s) else s[|TextOf(ps[0])|..], ps[1..], w);
    }
  }

  /** A copy that is collected is a name and a value that can be put in its place. */
  lemma NewAliasFits(t: string)
    requires WellSpelled(t) && AliasOf(Read(t)).Some?
    ensures var a := Alias(Read(t).dest, AliasOf(Read(t)).value); !Reserved(a.value) ==> AliasFits(a)
  {
    hide Pieces, Reads, OnlySpaces, NoMinus, CopyFits, NameText, ValueText, Reserved;
    UsesSpaces(t);
    var ps := Pieces(UsesText(t));
    var n := |ps|;
    AliasIsLast(ps);
    assert ps[n - 1] in ps;
    WordsRead(SkipBlanks(UsesText(t)), ps, ps[n - 1].text);
  }

  /** A forward pass over the lines, each rewritten in place. */
  method PropagateInPlace(texts: array<string>)
    requires Readable(texts[..])
    modifies texts
    ensures AllSpelled(texts[..]) && ReadAll(texts[..]) == Rewritten(ReadAll(old(texts[..])))
  {
    hide Propagate, Rewrite, Fold, AliasValue, AliasText, WellSpelled, Read, AliasFits, Strict, SimpleCopies, AllSpelled, AllFit, Collect, HasDest, DestText, FoldText, Readable;
    ReadableParts(texts[..]);
    var aliases: seq<Alias> := [];
    ghost var was := texts[..];
    ghost var lines := ReadAll(was);
    NothingPropagated();
    NothingYet();
    assert lines[..0] == [] && texts[..0] == [];
    for i := 0 to texts.Length
      invariant AllSpelled(texts[..i]) && Propagated(ReadAll(texts[..i]), aliases) == Propagate(lines[..i])
      invariant texts[i..] == was[i..] && AllFit(aliases)
    {
      assert texts[i] == texts[i..][0] == was[i];
      SpelledAt(was, i);
      var rewritten := RewriteText(texts[i], aliases);
      PropagateNext(lines, i);
      CollectText(lines, i, rewritten, aliases);
      FoldReads(rewritten);
      var dest := MirAssignmentDest(rewritten);
      var value := MirAliasValue(rewritten);
      if dest.Some? && value.Some? { aliases := aliases + [Alias(dest.value, value.value)]; }
      ghost var done := texts[..i];
      texts[i] := MirFoldBranch(rewritten);
      assert texts[..i + 1] == done + [texts[i]];
      ReadOneMore(done, texts[i]);
    }
    assert lines[..texts.Length] == lines && texts[..texts.Length] == texts[..];
  }

  lemma ReadableParts(texts: seq<string>)
    requires Readable(texts)
    ensures AllSpelled(texts) && Strict(ReadAll(texts)) && SimpleCopies(ReadAll(texts))
  {
  }

  lemma SpelledAt(texts: seq<string>, i: nat)
    requires AllSpelled(texts) && i < |texts|
    ensures WellSpelled(texts[i])
  {
  }

  lemma NothingYet()
    ensures AllSpelled([]) && AllFit([]) && ReadAll([]) == []
  {
  }

  lemma ReadOneMore(done: seq<string>, text: string)
    requires AllSpelled(done) && WellSpelled(text)
    ensures AllSpelled(done + [text]) && ReadAll(done + [text]) == ReadAll(done) + [Read(text)]
  {
    hide WellSpelled, Read;
  }

  /** What is collected from a rewritten text is what its line collects. */
  lemma CollectText(lines: seq<Line>, i: nat, text: string, aliases: seq<Alias>)
    requires Strict(lines) && SimpleCopies(lines) && i < |lines| && aliases == Propagate(lines[..i]).aliases && AllFit(aliases)
    requires WellSpelled(text) && Read(text) == Rewrite(lines[i], aliases)
    ensures Collect(Read(text), aliases)
            == if HasDest(text) && AliasText(text).Some? then aliases + [Alias(DestText(text), AliasText(text).value)] else aliases
    ensures AllFit(Collect(Read(text), aliases))
  {
    hide Strict, SimpleCopies, AliasText, AliasFits, WellSpelled, AliasValue, Reserved, Rewrite, Propagate, FactAt;
    if HasDest(text) {
      AliasReads(text);
      if AliasOf(Read(text)).Some? {
        AllFacts(lines, i);
        NewFact(lines, i, aliases);
        FactIsSimple(lines, Alias(Read(text).dest, AliasOf(Read(text)).value), i);
        NewAliasFits(text);
      }
    }
  }

  lemma FactIsSimple(lines: seq<Line>, a: Alias, d: nat)
    requires FactAt(lines, a, d)
    ensures !Reserved(a.value)
  {
  }

  // ----- elimination -----

  ghost function AliveSet(alive: seq<bool>): (r: set<nat>)
    ensures forall i: nat :: i in r <==> i < |alive| && alive[i]
  {
    if alive == [] then {}
    else AliveSet(alive[..|alive| - 1]) + if alive[|alive| - 1] then {|alive| - 1} else {}
  }

  /** Nothing that has to stay has been dropped. */
  ghost predicate Shrunk(lines: seq<Line>, start: set<nat>, s: set<nat>) {
    s <= start && forall t :: t <= start && Closed(lines, t) ==> t <= s
  }

  lemma DropUnused(lines: seq<Line>, start: set<nat>, s: set<nat>, i: nat)
    requires Shrunk(lines, start, s) && i in s && i < |lines| && Removable(lines[i]) && !UsedBy(lines, s, i)
    ensures Shrunk(lines, start, s - {i})
  {
    forall t | t <= start && Closed(lines, t) ensures t <= s - {i} {
      UsedByMore(lines, t, s, i);
    }
  }

  lemma UsedByMore(lines: seq<Line>, t: set<nat>, s: set<nat>, i: nat)
    requires t <= s && i < |lines| && lines[i].Assign?
    ensures UsedBy(lines, t, i) ==> UsedBy(lines, s, i)
  {
  }

  lemma DropOne(alive: seq<bool>, i: nat)
    requires i < |alive| && alive[i]
    ensures AliveSet(alive[i := false]) == AliveSet(alive) - {i}
    ensures AliveSet(alive[i := false]) < AliveSet(alive)
  {
    assert i in AliveSet(alive) && i !in AliveSet(alive[i := false]);
  }

  lemma SmallerSet(a: set<nat>, b: set<nat>)
    requires a < b
    ensures |a| < |b|
  {
    var x :| x in b && x !in a;
    assert |b - a| >= 1 by { assert x in b - a; }
    assert b == a + (b - a);
  }

  lemma UsesFound(text: string, name: string)
    requires WellSpelled(text) && DestFits(name)
    ensures ContainsFrom(UsesText(text), 0, false, false, name) <==> Contains(Uses(Read(text)), name)
  {
    hide Pieces, ContainsFrom, NameText;
    PiecesContain(UsesText(text), name);
  }

  method UsedElsewhere(texts: array<string>, alive: array<bool>, i: nat, dest: string) returns (used: bool)
    requires alive.Length == texts.Length && i < texts.Length && AllSpelled(texts[..])
    requires HasDest(texts[i]) && dest == DestText(texts[i])
    ensures used == UsedBy(ReadAll(texts[..]), AliveSet(alive[..]), i)
  {
    hide WellSpelled, ContainsFrom, DestText;
    ghost var lines := ReadAll(texts[..]);
    assert texts[..][i] == texts[i] && lines[i] == Read(texts[i]);
    DestIsName(texts[i]);
    for j := 0 to texts.Length
      invariant forall k :: 0 <= k < j && k != i && alive[k] ==> !Contains(Uses(lines[k]), lines[i].dest)
    {
      if j != i && alive[j] {
        assert texts[..][j] == texts[j];
        UsesFound(texts[j], dest);
        var found := MirContainsTokenText(UsesText(texts[j]), dest);
        if found {
          assert j in AliveSet(alive[..]);
          return true;
        }
      }
    }
    used := false;
  }

  lemma DestIsName(text: string)
    requires WellSpelled(text) && HasDest(text)
    ensures Read(text).Assign? && Read(text).dest == DestText(text) && DestFits(DestText(text))
  {
  }

  method Sweep(texts: array<string>, alive: array<bool>, ghost start: set<nat>) returns (changed: bool)
    requires alive.Length == texts.Length && AllSpelled(texts[..])
    requires Shrunk(ReadAll(texts[..]), start, AliveSet(alive[..]))
    modifies alive
    ensures Shrunk(ReadAll(texts[..]), start, AliveSet(alive[..]))
    ensures AliveSet(alive[..]) <= old(AliveSet(alive[..]))
    ensures changed ==> AliveSet(alive[..]) < old(AliveSet(alive[..]))
    ensures changed ==> |AliveSet(alive[..])| < |old(AliveSet(alive[..]))|
    ensures !changed ==> alive[..] == old(alive[..]) && Closed(ReadAll(texts[..]), AliveSet(alive[..]))
  {
    hide Shrunk, WellSpelled, CallText, DestText, Read, HasDest, Removable, UsedBy, StaysAt, Closed;
    ghost var was := AliveSet(alive[..]);
    ghost var lines := ReadAll(texts[..]);
    changed := false;
    for i := 0 to texts.Length
      invariant Shrunk(lines, start, AliveSet(alive[..]))
      invariant AliveSet(alive[..]) <= was && (changed ==> AliveSet(alive[..]) < was)
      invariant !changed ==> alive[..] == old(alive[..])
      invariant !changed ==> forall k :: 0 <= k < i && alive[k] ==> StaysAt(lines, AliveSet(alive[..]), k)
    {
      assert texts[..][i] == texts[i] && lines[i] == Read(texts[i]);
      if alive[i] {
        var dest := MirAssignmentDest(texts[i]);
        RemovableText(texts[i]);
        StaysIfKept(lines, AliveSet(alive[..]), i);
        if dest.Some? && !CallText(texts[i]) {
          var used := UsedElsewhere(texts, alive, i, dest.value);
          StaysIfUsed(lines, AliveSet(alive[..]), i);
          if !used {
            DropUnused(lines, start, AliveSet(alive[..]), i);
            DropOne(alive[..], i);
            alive[i] := false;
            changed := true;
          }
        }
      }
    }
    if changed {
      SmallerSet(AliveSet(alive[..]), was);
    } else {
      ClosedAtLast(lines, AliveSet(alive[..]));
    }
  }

  ghost predicate StaysAt(lines: seq<Line>, s: set<nat>, i: nat) {
    i < |lines| && Removable(lines[i]) ==> UsedBy(lines, s, i)
  }

  lemma StaysIfKept(lines: seq<Line>, s: set<nat>, i: nat)
    requires i < |lines|
    ensures !Removable(lines[i]) ==> StaysAt(lines, s, i)
  {
  }

  lemma StaysIfUsed(lines: seq<Line>, s: set<nat>, i: nat)
    requires i < |lines| && Removable(lines[i])
    ensures UsedBy(lines, s, i) ==> StaysAt(lines, s, i)
  {
  }

  lemma ClosedAtLast(lines: seq<Line>, s: set<nat>)
    requires forall i :: i in s ==> StaysAt(lines, s, i)
    ensures Closed(lines, s)
  {
    hide UsedBy, Removable;
  }

  lemma RemovableText(text: string)
    requires WellSpelled(text)
    ensures Removable(Read(text)) <==> HasDest(text) && !CallText(text)
  {
    hide WellSpelled, CallText;
    if HasDest(text) { CallReads(text); }
  }

  /** Sweeps until nothing changes. What stays alive is the greatest set in which every
      removable line is used by another. */
  method EliminateInPlace(texts: array<string>, alive: array<bool>)
    requires alive.Length == texts.Length && AllSpelled(texts[..])
    modifies alive
    ensures Greatest(ReadAll(texts[..]), old(AliveSet(alive[..])), AliveSet(alive[..]))
  {
    hide Closed, WellSpelled, Read;
    ghost var start := AliveSet(alive[..]);
    ghost var lines := ReadAll(texts[..]);
    var changed := true;
    while changed
      invariant Shrunk(lines, start, AliveSet(alive[..]))
      invariant !changed ==> Closed(lines, AliveSet(alive[..]))
      decreases |AliveSet(alive[..])|, changed
    {
      changed := Sweep(texts, alive, start);
    }
  }

  // ----- the pass -----

  /** The pass over one function: afterwards the texts spell the rewritten lines, and the
      alive flags mark the greatest set that is closed under use. */
  method MirOptFunction(texts: array<string>, alive: array<bool>)
    requires alive.Length == texts.Length && forall i :: 0 <= i < alive.Length ==> alive[i]
    requires Readable(texts[..])
    modifies texts, alive
    ensures ReadAll(texts[..]) == Rewritten(ReadAll(old(texts[..])))
    ensures Greatest(ReadAll(texts[..]), All(ReadAll(texts[..])), AliveSet(alive[..]))
  {
    PropagateInPlace(texts);
    assert AliveSet(alive[..]) == All(ReadAll(texts[..]));
    EliminateInPlace(texts, alive);
  }

  /** The texts that are printed. */
  function Survivors(texts: seq<string>, s: set<nat>): seq<string> {
    if texts == [] then []
    else Survivors(texts[..|texts| - 1], s) + if |texts| - 1 in s then [texts[|texts| - 1]] else []
  }

  method PrintAlive(texts: array<string>, alive: array<bool>) returns (out: seq<string>)
    requires alive.Length == texts.Length
    ensures out == Survivors(texts[..], AliveSet(alive[..]))
  {
    hide AliveSet;
    out := [];
    for i := 0 to texts.Length
      invariant out == Survivors(texts[..i], AliveSet(alive[..]))
    {
      assert texts[..i + 1][..i] == texts[..i];
      if alive[i] { out := out + [texts[i]]; }
    }
    assert texts[..texts.Length] == texts[..];
  }
}
