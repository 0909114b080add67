/**
  The whole pass, by what can be seen of the function before it: the condition is on its
  lines, and the runs of the function and of the printed result come to the same end.
 */
module MirWhole {
  import opened Options
  import opened MirReading
  import opened MirLines
  import opened MirSemantics
  import opened MirPropagation
  import opened MirPreservation
  import opened MirDce
  import opened MirOpt
  import opened MirTextPass

  predicate IsIndirectCall(l: Line) {
    l.Assign? && |l.rhs| > 1 && l.rhs[0] == Word("call_indirect") && l.rhs[1] == Gap
  }

  /** A line that is no assignment mentions the name. */
  predicate UsedByPlain(lines: seq<Line>, name: string) {
    exists j :: 0 <= j < |lines| && lines[j].Plain? && Contains(lines[j].body, name)
  }

  /** Every indirect call gives a value that a branch, a store or a return uses. Functions
      without indirect calls are of this kind. */
  predicate IndirectCallsUsed(lines: seq<Line>) {
    forall i :: 0 <= i < |lines| && IsIndirectCall(lines[i]) ==> UsedByPlain(lines, lines[i].dest)
  }

  // ----- such calls are kept -----

  /** The first words of a line are not rewritten. */
  lemma IndirectBefore(lines: seq<Line>, i: nat)
    requires Strict(lines) && SimpleCopies(lines) && i < |lines| && Rewritten(lines)[i].Assign?
    requires IsEffect(Rewritten(lines)[i].rhs) && !IsCall(Rewritten(lines)[i].rhs)
    ensures IsIndirectCall(lines[i]) && Rewritten(lines)[i].dest == lines[i].dest && AliasOf(lines[i]).None?
  {
    hide Strict, SimpleCopies, Facts, ReplaceAll, Reserved, Before;
    LineAt(lines, i);
    AllFacts(lines, i);
    ShapeOfLine(lines, Uses(lines[i]), Before(lines, i));
    CallWords();
    var ps, qs := lines[i].rhs, Rewritten(lines)[i].rhs;
    assert qs[0] == Word("call_indirect") && ps[0] == qs[0] && ps[1] == qs[1];
  }

  lemma CallWords()
    ensures Reserved("call_indirect")
  {
  }

  lemma NoAliasName(lines: seq<Line>, i: nat, u: nat, k: nat)
    requires Strict(lines) && SimpleCopies(lines) && i < |lines| && u <= |lines| && k < |Before(lines, u)|
    requires lines[i].Assign? && AliasOf(lines[i]).None?
    ensures Before(lines, u)[k].name != lines[i].dest
  {
    hide SimpleCopies, Before, AliasOf;
    AllFacts(lines, u);
    assert HasFact(lines, Before(lines, u)[k]);
    var d :| FactAt(lines, Before(lines, u)[k], d);
  }

  /** A name that is no alias stays in a line that is no assignment, folded or not. */
  lemma NameStays(lines: seq<Line>, i: nat, j: nat)
    requires Strict(lines) && SimpleCopies(lines) && i < |lines| && j < |lines|
    requires lines[i].Assign? && AliasOf(lines[i]).None? && lines[j].Plain? && Contains(lines[j].body, lines[i].dest)
    ensures Rewritten(lines)[j].Plain? && Contains(Rewritten(lines)[j].body, lines[i].dest)
  {
    hide SimpleCopies, Before, AliasOf, Facts, ReplaceAll, IsCondJump, Reserved;
    var name, ps := lines[i].dest, lines[j].body;
    var qs := ReplaceAll(ps, Before(lines, j));
    var k :| 0 <= k < |ps| && ps[k] == Word(name);
    forall a | 0 <= a < |Before(lines, j)| ensures Before(lines, j)[a].name != name {
      NoAliasName(lines, i, j, a);
    }
    KeptWord(ps, Before(lines, j), k);
    AllFacts(lines, j);
    ShapeOfLine(lines, ps, Before(lines, j));
    LineAt(lines, j);
    CondJumpShape(ps, qs);
    if IsCondJump(qs) {
      assert IsCondJump(ps);
      PlaceInJump(lines, i, j, k);
      FoldKeeps(qs, name);
    }
  }

  /** In a conditional jump a value can only be the condition. */
  lemma PlaceInJump(lines: seq<Line>, i: nat, j: nat, k: nat)
    requires Strict(lines) && i < |lines| && j < |lines| && lines[i].Assign? && lines[j].Plain?
    requires IsCondJump(lines[j].body) && k < |lines[j].body| && lines[j].body[k] == Word(lines[i].dest)
    ensures k == 2
  {
    var ps, name := lines[j].body, lines[i].dest;
    assert ValueName(name);
    assert !IsLabelOf(lines[j], name);
    assert ps[0] == Word("br_cond") && ps[5] == Word("label") && ps[10] == Word("label");
    assert !ps[1].Word? && !ps[3].Word? && !ps[4].Word? && !ps[6].Word? && !ps[8].Word? && !ps[9].Word? && !ps[11].Word?;
    NoValueName(name);
    assert |ps| == 13 && k != 0 && k != 5 && k != 10 && k != 7 && k != 12;
  }

  lemma NoValueName(w: string)
    requires ValueName(w)
    ensures w != "br_cond" && w != "label"
  {
  }

  lemma FoldKeeps(qs: seq<Piece>, name: string)
    requires IsCondJump(qs) && qs[2] == Word(name) && ValueName(name)
    ensures FoldBranch(qs) == qs
  {
  }

  lemma IndirectIsUsed(lines: seq<Line>, s: set<nat>, i: nat)
    requires Strict(lines) && SimpleCopies(lines) && IndirectCallsUsed(lines) && i < |lines|
    requires Rewritten(lines)[i].Assign? && IsEffect(Rewritten(lines)[i].rhs) && !IsCall(Rewritten(lines)[i].rhs)
    requires forall j :: 0 <= j < |lines| && Rewritten(lines)[j].Plain? ==> j in s
    ensures UsedBy(Rewritten(lines), s, i)
  {
    hide Strict, SimpleCopies, Rewritten, IsEffect, IsCall;
    SameLength(lines);
    IndirectBefore(lines, i);
    assert UsedByPlain(lines, lines[i].dest);
    var j: nat :| j < |lines| && lines[j].Plain? && Contains(lines[j].body, lines[i].dest);
    NameStays(lines, i, j);
    assert j in s && j != i && Contains(Uses(Rewritten(lines)[j]), Rewritten(lines)[i].dest);
  }

  /** So the elimination drops nothing that has an effect. */
  lemma IndirectCallsAreKept(lines: seq<Line>, s: set<nat>)
    requires Strict(lines) && SimpleCopies(lines) && IndirectCallsUsed(lines)
    requires Greatest(Rewritten(lines), All(Rewritten(lines)), s)
    ensures NoCallLost(Rewritten(lines), s)
  {
    hide Strict, SimpleCopies, Rewritten, IsEffect, IndirectCallsUsed, Greatest, UsedBy;
    var code := Rewritten(lines);
    SameLength(lines);
    forall j: nat | j < |code| && code[j].Plain? ensures j in s {
      if j !in s { DroppedIsUnused(code, All(code), s, j); }
    }
    forall i: nat | i < |code| && code[i].Assign? && IsEffect(code[i].rhs) ensures i in s {
      if !IsCall(code[i].rhs) { IndirectIsUsed(lines, s, i); }
      if i !in s { DroppedIsUnused(code, All(code), s, i); }
    }
  }

  // ----- the main results -----

  /** A function that the pass is meant for. */
  ghost predicate Proper(lines: seq<Line>, m: Meaning, env: map<string, int>) {
    Strict(lines) && SimpleCopies(lines) && Sensible(m) && EnvOk(env) && IndirectCallsUsed(lines)
  }

  function Result(lines: seq<Line>, s: set<nat>): Code {
    Printed(Kept(Rewritten(lines), s))
  }

  /** Every run of the function is a run of the result, with the same effects in the same
      order, the same memory and the same end. The result goes on whenever the function
      does: it takes a step for every `|lines| + 1` steps at least. */
  lemma WholePassPreservesMeaning(lines: seq<Line>, s: set<nat>, m: Meaning, env: map<string, int>, mem: int, n: nat)
    returns (k: nat)
    requires Proper(lines, m, env) && Greatest(Rewritten(lines), All(Rewritten(lines)), s)
    ensures k <= n <= k * (|lines| + 1) + |lines|
    ensures var a, b := Run(m, CodeOf(lines), Start(env, mem), n), Run(m, Result(lines, s), Start(env, mem), k);
            a.trace == b.trace && a.Running? == b.Running? && (a.Running? ==> a.mem == b.mem)
  {
    hide Strict, SimpleCopies, Sensible, EnvOk, Greatest, Run, Rewritten, IndirectCallsUsed, NoCallLost, Rank;
    IndirectCallsAreKept(lines, s);
    k := PassPreservesMeaning(lines, s, m, env, mem, n);
  }

  lemma {:induction false} HaltedStays(m: Meaning, f: Code, st: State, k: nat, j: nat)
    requires k <= j && Run(m, f, st, k).Halted?
    ensures Run(m, f, st, j) == Run(m, f, st, k)
    decreases j
  {
    if k < j { HaltedStays(m, f, st, k, j - 1); }
  }

  lemma EnoughSteps(k: nat, j: nat, size: nat)
    requires (k + 1) * (size + 1) <= j * (size + 1) + size
    ensures k <= j
  {
    var d, m := k + 1 - j, size + 1;
    assert d * m == (k + 1) * m - j * m;
    AtLeast(d, m);
  }

  lemma AtLeast(d: int, m: nat)
    ensures d <= 0 || d * m >= m
  {
  }

  /** Some run ends with the trace. */
  ghost predicate Ends(m: Meaning, f: Code, env: map<string, int>, mem: int, trace: seq<seq<Item>>) {
    exists n: nat :: Run(m, f, Start(env, mem), n) == Halted(trace)
  }

  /** The function ends with a trace exactly when the result does: so it runs for ever
      exactly when the result does. */
  lemma WholePassIsExact(lines: seq<Line>, s: set<nat>, m: Meaning, env: map<string, int>, mem: int, trace: seq<seq<Item>>)
    requires Proper(lines, m, env) && Greatest(Rewritten(lines), All(Rewritten(lines)), s)
    ensures Ends(m, CodeOf(lines), env, mem, trace) <==> Ends(m, Result(lines, s), env, mem, trace)
  {
    hide Proper, Greatest, Run, Rewritten, Result;
    if n: nat :| Run(m, CodeOf(lines), Start(env, mem), n) == Halted(trace) {
      var k := WholePassPreservesMeaning(lines, s, m, env, mem, n);
    }
    if k: nat :| Run(m, Result(lines, s), Start(env, mem), k) == Halted(trace) {
      var n := (k + 1) * (|lines| + 1);
      var j := WholePassPreservesMeaning(lines, s, m, env, mem, n);
      EnoughSteps(k, j, |lines|);
      HaltedStays(m, Result(lines, s), Start(env, mem), k, j);
      assert Run(m, CodeOf(lines), Start(env, mem), n) == Halted(trace);
    }
  }

  // ----- texts -----

  lemma {:induction false} SurvivorsRead(texts: seq<string>, s: set<nat>)
    ensures CodeOf(ReadAll(Survivors(texts, s))) == Printed(Kept(ReadAll(texts), s))
    decreases |texts|
  {
    if texts != [] {
      hide Read;
      var n := |texts| - 1;
      var kept := Kept(ReadAll(texts), s);
      SurvivorsRead(texts[..n], s);
      assert ReadAll(texts[..n]) == ReadAll(texts)[..n];
      assert kept[..n] == Kept(ReadAll(texts[..n]), s);
      if n in s {
        OneMoreRead(Survivors(texts[..n], s), texts[n]);
      }
    }
  }

  lemma OneMoreRead(texts: seq<string>, t: string)
    ensures CodeOf(ReadAll(texts + [t])) == CodeOf(ReadAll(texts)) + [Some(Read(t))]
  {
    hide Read;
    assert ReadAll(texts + [t]) == ReadAll(texts) + [Read(t)];
  }

  /** From text to text: a function whose texts have been rewritten, and of which the alive
      ones are printed, ends with the same trace as the function that was read. */
  lemma TheTextKeepsItsMeaning(texts: seq<string>, after: seq<string>, s: set<nat>,
                               m: Meaning, env: map<string, int>, mem: int, trace: seq<seq<Item>>)
    requires Proper(ReadAll(texts), m, env)
    requires ReadAll(after) == Rewritten(ReadAll(texts)) && Greatest(ReadAll(after), All(ReadAll(after)), s)
    ensures Ends(m, CodeOf(ReadAll(texts)), env, mem, trace) <==> Ends(m, CodeOf(ReadAll(Survivors(after, s))), env, mem, trace)
  {
    hide Proper, Greatest, Ends;
    WholePassIsExact(ReadAll(texts), s, m, env, mem, trace);
    SurvivorsResult(texts, after, s);
  }

  lemma SurvivorsResult(texts: seq<string>, after: seq<string>, s: set<nat>)
    requires ReadAll(after) == Rewritten(ReadAll(texts))
    ensures CodeOf(ReadAll(Survivors(after, s))) == Result(ReadAll(texts), s)
  {
    SurvivorsRead(after, s);
  }

  lemma IsProper(texts: seq<string>, m: Meaning, env: map<string, int>)
    requires Readable(texts) && IndirectCallsUsed(ReadAll(texts)) && Sensible(m) && EnvOk(env)
    ensures Proper(ReadAll(texts), m, env)
  {
  }

  /** The pass over a function, from its texts to those that are printed. */
  method MirOptAndPrint(texts: array<string>, alive: array<bool>) returns (out: seq<string>)
    requires alive.Length == texts.Length && forall i :: 0 <= i < alive.Length ==> alive[i]
    requires Readable(texts[..]) && IndirectCallsUsed(ReadAll(texts[..]))
    modifies texts, alive
    ensures forall m: Meaning, env: map<string, int>, mem: int, trace :: Sensible(m) && EnvOk(env) ==>
              (Ends(m, CodeOf(ReadAll(old(texts[..]))), env, mem, trace) <==> Ends(m, CodeOf(ReadAll(out)), env, mem, trace))
  {
    hide Readable, IndirectCallsUsed, Sensible, EnvOk, Ends, Greatest, Rewritten, Proper, Survivors, ReadAll, All;
    ghost var was := texts[..];
    MirOptFunction(texts, alive);
    ghost var after, s := texts[..], AliveSet(alive[..]);
    out := PrintAlive(texts, alive);
    forall m: Meaning, env: map<string, int>, mem: int, trace: seq<seq<Item>> | Sensible(m) && EnvOk(env)
      ensures Ends(m, CodeOf(ReadAll(was)), env, mem, trace) <==> Ends(m, CodeOf(ReadAll(out)), env, mem, trace)
    {
      IsProper(was, m, env);
      TheTextKeepsItsMeaning(was, after, s, m, env, mem, trace);
    }
  }
}
