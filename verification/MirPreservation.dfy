/**
  The rewritten function runs step for step like the function it came from.
 */
module MirPreservation {
  import opened Options
  import opened MirLines
  import opened MirSemantics
  import opened MirDominance
  import opened MirPropagation

  function Before(lines: seq<Line>, u: nat): seq<Alias>
    requires u <= |lines|
  {
    Propagate(lines[..u]).aliases
  }

  /** Where an alias comes from. */
  ghost predicate FactAt(lines: seq<Line>, a: Alias, d: nat) {
    && d < |lines| && lines[d].Assign? && lines[d].dest == a.name && AliasOf(lines[d]).Some?
    && ValueName(a.name) && !Reserved(a.value) && Available(lines, a.value, d)
    && AliasOf(Rewrite(lines[d], Before(lines, d))) == Some(a.value)
  }

  ghost predicate HasFact(lines: seq<Line>, a: Alias) {
    exists d :: FactAt(lines, a, d)
  }

  ghost predicate Facts(lines: seq<Line>, aliases: seq<Alias>) {
    forall k :: 0 <= k < |aliases| ==> HasFact(lines, aliases[k])
  }

  ghost predicate Avail(lines: seq<Line>, ps: seq<Piece>, u: nat) {
    forall w :: Contains(ps, w) ==> Available(lines, w, u)
  }

  lemma {:induction false} OutLine(lines: seq<Line>, u: nat, n: nat)
    requires u < n <= |lines|
    ensures Propagate(lines[..n]).lines[u] == Fold(Rewrite(lines[u], Before(lines, u)))
    ensures Before(lines, u + 1) == Collect(Rewrite(lines[u], Before(lines, u)), Before(lines, u))
    ensures Before(lines, u + 1) <= Before(lines, n)
    decreases n
  {
    hide Rewrite, Fold;
    assert lines[..n][..n - 1] == lines[..n - 1];
    assert lines[..u + 1][..u] == lines[..u];
    if u < n - 1 {
      OutLine(lines, u, n - 1);
    }
  }

  // ----- where aliases come from -----

  lemma ValueAvailable(lines: seq<Line>, a: Alias, d: nat, u: nat)
    requires FactAt(lines, a, d) && Available(lines, a.name, u)
    ensures Available(lines, a.value, u) && Dominates(CodeOf(lines), d, u)
  {
    var f := CodeOf(lines);
    assert Dominates(f, d, u);
    forall e | 0 <= e < |lines| && lines[e].Assign? && lines[e].dest == a.value ensures Dominates(f, e, u) {
      Transitive(f, e, d, u);
    }
  }

  lemma ReplaceAvail(lines: seq<Line>, ps: seq<Piece>, a: Alias, d: nat, u: nat)
    requires FactAt(lines, a, d) && Avail(lines, ps, u)
    ensures Avail(lines, Replace(ps, a), u)
  {
    hide FactAt, Available;
    var qs := Replace(ps, a);
    forall w | Contains(qs, w) ensures Available(lines, w, u) {
      var i :| 0 <= i < |qs| && qs[i] == Word(w);
      assert ps[i] in ps;
      if ps[i] == Word(a.name) {
        assert Contains(ps, a.name);
        ValueAvailable(lines, a, d, u);
      } else {
        assert Contains(ps, w);
      }
    }
  }

  lemma {:induction false} ReplaceAllAvail(lines: seq<Line>, ps: seq<Piece>, aliases: seq<Alias>, u: nat)
    requires Facts(lines, aliases) && Avail(lines, ps, u)
    ensures Avail(lines, ReplaceAll(ps, aliases), u)
    decreases |aliases|
  {
    hide FactAt, Avail;
    if aliases != [] {
      var last := |aliases| - 1;
      FactsPrefix(lines, aliases, last);
      ReplaceAllAvail(lines, ps, aliases[..last], u);
      assert HasFact(lines, aliases[last]);
      var d :| FactAt(lines, aliases[last], d);
      ReplaceAvail(lines, ReplaceAll(ps, aliases[..last]), aliases[last], d, u);
    }
  }

  lemma FactsPrefix(lines: seq<Line>, aliases: seq<Alias>, n: nat)
    requires Facts(lines, aliases) && n <= |aliases|
    ensures Facts(lines, aliases[..n])
  {
    hide HasFact;
  }

  lemma FactsAreNames(lines: seq<Line>, aliases: seq<Alias>)
    requires Facts(lines, aliases)
    ensures forall k :: 0 <= k < |aliases| ==> ValueName(aliases[k].name) && !Reserved(aliases[k].value)
  {
    forall k | 0 <= k < |aliases| ensures ValueName(aliases[k].name) && !Reserved(aliases[k].value) {
      assert HasFact(lines, aliases[k]);
      var d :| FactAt(lines, aliases[k], d);
    }
  }

  lemma FactsMore(lines: seq<Line>, aliases: seq<Alias>, a: Alias, d: nat)
    requires Facts(lines, aliases) && FactAt(lines, a, d)
    ensures Facts(lines, aliases + [a])
  {
    assert HasFact(lines, a);
  }

  lemma {:induction false} AllFacts(lines: seq<Line>, u: nat)
    requires Strict(lines) && SimpleCopies(lines) && u <= |lines|
    ensures Facts(lines, Before(lines, u))
    decreases u
  {
    if u > 0 {
      hide Strict, SimpleCopies, FactAt, Facts, Before, Rewrite, AliasOf;
      AllFacts(lines, u - 1);
      OutLine(lines, u - 1, u);
      var aliases := Before(lines, u - 1);
      var l := Rewrite(lines[u - 1], aliases);
      if AliasOf(l).Some? {
        NewFact(lines, u - 1, aliases);
        FactsMore(lines, aliases, Alias(l.dest, AliasOf(l).value), u - 1);
      }
    }
  }

  lemma NewFact(lines: seq<Line>, u: nat, aliases: seq<Alias>)
    requires Strict(lines) && SimpleCopies(lines) && u < |lines| && Facts(lines, aliases)
    requires aliases == Before(lines, u) && AliasOf(Rewrite(lines[u], aliases)).Some?
    ensures FactAt(lines, Alias(Rewrite(lines[u], aliases).dest, AliasOf(Rewrite(lines[u], aliases)).value), u)
  {
    hide Available, AliasValue;
    FactsAreNames(lines, aliases);
    var rhs := lines[u].rhs;
    var rhs' := ReplaceAll(rhs, aliases);
    ReplaceAllShape(rhs, aliases);
    AliasShape(rhs, rhs');
    assert Avail(lines, rhs, u);
    ReplaceAllAvail(lines, rhs, aliases, u);
    var v := AliasValue(rhs').value;
    assert rhs'[|rhs'| - 1] == Word(v);
    assert Contains(rhs', v);
    assert AliasOf(lines[u]).Some? && !Reserved(AliasOf(lines[u]).value);
    assert |rhs| >= 5 && SameShape(rhs, rhs');
    assert rhs[|rhs| - 1].Word?;
    assert !Reserved(v);
  }

  // ----- the meaning of aliases while the function runs -----

  /** Where the definition of an alias has been passed, the alias and its value agree. */
  ghost predicate Synced(lines: seq<Line>, aliases: seq<Alias>, m: Meaning, env: map<string, int>, pc: nat) {
    forall k, d :: 0 <= k < |aliases| && FactAt(lines, aliases[k], d) && Dominates(CodeOf(lines), d, pc) ==>
      SyncedOne(aliases[k], m, env)
  }

  predicate SyncedOne(a: Alias, m: Meaning, env: map<string, int>) {
    a.name in env && env[a.name] == Value(m, env, a.value)
  }

  lemma ReplaceSame(lines: seq<Line>, ps: seq<Piece>, a: Alias, d: nat, m: Meaning, env: map<string, int>, u: nat)
    requires FactAt(lines, a, d) && Avail(lines, ps, u)
    requires Dominates(CodeOf(lines), d, u) ==> SyncedOne(a, m, env)
    ensures ResolveAll(m, env, Replace(ps, a)) == ResolveAll(m, env, ps)
  {
    hide FactAt, Available, Dominates;
    if Contains(ps, a.name) {
      ValueAvailable(lines, a, d, u);
    } else {
      assert Replace(ps, a) == ps;
    }
  }

  lemma {:induction false} ReplaceAllSame(lines: seq<Line>, ps: seq<Piece>, aliases: seq<Alias>, m: Meaning, env: map<string, int>, u: nat)
    requires Facts(lines, aliases) && Avail(lines, ps, u) && Synced(lines, aliases, m, env, u)
    ensures ResolveAll(m, env, ReplaceAll(ps, aliases)) == ResolveAll(m, env, ps)
    decreases |aliases|
  {
    hide FactAt, Avail, ResolveAll, SyncedOne, Dominates;
    if aliases != [] {
      var last := |aliases| - 1;
      FactsPrefix(lines, aliases, last);
      SyncedPrefix(lines, aliases, last, m, env, u);
      ReplaceAllSame(lines, ps, aliases[..last], m, env, u);
      ReplaceAllAvail(lines, ps, aliases[..last], u);
      assert HasFact(lines, aliases[last]);
      var d :| FactAt(lines, aliases[last], d);
      ReplaceSame(lines, ReplaceAll(ps, aliases[..last]), aliases[last], d, m, env, u);
    }
  }

  lemma SyncedPrefix(lines: seq<Line>, aliases: seq<Alias>, n: nat, m: Meaning, env: map<string, int>, u: nat)
    requires Synced(lines, aliases, m, env, u) && n <= |aliases|
    ensures Synced(lines, aliases[..n], m, env, u)
  {
    hide FactAt, SyncedOne, Dominates;
  }

  // ----- control flow is the same -----

  function Rewritten(lines: seq<Line>): seq<Line> {
    Propagate(lines).lines
  }

  lemma LineAt(lines: seq<Line>, u: nat)
    requires u < |lines|
    ensures Rewritten(lines)[u] == Fold(Rewrite(lines[u], Before(lines, u)))
  {
    assert lines[..|lines|] == lines;
    OutLine(lines, u, |lines|);
  }

  /** A word that is no alias stays. */
  lemma {:induction false} KeptWord(ps: seq<Piece>, aliases: seq<Alias>, i: nat)
    requires i < |ps| && ps[i].Word? && forall k :: 0 <= k < |aliases| ==> aliases[k].name != ps[i].text
    ensures ReplaceAll(ps, aliases)[i] == ps[i]
    decreases |aliases|
  {
    if aliases != [] {
      KeptWord(ps, aliases[..|aliases| - 1], i);
    }
  }

  lemma LabelKept(lines: seq<Line>, u: nat, aliases: seq<Alias>, i: nat)
    requires Strict(lines) && Facts(lines, aliases) && u < |lines| && i < |Uses(lines[u])| && Uses(lines[u])[i].Word?
    requires IsLabelOf(lines[u], Uses(lines[u])[i].text)
    ensures ReplaceAll(Uses(lines[u]), aliases)[i] == Uses(lines[u])[i]
  {
    var w := Uses(lines[u])[i].text;
    forall k | 0 <= k < |aliases| ensures aliases[k].name != w {
      assert HasFact(lines, aliases[k]);
      var d :| FactAt(lines, aliases[k], d);
    }
    KeptWord(Uses(lines[u]), aliases, i);
  }

  lemma HeaderStays(lines: seq<Line>, u: nat, lbl: string)
    requires Strict(lines) && SimpleCopies(lines) && u < |lines|
    ensures Rewritten(lines)[u] == Plain(Header(lbl)) <==> lines[u] == Plain(Header(lbl))
  {
    hide Strict, Propagate, Facts;
    var aliases := Before(lines, u);
    AllFacts(lines, u);
    LineAt(lines, u);
    FactsAreNames(lines, aliases);
    if lines[u].Plain? {
      var ps := lines[u].body;
      var qs := ReplaceAll(ps, aliases);
      ReplaceAllShape(ps, aliases);
      HeaderShape(ps, qs);
      if IsHeader(ps) {
        LabelKept(lines, u, aliases, 2);
        assert !IsCondJump(qs);
      }
    }
  }

  lemma {:induction false} TargetsAgree(f: Code, g: Code, lbl: string)
    requires |f| == |g| && forall u :: 0 <= u < |f| ==> (Begins(f[u], lbl) <==> Begins(g[u], lbl))
    ensures Target(f, lbl) == Target(g, lbl)
    decreases |f|
  {
    hide Begins;
    if f != [] { TargetsAgree(f[1..], g[1..], lbl); }
  }

  lemma TargetsStay(lines: seq<Line>, lbl: string)
    requires Strict(lines) && SimpleCopies(lines)
    ensures Target(CodeOf(Rewritten(lines)), lbl) == Target(CodeOf(lines), lbl)
  {
    hide Strict, Propagate, Target;
    forall u | 0 <= u < |lines| ensures Begins(CodeOf(lines)[u], lbl) <==> Begins(CodeOf(Rewritten(lines))[u], lbl) {
      HeaderStays(lines, u, lbl);
    }
    TargetsAgree(CodeOf(lines), CodeOf(Rewritten(lines)), lbl);
  }

  // ----- one step -----

  ghost predicate EnvOk(env: map<string, int>) {
    forall k :: k in env ==> ValueName(k)
  }

  ghost predicate Reached(f: Code, u: nat) {
    exists p :: PathTo(f, p, u)
  }

  /** The line at hand can be reached, and every alias whose definition has been passed
      on the way agrees with its value. */
  ghost predicate Good(lines: seq<Line>, m: Meaning, st: State) {
    st.Running? ==>
      && EnvOk(st.env)
      && (st.pc < |lines| ==>
            Reached(CodeOf(lines), st.pc) && Synced(lines, Before(lines, |lines|), m, st.env, st.pc))
  }

  /** The words of the line at hand mean the same before and after the rewriting. */
  lemma SameItems(lines: seq<Line>, m: Meaning, env: map<string, int>, u: nat)
    requires Strict(lines) && SimpleCopies(lines) && u < |lines| && Synced(lines, Before(lines, |lines|), m, env, u)
    ensures var ps := Uses(lines[u]);
            var qs := ReplaceAll(ps, Before(lines, u));
            SameShape(ps, qs) && ResolveAll(m, env, qs) == ResolveAll(m, env, ps)
    ensures Facts(lines, Before(lines, u))
  {
    hide FactAt, Synced, ResolveAll, Available, Reserved, Propagate;
    var aliases := Before(lines, u);
    AllFacts(lines, u);
    OutLinePrefix(lines, u);
    SyncedPrefix(lines, Before(lines, |lines|), |aliases|, m, env, u);
    assert Before(lines, |lines|)[..|aliases|] == aliases;
    UsesAvailable(lines, u);
    ReplaceAllSame(lines, Uses(lines[u]), aliases, m, env, u);
    ShapeOfLine(lines, Uses(lines[u]), aliases);
  }

  lemma UsesAvailable(lines: seq<Line>, u: nat)
    requires Strict(lines) && u < |lines|
    ensures Avail(lines, Uses(lines[u]), u)
  {
  }

  lemma ShapeOfLine(lines: seq<Line>, ps: seq<Piece>, aliases: seq<Alias>)
    requires Facts(lines, aliases)
    ensures SameShape(ps, ReplaceAll(ps, aliases))
  {
    FactsAreNames(lines, aliases);
    ReplaceAllShape(ps, aliases);
  }

  lemma OutLinePrefix(lines: seq<Line>, u: nat)
    requires u < |lines|
    ensures Before(lines, u) <= Before(lines, |lines|)
  {
    OutLine(lines, u, |lines|);
  }

  lemma SameWord(m: Meaning, env: map<string, int>, ps: seq<Piece>, qs: seq<Piece>, i: nat)
    requires SameShape(ps, qs) && ResolveAll(m, env, qs) == ResolveAll(m, env, ps) && i < |ps| && ps[i].Word?
    ensures qs[i].Word? && Value(m, env, qs[i].text) == Value(m, env, ps[i].text)
  {
    hide Reserved;
    assert ResolveAll(m, env, qs)[i] == Val(Value(m, env, qs[i].text));
    assert ResolveAll(m, env, ps)[i] == Val(Value(m, env, ps[i].text));
  }

  lemma AssignStepAgrees(lines: seq<Line>, m: Meaning, st: State)
    requires Strict(lines) && SimpleCopies(lines) && Good(lines, m, st)
    requires st.Running? && st.pc < |lines| && lines[st.pc].Assign?
    ensures Step(m, CodeOf(Rewritten(lines)), st) == Step(m, CodeOf(lines), st)
  {
    hide Strict, SimpleCopies, Synced, Facts, Propagate, ResolveAll, AliasValue, IsEffect, SameShape;
    var u := st.pc;
    SameItems(lines, m, st.env, u);
    LineAt(lines, u);
    var ps := lines[u].rhs;
    var qs := ReplaceAll(ps, Before(lines, u));
    AliasShape(ps, qs);
    EffectShape(ps, qs);
    if AliasValue(ps).Some? { SameWord(m, st.env, ps, qs, |ps| - 1); }
  }

  lemma PlainStepAgrees(lines: seq<Line>, m: Meaning, st: State)
    requires Strict(lines) && SimpleCopies(lines) && Sensible(m) && Good(lines, m, st)
    requires st.Running? && st.pc < |lines| && lines[st.pc].Plain?
    ensures Step(m, CodeOf(Rewritten(lines)), st) == Step(m, CodeOf(lines), st)
  {
    hide Strict, SimpleCopies, Synced, Facts, Propagate, ResolveAll, SameShape, Target, IsReturn;
    var u := st.pc;
    SameItems(lines, m, st.env, u);
    LineAt(lines, u);
    var ps := lines[u].body;
    var aliases := Before(lines, u);
    var qs := ReplaceAll(ps, aliases);
    JumpShape(ps, qs);
    CondJumpShape(ps, qs);
    EffectShape(ps, qs);
    if IsJump(ps) {
      LabelKept(lines, u, aliases, 4);
      TargetsStay(lines, ps[4].text);
    } else if IsCondJump(ps) {
      LabelKept(lines, u, aliases, 7);
      LabelKept(lines, u, aliases, 12);
      TargetsStay(lines, ps[7].text);
      TargetsStay(lines, ps[12].text);
      SameWord(m, st.env, ps, qs, 2);
      FoldMeans(m, st.env, qs[2].text);
    }
  }

  /** A literal condition is never a name in scope, so it means its truth value. */
  lemma FoldMeans(m: Meaning, env: map<string, int>, cond: string)
    requires Sensible(m) && EnvOk(env)
    ensures Truthy(cond) ==> m.truth(Value(m, env, cond))
    ensures Falsy(cond) ==> !m.truth(Value(m, env, cond))
  {
    assert !ValueName("1") && !ValueName("0") && !ValueName("true") && !ValueName("false");
  }

  // ----- the invariant -----

  lemma StepFollowsEdge(m: Meaning, f: Code, st: State)
    requires st.Running? && st.pc < |f| && Step(m, f, st).Running? && Step(m, f, st).pc < |f|
    ensures Edge(f, st.pc, Step(m, f, st).pc)
  {
    hide ResolveAll, Target;
  }

  lemma NotBeforeItself(f: Code, u: nat)
    requires Reached(f, u)
    ensures !Dominates(f, u, u)
  {
    var p :| PathTo(f, p, u);
    var k := FirstArrival(f, p, u);
    PrefixPath(f, p, k);
    assert p[..k + 1][..k] == p[..k];
  }

  /** An alias that is defined by the line at hand. */
  lemma DefinedNow(lines: seq<Line>, m: Meaning, st: State, a: Alias)
    requires Strict(lines) && SimpleCopies(lines) && Good(lines, m, st) && st.Running? && st.pc < |lines|
    requires FactAt(lines, a, st.pc)
    ensures Step(m, CodeOf(lines), st).Running? && SyncedOne(a, m, Step(m, CodeOf(lines), st).env)
  {
    hide Strict, SimpleCopies, Synced, Facts, Propagate, ResolveAll, AliasValue, IsEffect, SameShape;
    var u := st.pc;
    SameItems(lines, m, st.env, u);
    var ps := lines[u].rhs;
    var qs := ReplaceAll(ps, Before(lines, u));
    AliasShape(ps, qs);
    SameWord(m, st.env, ps, qs, |ps| - 1);
    NotBeforeItself(CodeOf(lines), u);
    assert a.value != a.name;
  }

  /** An alias that was defined before and that the line at hand leaves alone. */
  lemma DefinedBefore(lines: seq<Line>, m: Meaning, st: State, a: Alias, d: nat)
    requires Strict(lines) && Good(lines, m, st) && st.Running? && st.pc < |lines|
    requires var st' := Step(m, CodeOf(lines), st);
             st'.Running? && st'.pc < |lines| && Dominates(CodeOf(lines), d, st'.pc)
    requires FactAt(lines, a, d) && d != st.pc && SyncedOne(a, m, st.env)
    ensures SyncedOne(a, m, Step(m, CodeOf(lines), st).env)
  {
    hide ResolveAll, Synced, AliasValue, IsEffect, FactAt, Dominates, Edge, Target, StepPlain, Reached;
    var f, u := CodeOf(lines), st.pc;
    StepFollowsEdge(m, f, st);
    if lines[u].Assign? {
      NotRedefined(lines, a, d, u, Step(m, f, st).pc);
    } else {
      PlainKeepsEnv(m, f, lines[u].body, st);
    }
  }

  lemma PlainKeepsEnv(m: Meaning, f: Code, ps: seq<Piece>, st: State)
    requires st.Running? && StepPlain(m, f, ps, st).Running?
    ensures StepPlain(m, f, ps, st).env == st.env
  {
    hide ResolveAll, Target;
  }

  /** A line that leads to where an alias is available defines neither it nor its value. */
  lemma NotRedefined(lines: seq<Line>, a: Alias, d: nat, u: nat, v: nat)
    requires Strict(lines) && u < |lines| && lines[u].Assign? && Reached(CodeOf(lines), u) && Edge(CodeOf(lines), u, v)
    requires FactAt(lines, a, d) && d != u && Dominates(CodeOf(lines), d, v)
    ensures lines[u].dest != a.name && lines[u].dest != a.value
  {
    hide AliasValue, Reserved, Edge;
    var f := CodeOf(lines);
    if lines[u].dest == a.value {
      assert Dominates(f, u, d);
      var p :| PathTo(f, p, u);
      RedefinitionEndsCopies(f, p, u, d, v);
      assert false;
    }
  }

  lemma StepKeepsSynced(lines: seq<Line>, m: Meaning, st: State)
    requires Strict(lines) && SimpleCopies(lines) && Good(lines, m, st) && st.Running? && st.pc < |lines|
    requires var st' := Step(m, CodeOf(lines), st);
             st'.Running? && st'.pc < |lines|
    ensures Synced(lines, Before(lines, |lines|), m, Step(m, CodeOf(lines), st).env, Step(m, CodeOf(lines), st).pc)
  {
    hide Strict, SimpleCopies, Good, FactAt, SyncedOne, Dominates, Step, Edge;
    var f := CodeOf(lines);
    var st' := Step(m, f, st);
    var aliases := Before(lines, |lines|);
    StepFollowsEdge(m, f, st);
    assert Synced(lines, aliases, m, st.env, st.pc) by { GoodIsSynced(lines, m, st); }
    forall k, d | 0 <= k < |aliases| && FactAt(lines, aliases[k], d) && Dominates(f, d, st'.pc)
      ensures SyncedOne(aliases[k], m, st'.env)
    {
      if d == st.pc {
        DefinedNow(lines, m, st, aliases[k]);
      } else {
        DominatesNext(f, d, st.pc, st'.pc);
        DefinedBefore(lines, m, st, aliases[k], d);
      }
    }
  }

  lemma GoodIsSynced(lines: seq<Line>, m: Meaning, st: State)
    requires Good(lines, m, st) && st.Running? && st.pc < |lines|
    ensures Synced(lines, Before(lines, |lines|), m, st.env, st.pc)
  {
  }

  lemma StepKeepsGood(lines: seq<Line>, m: Meaning, st: State)
    requires Strict(lines) && SimpleCopies(lines) && Good(lines, m, st)
    ensures Good(lines, m, Step(m, CodeOf(lines), st))
  {
    hide Synced, ResolveAll, AliasValue, IsEffect, Available, SimpleCopies;
    var f := CodeOf(lines);
    if st.Running? && st.pc < |lines| {
      var st' := Step(m, f, st);
      if st'.Running? && st'.pc < |lines| {
        StepKeepsSynced(lines, m, st);
        StepFollowsEdge(m, f, st);
        var p :| PathTo(f, p, st.pc);
        ExtendPath(f, p, st.pc, st'.pc);
      }
    }
  }

  // ----- whole runs -----

  lemma {:induction false} RunsAgree(lines: seq<Line>, m: Meaning, st: State, n: nat)
    requires Strict(lines) && SimpleCopies(lines) && Sensible(m) && Good(lines, m, st)
    ensures Good(lines, m, Run(m, CodeOf(lines), st, n))
    ensures Run(m, CodeOf(Rewritten(lines)), st, n) == Run(m, CodeOf(lines), st, n)
    decreases n
  {
    if n > 0 {
      RunsAgree(lines, m, st, n - 1);
      var st1 := Run(m, CodeOf(lines), st, n - 1);
      StepKeepsGood(lines, m, st1);
      if st1.Running? && st1.pc < |lines| {
        if lines[st1.pc].Assign? {
          AssignStepAgrees(lines, m, st1);
        } else {
          PlainStepAgrees(lines, m, st1);
        }
      }
    }
  }

  /** Propagation and folding preserve every run: after any number of steps, from any
      arguments and memory and for any meaning of the operations, the rewritten function
      is in the same place, with the same values, memory and effects. */
  lemma PropagationPreservesRuns(lines: seq<Line>, m: Meaning, env: map<string, int>, mem: int, n: nat)
    requires Strict(lines) && SimpleCopies(lines) && Sensible(m) && EnvOk(env)
    ensures Run(m, CodeOf(Rewritten(lines)), Start(env, mem), n) == Run(m, CodeOf(lines), Start(env, mem), n)
  {
    hide Strict, SimpleCopies, Sensible, Run, Rewritten;
    AtStart(lines, m, env, mem);
    RunsAgree(lines, m, Start(env, mem), n);
  }

  lemma AtStart(lines: seq<Line>, m: Meaning, env: map<string, int>, mem: int)
    requires EnvOk(env)
    ensures Good(lines, m, Start(env, mem))
  {
    var f := CodeOf(lines);
    if |lines| > 0 {
      assert PathTo(f, [0], 0);
      forall d ensures !Dominates(f, d, 0) {
        assert d !in [0][..0];
      }
    }
  }

  // ----- the values stored are resolved -----

  /** Where copies are in reachable code, the aliases never mention their own name or an
      older one, and so no rewritten line does. */
  lemma PropagationResolves(lines: seq<Line>, u: nat)
    requires Strict(lines) && SimpleCopies(lines) && u <= |lines|
    requires forall i :: 0 <= i < |lines| && AliasOf(lines[i]).Some? ==> Reached(CodeOf(lines), i)
    ensures Resolved(Before(lines, u))
    ensures u < |lines| ==> Free(Uses(Rewrite(lines[u], Before(lines, u))), Before(lines, u))
    decreases u
  {
    hide Strict, SimpleCopies, FactAt, AliasValue, Resolved, Free, Rewrite, Reached;
    if u == 0 {
      NoneResolved(lines);
    } else {
      PropagationResolves(lines, u - 1);
      OutLine(lines, u - 1, u);
      var aliases := Before(lines, u - 1);
      var l := Rewrite(lines[u - 1], aliases);
      if AliasOf(l).Some? { NewAliasIsResolved(lines, u - 1); }
    }
    if u < |lines| { RewrittenIsFree(lines[u], Before(lines, u)); }
  }

  lemma NoneResolved(lines: seq<Line>)
    ensures Resolved(Before(lines, 0))
  {
  }

  lemma RewrittenIsFree(l: Line, aliases: seq<Alias>)
    requires Resolved(aliases)
    ensures Free(Uses(Rewrite(l, aliases)), aliases)
  {
    hide Free, Resolved;
    ReplacedIsFree(Uses(l), aliases);
  }

  lemma NewAliasIsResolved(lines: seq<Line>, u: nat)
    requires Strict(lines) && SimpleCopies(lines) && u < |lines|
    requires forall i :: 0 <= i < |lines| && AliasOf(lines[i]).Some? ==> Reached(CodeOf(lines), i)
    requires Resolved(Before(lines, u)) && AliasOf(Rewrite(lines[u], Before(lines, u))).Some?
    ensures var l := Rewrite(lines[u], Before(lines, u));
            Resolved(Before(lines, u) + [Alias(l.dest, AliasOf(l).value)])
  {
    hide Strict, SimpleCopies, FactAt, AliasValue, Propagate, Facts, Free;
    var aliases := Before(lines, u);
    var l := Rewrite(lines[u], aliases);
    var v := AliasOf(l).value;
    AllFacts(lines, u);
    NewFact(lines, u, aliases);
    CopyOf(lines, u, aliases);
    NotItself(lines, u, Alias(l.dest, v));
    ReplacedIsFree(lines[u].rhs, aliases);
    AliasIsUsed(l.rhs);
    FreeOf(l.rhs, aliases, v);
  }

  lemma CopyOf(lines: seq<Line>, u: nat, aliases: seq<Alias>)
    requires u < |lines| && Facts(lines, aliases) && AliasOf(Rewrite(lines[u], aliases)).Some?
    ensures AliasOf(lines[u]).Some?
  {
    hide AliasValue;
    ShapeOfLine(lines, lines[u].rhs, aliases);
    AliasShape(lines[u].rhs, ReplaceAll(lines[u].rhs, aliases));
  }

  lemma NotItself(lines: seq<Line>, u: nat, a: Alias)
    requires FactAt(lines, a, u) && Reached(CodeOf(lines), u)
    ensures a.value != a.name
  {
    hide Reached, AliasValue, Reserved;
    NotBeforeItself(CodeOf(lines), u);
  }

  lemma AliasIsUsed(rhs: seq<Piece>)
    requires AliasValue(rhs).Some?
    ensures Contains(rhs, AliasValue(rhs).value)
  {
    assert rhs[|rhs| - 1] == Word(AliasValue(rhs).value);
  }

  lemma FreeOf(ps: seq<Piece>, aliases: seq<Alias>, v: string)
    requires Free(ps, aliases) && Contains(ps, v)
    ensures forall i :: 0 <= i < |aliases| ==> aliases[i].name != v
  {
  }
}
