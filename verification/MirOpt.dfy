/**
  What the function does when the lines that the scalar pass keeps are printed.
 */
module MirOpt {
  import opened Options
  import opened MirLines
  import opened MirSemantics
  import opened MirPropagation
  import opened MirPreservation
  import opened MirDce

  // ----- the printed function -----

  /** Only the lines that are alive are printed. */
  function Printed(f: Code): Code
    decreases |f|
  {
    if f == [] then []
    else if f[|f| - 1].Some? then Printed(f[..|f| - 1]) + [f[|f| - 1]] else Printed(f[..|f| - 1])
  }

  /** The place in the printed function of a place in the whole. */
  function Rank(f: Code, pc: nat): nat {
    if pc <= |f| then |Printed(f[..pc])| else |Printed(f)|
  }

  lemma {:induction false} PrintedSplit(f: Code, g: Code)
    ensures Printed(f + g) == Printed(f) + Printed(g)
    decreases |g|
  {
    if g == [] {
      assert f + g == f;
    } else {
      assert (f + g)[..|f + g| - 1] == f + g[..|g| - 1];
      PrintedSplit(f, g[..|g| - 1]);
    }
  }

  lemma PrintedAt(f: Code, pc: nat)
    requires pc < |f|
    ensures f[pc].Some? ==> Rank(f, pc) < |Printed(f)| && Printed(f)[Rank(f, pc)] == f[pc] && Rank(f, pc + 1) == Rank(f, pc) + 1
    ensures f[pc].None? ==> Rank(f, pc + 1) == Rank(f, pc)
  {
    assert f[..pc + 1][..pc] == f[..pc];
    assert f == f[..pc + 1] + f[pc + 1..];
    PrintedSplit(f[..pc + 1], f[pc + 1..]);
  }

  ghost predicate TargetPrinted(f: Code, lbl: string) {
    Target(Printed(f), lbl) == match Target(f, lbl) case None => None case Some(k) => Some(Rank(f, k))
  }

  lemma {:induction false} PrintedTarget(f: Code, lbl: string)
    ensures TargetPrinted(f, lbl)
    ensures Target(f, lbl).Some? ==> Target(f, lbl).value < |f|
    decreases |f|
  {
    hide Printed, TargetPrinted, Begins;
    if f == [] {
      NothingPrinted(lbl);
    } else {
      var rest := f[1..];
      PrintedTarget(rest, lbl);
      assert f == [f[0]] + rest;
      PrintedCons(f[0], rest, lbl);
    }
  }

  lemma NothingPrinted(lbl: string)
    ensures TargetPrinted([], lbl)
  {
  }

  lemma RankCons(l: Option<Line>, rest: Code, k: nat)
    requires k <= |rest|
    ensures Rank([l] + rest, k + 1) == Rank(rest, k) + (if l.Some? then 1 else 0)
    ensures Rank([l] + rest, 0) == 0
  {
    hide Printed;
    assert ([l] + rest)[..k + 1] == [l] + rest[..k];
    PrintedSplit([l], rest[..k]);
    OnePrinted(l);
    assert ([l] + rest)[..0] == [];
    NonePrinted();
  }

  lemma NonePrinted()
    ensures Printed([]) == []
  {
  }

  lemma PrintedCons(l: Option<Line>, rest: Code, lbl: string)
    requires TargetPrinted(rest, lbl) && (Target(rest, lbl).Some? ==> Target(rest, lbl).value < |rest|)
    ensures TargetPrinted([l] + rest, lbl)
  {
    hide Printed, Rank, Begins, Target;
    PrintedSplit([l], rest);
    OnePrinted(l);
    RankCons(l, rest, if Target(rest, lbl).Some? then Target(rest, lbl).value else 0);
    OnlyLinesBegin(l, lbl);
    TargetCons(l, rest, lbl);
    TargetCons(l, Printed(rest), lbl);
    assert [] + Printed(rest) == Printed(rest);
  }

  lemma TargetCons(l: Option<Line>, rest: Code, lbl: string)
    ensures Target([l] + rest, lbl)
            == if Begins(l, lbl) then Some(0)
               else match Target(rest, lbl) case None => None case Some(k) => Some(k + 1)
  {
    assert ([l] + rest)[1..] == rest;
  }

  lemma OnlyLinesBegin(l: Option<Line>, lbl: string)
    ensures Begins(l, lbl) ==> l.Some?
  {
  }

  lemma OnePrinted(l: Option<Line>)
    ensures Printed([l]) == if l.Some? then [l] else []
  {
    assert [l][..0] == [];
  }

  /** The same state at the corresponding place. */
  predicate Corresponds(f: Code, a: State, b: State) {
    if a.Running? then b == a.(pc := Rank(f, a.pc)) else b == a
  }

  lemma AssignMoves(m: Meaning, dest: string, rhs: seq<Piece>, a: State, r: nat)
    requires a.Running?
    ensures StepAssign(m, dest, rhs, a).Running?
    ensures StepAssign(m, dest, rhs, a.(pc := r)) == StepAssign(m, dest, rhs, a).(pc := r + 1)
  {
    hide ResolveAll, AliasValue, IsEffect;
  }

  lemma PlainMoves(m: Meaning, f: Code, ps: seq<Piece>, a: State, b: State)
    requires Corresponds(f, a, b) && a.Running? && Rank(f, a.pc + 1) == Rank(f, a.pc) + 1
    requires IsJump(ps) ==> TargetPrinted(f, ps[4].text)
    requires IsCondJump(ps) ==> TargetPrinted(f, ps[7].text) && TargetPrinted(f, ps[12].text)
    ensures Corresponds(f, StepPlain(m, f, ps, a), StepPlain(m, Printed(f), ps, b))
  {
    hide ResolveAll, IsReturn, Target, Printed, Rank, Value;
  }

  lemma PrintedStep(m: Meaning, f: Code, a: State, b: State)
    requires Corresponds(f, a, b) && a.Running? && a.pc < |f| && f[a.pc].Some?
    ensures Corresponds(f, Step(m, f, a), Step(m, Printed(f), b))
  {
    hide StepAssign, StepPlain, Target, Printed, Rank;
    PrintedAt(f, a.pc);
    var l := f[a.pc].value;
    if l.Plain? {
      if IsJump(l.body) {
        PrintedTarget(f, l.body[4].text);
      } else if IsCondJump(l.body) {
        PrintedTarget(f, l.body[7].text);
        PrintedTarget(f, l.body[12].text);
      }
      PlainMoves(m, f, l.body, a, b);
    } else {
      AssignMoves(m, l.dest, l.rhs, a, Rank(f, a.pc));
      AssignNext(m, l.dest, l.rhs, a);
    }
  }

  lemma AssignNext(m: Meaning, dest: string, rhs: seq<Piece>, a: State)
    requires a.Running?
    ensures StepAssign(m, dest, rhs, a).Running? && StepAssign(m, dest, rhs, a).pc == a.pc + 1
  {
    hide ResolveAll, AliasValue, IsEffect;
  }

  /** The printed function takes the same steps, but none where nothing is left; that
      happens at most once for each line between two steps. */
  lemma {:induction false} PrintedRuns(m: Meaning, f: Code, env: map<string, int>, mem: int, n: nat) returns (k: nat)
    ensures k <= n
    ensures Corresponds(f, Run(m, f, Start(env, mem), n), Run(m, Printed(f), Start(env, mem), k))
    ensures Inside(f, Run(m, f, Start(env, mem), n)) && n <= k * (|f| + 1) + Progress(Run(m, f, Start(env, mem), n))
    decreases n
  {
    hide Step;
    if n == 0 {
      assert f[..0] == [];
      return 0;
    }
    k := PrintedRuns(m, f, env, mem, n - 1);
    var a, b := Run(m, f, Start(env, mem), n - 1), Run(m, Printed(f), Start(env, mem), k);
    StaysInside(m, f, a);
    if a.Running? && a.pc < |f| && f[a.pc].None? {
      NothingThere(m, f, a);
      PrintedAt(f, a.pc);
    } else {
      StepBoth(m, f, a, b);
      OneMore(k, |f|);
      k := k + 1;
    }
  }

  function Progress(a: State): nat {
    if a.Running? then a.pc else 0
  }

  predicate Inside(f: Code, a: State) {
    a.Running? ==> a.pc <= |f|
  }

  lemma OneMore(k: nat, n: nat)
    ensures (k + 1) * (n + 1) == k * (n + 1) + n + 1
  {
  }

  lemma StaysInside(m: Meaning, f: Code, a: State)
    requires Inside(f, a)
    ensures Inside(f, Step(m, f, a))
  {
    hide ResolveAll, AliasValue, IsEffect, IsReturn, Value;
    if a.Running? && a.pc < |f| && f[a.pc].Some? && f[a.pc].value.Plain? {
      var ps := f[a.pc].value.body;
      if IsJump(ps) {
        PrintedTarget(f, ps[4].text);
      } else if IsCondJump(ps) {
        PrintedTarget(f, ps[7].text);
        PrintedTarget(f, ps[12].text);
      }
    }
  }

  lemma NothingThere(m: Meaning, f: Code, a: State)
    requires a.Running? && a.pc < |f| && f[a.pc].None?
    ensures Step(m, f, a) == a.(pc := a.pc + 1)
  {
  }

  lemma StepBoth(m: Meaning, f: Code, a: State, b: State)
    requires Corresponds(f, a, b) && !(a.Running? && a.pc < |f| && f[a.pc].None?)
    ensures Corresponds(f, Step(m, f, a), Step(m, Printed(f), b))
  {
    hide StepAssign, StepPlain;
    if a.Running? && a.pc < |f| {
      PrintedStep(m, f, a, b);
    } else if a.Running? {
      assert f[..|f|] == f;
    }
  }

  // ----- the main results -----

  /** The checkable condition: no dropped assignment is an indirect call. */
  predicate NoCallLost(lines: seq<Line>, s: set<nat>) {
    forall i :: 0 <= i < |lines| && i !in s && lines[i].Assign? ==> !IsEffect(lines[i].rhs)
  }

  /** The whole pass, printing included, preserves meaning: every run of the function is a
      run of the printed result with the same effects in the same order, the same memory,
      and the same end. */
  lemma PassPreservesMeaning(lines: seq<Line>, s: set<nat>, m: Meaning, env: map<string, int>, mem: int, n: nat)
    returns (k: nat)
    requires Strict(lines) && SimpleCopies(lines) && Sensible(m) && EnvOk(env)
    requires Greatest(Rewritten(lines), All(Rewritten(lines)), s) && NoCallLost(Rewritten(lines), s)
    ensures k <= n <= k * (|lines| + 1) + |lines|
    ensures var a := Run(m, CodeOf(lines), Start(env, mem), n);
            var b := Run(m, Printed(Kept(Rewritten(lines), s)), Start(env, mem), k);
            && a.trace == b.trace && a.Running? == b.Running?
            && (a.Running? ==> a.mem == b.mem && b.pc == Rank(Kept(Rewritten(lines), s), a.pc))
  {
    hide Strict, SimpleCopies, Sensible, EnvOk, Greatest, Run, Rewritten, Rank;
    PropagationPreservesRuns(lines, m, env, mem, n);
    var code := Rewritten(lines);
    forall j: nat | j < n ensures !LostAt(code, s, m, Start(env, mem), j) {
    }
    RunsSame(code, s, m, Start(env, mem), n);
    k := PrintedRuns(m, Kept(code, s), env, mem, n);
    assert |Kept(code, s)| == |lines| by { SameLength(lines); }
  }

  lemma SameLength(lines: seq<Line>)
    ensures |Rewritten(lines)| == |lines|
  {
  }

  /** An indirect call whose result is not used: the pass drops it, and with it its effect. */
  function CallForEffect(): seq<Line> {
    [Assign("%r", [Word("call_indirect"), Gap, Word("%f"), Other('('), Other(')')]), Plain([Word("ret"), Gap, Word("void")])]
  }

  lemma IndirectCallsAreDropped(m: Meaning, env: map<string, int>, mem: int)
    ensures Rewritten(CallForEffect()) == CallForEffect()
    ensures Greatest(CallForEffect(), All(CallForEffect()), {1})
    ensures |Run(m, CodeOf(CallForEffect()), Start(env, mem), 2).trace| == 2
    ensures |Run(m, Kept(CallForEffect(), {1}), Start(env, mem), 2).trace| == 1
  {
    var lines := CallForEffect();
    assert lines[..1][..0] == [] && lines[..2] == lines && lines[..1] == [lines[0]];
    NothingPropagated();
    PropagateNext(lines, 0);
    PropagateNext(lines, 1);
    IndirectGreatest();
    IndirectRuns(m, env, mem);
  }

  lemma IndirectGreatest()
    ensures Greatest(CallForEffect(), All(CallForEffect()), {1})
  {
    var lines := CallForEffect();
    assert !Contains(Uses(lines[1]), lines[0].dest);
    forall t ensures !UsedBy(lines, t, 0) {
    }
  }

  lemma IndirectRuns(m: Meaning, env: map<string, int>, mem: int)
    ensures |Run(m, CodeOf(CallForEffect()), Start(env, mem), 2).trace| == 2
    ensures |Run(m, Kept(CallForEffect(), {1}), Start(env, mem), 2).trace| == 1
  {
    var lines := CallForEffect();
    var f, g := CodeOf(lines), Kept(lines, {1});
    var a := Step(m, f, Start(env, mem));
    assert Run(m, f, Start(env, mem), 1) == a && Run(m, f, Start(env, mem), 2) == Step(m, f, a);
    var b := Step(m, g, Start(env, mem));
    assert Run(m, g, Start(env, mem), 1) == b && Run(m, g, Start(env, mem), 2) == Step(m, g, b);
  }
}
