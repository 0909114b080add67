/**
  Dropping unused assignments: what the fixpoint is, and what it preserves.
 */
module MirDce {
  import opened Options
  import opened MirLines
  import opened MirSemantics

  predicate Removable(l: Line) {
    l.Assign? && !IsCall(l.rhs)
  }

  /** Some other line of the set mentions the name. */
  predicate UsedBy(lines: seq<Line>, s: set<nat>, i: nat)
    requires i < |lines| && lines[i].Assign?
  {
    exists j :: j in s && j < |lines| && j != i && Contains(Uses(lines[j]), lines[i].dest)
  }

  /** Every removable line of the set is used by another line of the set. */
  ghost predicate Closed(lines: seq<Line>, s: set<nat>) {
    forall i :: i in s && i < |lines| && Removable(lines[i]) ==> UsedBy(lines, s, i)
  }

  ghost predicate Greatest(lines: seq<Line>, start: set<nat>, s: set<nat>) {
    && s <= start && Closed(lines, s)
    && forall t :: t <= start && Closed(lines, t) ==> t <= s
  }

  /** So the order of the sweeps does not matter. */
  lemma GreatestIsUnique(lines: seq<Line>, start: set<nat>, s: set<nat>, t: set<nat>)
    requires Greatest(lines, start, s) && Greatest(lines, start, t)
    ensures s == t
  {
  }

  /** Running the elimination again changes nothing. */
  lemma EliminationIsIdempotent(lines: seq<Line>, start: set<nat>, s: set<nat>, t: set<nat>)
    requires Greatest(lines, start, s) && Greatest(lines, s, t)
    ensures t == s
  {
  }

  /** A line of the start set that is kept out is removable and used by no line kept. */
  lemma DroppedIsUnused(lines: seq<Line>, start: set<nat>, s: set<nat>, i: nat)
    requires Greatest(lines, start, s) && i in start && i < |lines| && i !in s
    ensures Removable(lines[i]) && !UsedBy(lines, s, i)
  {
    if !Removable(lines[i]) || UsedBy(lines, s, i) {
      var t := s + {i};
      assert i in t;
      forall k | k in t && k < |lines| && Removable(lines[k]) ensures UsedBy(lines, t, k) {
        if k in s {
          var j :| j in s && j < |lines| && j != k && Contains(Uses(lines[j]), lines[k].dest);
          assert j in t;
        } else {
          var j :| j in s && j < |lines| && j != i && Contains(Uses(lines[j]), lines[i].dest);
          assert j in t;
        }
      }
      assert Closed(lines, t);
      assert false;
    }
  }

  // ----- the code that is left -----

  function Kept(lines: seq<Line>, s: set<nat>): (r: Code)
    ensures |r| == |lines| && forall i :: 0 <= i < |lines| ==> r[i] == if i in s then Some(lines[i]) else None
  {
    seq(|lines|, i requires 0 <= i < |lines| => if i in s then Some(lines[i]) else None)
  }

  function All(lines: seq<Line>): (r: set<nat>)
    ensures forall i: nat :: i in r <==> i < |lines|
  {
    if lines == [] then {} else All(lines[..|lines| - 1]) + {|lines| - 1}
  }

  /** The names that only dropped lines define. */
  ghost predicate Dropped(lines: seq<Line>, s: set<nat>, w: string) {
    exists i :: 0 <= i < |lines| && i !in s && lines[i].Assign? && lines[i].dest == w
  }

  ghost predicate Agree(lines: seq<Line>, s: set<nat>, a: map<string, int>, b: map<string, int>) {
    forall w :: !Dropped(lines, s, w) ==> (w in a <==> w in b) && (w in a && w in b ==> a[w] == b[w])
  }

  /** The same place, memory and effects, and the same values but for dropped names. */
  ghost predicate Same(lines: seq<Line>, s: set<nat>, a: State, b: State) {
    match (a, b)
    case (Running(p, e, x, t), Running(q, d, y, u)) => p == q && x == y && t == u && Agree(lines, s, e, d)
    case (Halted(t), Halted(u)) => t == u
    case _ => false
  }

  /** The run is about to execute a dropped line that does more than give a value. */
  predicate LostEffect(lines: seq<Line>, s: set<nat>, st: State) {
    st.Running? && st.pc < |lines| && st.pc !in s && lines[st.pc].Assign? && IsEffect(lines[st.pc].rhs)
  }

  ghost predicate UsesKept(lines: seq<Line>, s: set<nat>) {
    forall j, w :: j in s && j < |lines| && Contains(Uses(lines[j]), w) ==> !Dropped(lines, s, w)
  }

  lemma KeptUsesKept(lines: seq<Line>, s: set<nat>)
    requires Greatest(lines, All(lines), s)
    ensures UsesKept(lines, s)
    ensures forall i :: 0 <= i < |lines| && i !in s ==> lines[i].Assign?
  {
    forall i | 0 <= i < |lines| && i !in s ensures lines[i].Assign? {
      DroppedIsUnused(lines, All(lines), s, i);
    }
    forall j, w | j in s && j < |lines| && Contains(Uses(lines[j]), w) ensures !Dropped(lines, s, w) {
      forall i | 0 <= i < |lines| && i !in s && lines[i].Assign? ensures lines[i].dest != w {
        DroppedIsUnused(lines, All(lines), s, i);
      }
    }
  }

  lemma SameItems(lines: seq<Line>, s: set<nat>, m: Meaning, a: map<string, int>, b: map<string, int>, ps: seq<Piece>)
    requires Agree(lines, s, a, b) && forall w :: Contains(ps, w) ==> !Dropped(lines, s, w)
    ensures ResolveAll(m, a, ps) == ResolveAll(m, b, ps)
    ensures forall i :: 0 <= i < |ps| && ps[i].Word? ==> Value(m, a, ps[i].text) == Value(m, b, ps[i].text)
  {
    hide Dropped;
    forall i | 0 <= i < |ps| && ps[i].Word? ensures Value(m, a, ps[i].text) == Value(m, b, ps[i].text) {
      assert Contains(ps, ps[i].text);
    }
  }

  lemma {:induction false} KeptTargets(f: Code, g: Code, lbl: string)
    requires |f| == |g| && forall i :: 0 <= i < |f| ==> g[i] == f[i] || (f[i].Some? && f[i].value.Assign? && g[i].None?)
    ensures Target(f, lbl) == Target(g, lbl)
    decreases |f|
  {
    if f != [] { KeptTargets(f[1..], g[1..], lbl); }
  }

  lemma AgreeUpdate(lines: seq<Line>, s: set<nat>, a: map<string, int>, b: map<string, int>, x: string, v: int)
    requires Agree(lines, s, a, b)
    ensures Agree(lines, s, a[x := v], b[x := v])
  {
    hide Dropped;
  }

  lemma AssignSame(lines: seq<Line>, s: set<nat>, m: Meaning, dest: string, rhs: seq<Piece>, a: State, b: State)
    requires a.Running? && Same(lines, s, a, b) && ResolveAll(m, a.env, rhs) == ResolveAll(m, b.env, rhs)
    requires AliasValue(rhs).Some? ==> Value(m, a.env, AliasValue(rhs).value) == Value(m, b.env, AliasValue(rhs).value)
    ensures Same(lines, s, StepAssign(m, dest, rhs, a), StepAssign(m, dest, rhs, b))
  {
    hide ResolveAll, AliasValue, IsEffect, Agree, Value;
    var items := ResolveAll(m, a.env, rhs);
    AgreeUpdate(lines, s, a.env, b.env, dest,
                if AliasValue(rhs).Some? then Value(m, a.env, AliasValue(rhs).value)
                else if IsEffect(rhs) then m.result(items, a.mem) else m.pure(dest, items, a.mem));
  }

  lemma KeptAssign(lines: seq<Line>, s: set<nat>, m: Meaning, a: State, b: State)
    requires Greatest(lines, All(lines), s) && Same(lines, s, a, b) && a.Running? && a.pc < |lines| && a.pc in s
    requires lines[a.pc].Assign?
    ensures Same(lines, s, Step(m, CodeOf(lines), a), Step(m, Kept(lines, s), b))
  {
    hide Greatest, ResolveAll, Dropped, AliasValue, UsesKept, StepAssign, StepPlain, Value, Agree;
    var rhs := lines[a.pc].rhs;
    KeptUses(lines, s, a.pc);
    SameItems(lines, s, m, a.env, b.env, rhs);
    if AliasValue(rhs).Some? { AliasIsLast(rhs); }
    AssignSame(lines, s, m, lines[a.pc].dest, rhs, a, b);
  }

  lemma PlainSame(lines: seq<Line>, s: set<nat>, m: Meaning, f: Code, g: Code, ps: seq<Piece>, a: State, b: State)
    requires a.Running? && Same(lines, s, a, b) && ResolveAll(m, a.env, ps) == ResolveAll(m, b.env, ps)
    requires IsJump(ps) ==> Target(f, ps[4].text) == Target(g, ps[4].text)
    requires IsCondJump(ps) ==>
               && Value(m, a.env, ps[2].text) == Value(m, b.env, ps[2].text)
               && Target(f, ps[7].text) == Target(g, ps[7].text) && Target(f, ps[12].text) == Target(g, ps[12].text)
    ensures Same(lines, s, StepPlain(m, f, ps, a), StepPlain(m, g, ps, b))
  {
    hide ResolveAll, Agree, Value, IsReturn, Target;
  }

  lemma KeptUses(lines: seq<Line>, s: set<nat>, u: nat)
    requires Greatest(lines, All(lines), s) && u < |lines| && u in s
    ensures forall w :: Contains(Uses(lines[u]), w) ==> !Dropped(lines, s, w)
  {
    hide Greatest, Dropped;
    KeptUsesKept(lines, s);
  }

  lemma PlainItems(lines: seq<Line>, s: set<nat>, m: Meaning, a: State, b: State)
    requires Greatest(lines, All(lines), s) && Same(lines, s, a, b) && a.Running? && a.pc < |lines| && a.pc in s
    requires lines[a.pc].Plain?
    ensures b.Running? && ResolveAll(m, a.env, lines[a.pc].body) == ResolveAll(m, b.env, lines[a.pc].body)
    ensures IsCondJump(lines[a.pc].body) ==>
              Value(m, a.env, lines[a.pc].body[2].text) == Value(m, b.env, lines[a.pc].body[2].text)
  {
    hide Greatest, ResolveAll, Dropped, Value, Agree;
    KeptUses(lines, s, a.pc);
    SameItems(lines, s, m, a.env, b.env, lines[a.pc].body);
  }

  lemma StepIsPlain(m: Meaning, f: Code, st: State)
    requires st.Running? && st.pc < |f| && f[st.pc].Some? && f[st.pc].value.Plain?
    ensures Step(m, f, st) == StepPlain(m, f, f[st.pc].value.body, st)
  {
    hide StepPlain, StepAssign;
  }

  lemma KeptPlain(lines: seq<Line>, s: set<nat>, m: Meaning, a: State, b: State)
    requires Greatest(lines, All(lines), s) && Same(lines, s, a, b) && a.Running? && a.pc < |lines| && a.pc in s
    requires lines[a.pc].Plain?
    ensures Same(lines, s, Step(m, CodeOf(lines), a), Step(m, Kept(lines, s), b))
  {
    hide Greatest, ResolveAll, Target, StepPlain, Value, Step;
    var body := lines[a.pc].body;
    PlainItems(lines, s, m, a, b);
    StepIsPlain(m, CodeOf(lines), a);
    StepIsPlain(m, Kept(lines, s), b);
    if IsJump(body) {
      TargetsKept(lines, s, body[4].text);
    } else if IsCondJump(body) {
      TargetsKept(lines, s, body[7].text);
      TargetsKept(lines, s, body[12].text);
    }
    PlainSame(lines, s, m, CodeOf(lines), Kept(lines, s), body, a, b);
  }

  lemma TargetsKept(lines: seq<Line>, s: set<nat>, lbl: string)
    requires Greatest(lines, All(lines), s)
    ensures Target(CodeOf(lines), lbl) == Target(Kept(lines, s), lbl)
  {
    hide Greatest, UsesKept;
    KeptUsesKept(lines, s);
    KeptTargets(CodeOf(lines), Kept(lines, s), lbl);
  }

  /** One step of both, at a line that is there in both. */
  lemma KeptStep(lines: seq<Line>, s: set<nat>, m: Meaning, a: State, b: State)
    requires Greatest(lines, All(lines), s) && Same(lines, s, a, b) && a.Running? && a.pc < |lines| && a.pc in s
    ensures Same(lines, s, Step(m, CodeOf(lines), a), Step(m, Kept(lines, s), b))
  {
    hide Greatest, Same, Step;
    if lines[a.pc].Assign? { KeptAssign(lines, s, m, a, b); } else { KeptPlain(lines, s, m, a, b); }
  }

  lemma AliasIsLast(rhs: seq<Piece>)
    requires AliasValue(rhs).Some?
    ensures |rhs| > 0 && rhs[|rhs| - 1] == Word(AliasValue(rhs).value)
  {
  }

  lemma AgreeDrop(lines: seq<Line>, s: set<nat>, a: map<string, int>, b: map<string, int>, x: string, v: int)
    requires Agree(lines, s, a, b) && Dropped(lines, s, x)
    ensures Agree(lines, s, a[x := v], b)
  {
    hide Dropped;
  }

  lemma AssignEffect(m: Meaning, dest: string, rhs: seq<Piece>, a: State) returns (v: int)
    requires a.Running?
    ensures !IsEffect(rhs) ==> StepAssign(m, dest, rhs, a) == a.(pc := a.pc + 1, env := a.env[dest := v])
    ensures IsEffect(rhs) ==> StepAssign(m, dest, rhs, a).Running? && |StepAssign(m, dest, rhs, a).trace| == |a.trace| + 1
  {
    hide ResolveAll, AliasValue, IsEffect, Value;
    if AliasValue(rhs).Some? {
      CopyIsNoEffect(rhs);
      v := Value(m, a.env, AliasValue(rhs).value);
    } else {
      v := m.pure(dest, ResolveAll(m, a.env, rhs), a.mem);
    }
  }

  lemma DroppedStep(lines: seq<Line>, s: set<nat>, m: Meaning, a: State, b: State)
    requires Greatest(lines, All(lines), s) && Same(lines, s, a, b) && a.Running? && a.pc < |lines| && a.pc !in s
    ensures !LostEffect(lines, s, a) ==> Same(lines, s, Step(m, CodeOf(lines), a), Step(m, Kept(lines, s), b))
    ensures LostEffect(lines, s, a) ==> !Same(lines, s, Step(m, CodeOf(lines), a), Step(m, Kept(lines, s), b))
  {
    hide Greatest, StepAssign, StepPlain, IsEffect, UsesKept, Agree, Dropped;
    KeptUsesKept(lines, s);
    var l := lines[a.pc];
    DroppedDest(lines, s, a.pc);
    var v := AssignEffect(m, l.dest, l.rhs, a);
    AgreeDrop(lines, s, a.env, b.env, l.dest, v);
  }

  lemma DroppedDest(lines: seq<Line>, s: set<nat>, i: nat)
    requires i < |lines| && i !in s && lines[i].Assign?
    ensures Dropped(lines, s, lines[i].dest)
  {
  }

  lemma CopyIsNoEffect(rhs: seq<Piece>)
    requires AliasValue(rhs).Some?
    ensures !IsEffect(rhs)
  {
  }

  ghost predicate SameAt(lines: seq<Line>, s: set<nat>, m: Meaning, st: State, n: nat) {
    Same(lines, s, Run(m, CodeOf(lines), st, n), Run(m, Kept(lines, s), st, n))
  }

  predicate LostAt(lines: seq<Line>, s: set<nat>, m: Meaning, st: State, n: nat) {
    LostEffect(lines, s, Run(m, CodeOf(lines), st, n))
  }

  lemma {:induction false} RunsSame(lines: seq<Line>, s: set<nat>, m: Meaning, st: State, n: nat)
    requires Greatest(lines, All(lines), s)
    requires forall k: nat :: k < n ==> !LostAt(lines, s, m, st, k)
    ensures SameAt(lines, s, m, st, n)
    decreases n
  {
    hide Greatest, LostEffect;
    if n > 0 {
      RunsSame(lines, s, m, st, n - 1);
      var a, b := Run(m, CodeOf(lines), st, n - 1), Run(m, Kept(lines, s), st, n - 1);
      assert !LostAt(lines, s, m, st, n - 1);
      if a.Running? && a.pc < |lines| {
        if a.pc in s { KeptStep(lines, s, m, a, b); } else { DroppedStep(lines, s, m, a, b); }
      }
    }
  }

  /** Exactly when elimination preserves a run: when the run never comes to a dropped line
      that has an effect. The pass keeps `call` and `syscall`, but not `call_indirect`. */
  lemma EliminationIsExact(lines: seq<Line>, s: set<nat>, m: Meaning, st: State)
    requires Greatest(lines, All(lines), s)
    ensures (forall n: nat :: SameAt(lines, s, m, st, n)) <==> (forall n: nat :: !LostAt(lines, s, m, st, n))
  {
    hide Greatest, SameAt, LostAt;
    if forall n: nat :: SameAt(lines, s, m, st, n) {
      forall n: nat ensures !LostAt(lines, s, m, st, n) {
        assert SameAt(lines, s, m, st, n + 1);
        NotLost(lines, s, m, st, n);
      }
    }
    if forall n: nat :: !LostAt(lines, s, m, st, n) {
      forall n: nat ensures SameAt(lines, s, m, st, n) {
        RunsSame(lines, s, m, st, n);
      }
    }
  }

  lemma NotLost(lines: seq<Line>, s: set<nat>, m: Meaning, st: State, n: nat)
    requires Greatest(lines, All(lines), s) && SameAt(lines, s, m, st, n) && SameAt(lines, s, m, st, n + 1)
    ensures !LostAt(lines, s, m, st, n)
  {
    hide Greatest, Same;
    var a, b := Run(m, CodeOf(lines), st, n), Run(m, Kept(lines, s), st, n);
    if LostEffect(lines, s, a) {
      SameRunning(lines, s, a, b);
      DroppedStep(lines, s, m, a, b);
      assert false;
    }
  }

  lemma SameRunning(lines: seq<Line>, s: set<nat>, a: State, b: State)
    requires Same(lines, s, a, b)
    ensures a.Running? == b.Running?
  {
  }
}
