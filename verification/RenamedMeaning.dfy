/**
  Renamed statements mean what the statements mean.
 */
module RenamedMeaning {
  import opened Options
  import opened Ir
  import opened Source
  import opened CodegenNames
  import opened Renaming

  // ----- environments -----

  /** The same values, under the names of scopes and under those of declarations. */
  ghost predicate Alike(m: Numbers, n: nat, env: Env, vars: Env) {
    && Numbered(m, n) && env.Keys == m.Keys && vars.Keys == Names(n)
    && forall x :: x in m ==> Fresh(m[x]) in vars && env[x] == vars[Fresh(m[x])]
  }

  /** The variables that no name in scope means stay as they are. */
  ghost predicate HiddenStay(m: Numbers, n: nat, before: Env, after: Env) {
    forall k :: 0 <= k < n && k !in m.Values ==> Stays(k, before, after)
  }

  ghost predicate Stays(k: nat, before: Env, after: Env) {
    Fresh(k) in before && Fresh(k) in after && after[Fresh(k)] == before[Fresh(k)]
  }

  /** Two results that agree: `m1`, `n1` are the names in scope if the statement goes on. */
  ghost predicate Matches(m: Numbers, n: nat, m1: Numbers, n1: nat, before: Env, r: Result, r': Result) {
    match r
    case Normal(st) =>
      r'.Normal? && r'.st.out == st.out && Alike(m1, n1, st.env, r'.st.env) && HiddenStay(m, n, before, r'.st.env)
    case Broke(st) => r'.Broke? && r'.st.out == st.out && Alike(m, n, st.env, r'.st.env) && HiddenStay(m, n, before, r'.st.env)
    case Continued(st) => r'.Continued? && r'.st.out == st.out && Alike(m, n, st.env, r'.st.env) && HiddenStay(m, n, before, r'.st.env)
    case _ => r' == r
  }

  lemma {:induction false} EvalAlike(e: Expr, m: Numbers, n: nat, env: Env, vars: Env, out: World)
    requires Alike(m, n, env, vars) && Reads(e) <= m.Keys
    ensures Eval(RenameExpr(e, m), vars, out) == Eval(e, env, out)
    decreases e, 1
  {
    hide Alike, Apply;
    match e
    case Lit(_) =>
    case Var(x) => GetAlike(m, n, env, vars, x);
    case Binary(_, l, r) => EvalAlike(l, m, n, env, vars, out); EvalAlike(r, m, n, env, vars, Eval(l, env, out).out);
    case Neg(e0) => EvalAlike(e0, m, n, env, vars, out);
    case Not(e0) => EvalAlike(e0, m, n, env, vars, out);
    case And(l, r) => EvalAlike(l, m, n, env, vars, out); EvalAlike(r, m, n, env, vars, Eval(l, env, out).out);
    case Or(l, r) => EvalAlike(l, m, n, env, vars, out); EvalAlike(r, m, n, env, vars, Eval(l, env, out).out);
    case IfExpr(c, t, f) =>
      EvalAlike(c, m, n, env, vars, out);
      EvalAlike(t, m, n, env, vars, Eval(c, env, out).out);
      EvalAlike(f, m, n, env, vars, Eval(c, env, out).out);
    case Invoke(_, args) => ArgsEvalAlike(args, m, n, env, vars, out);
  }

  lemma {:induction false} ArgsEvalAlike(es: seq<Expr>, m: Numbers, n: nat, env: Env, vars: Env, out: World)
    requires Alike(m, n, env, vars) && ReadsOfAll(es) <= m.Keys
    ensures EvalArgs(RenameArgs(es, m), vars, out) == EvalArgs(es, env, out)
    decreases es, 0
  {
    hide Alike, RenameExpr, Eval, Reads;
    if es != [] {
      EvalAlike(es[0], m, n, env, vars, out);
      ArgsEvalAlike(es[1..], m, n, env, vars, Eval(es[0], env, out).out);
      var rest := RenameArgs(es[1..], m);
      assert ([RenameExpr(es[0], m)] + rest)[1..] == rest;
    }
  }

  lemma GetAlike(m: Numbers, n: nat, env: Env, vars: Env, x: string)
    requires Alike(m, n, env, vars) && x in m
    ensures Get(vars, NewName(m, x)) == Get(env, x)
  {
    hide Names;
  }

  lemma HiddenSame(m: Numbers, n: nat, env: Env, vars: Env)
    requires Alike(m, n, env, vars)
    ensures HiddenStay(m, n, vars, vars)
  {
    hide Numbered;
    forall k | 0 <= k < n && k !in m.Values ensures Stays(k, vars, vars) {
      assert Fresh(k) in Names(n);
    }
  }

  lemma HiddenThen(m: Numbers, n: nat, a: Env, b: Env, c: Env)
    requires HiddenStay(m, n, a, b) && HiddenStay(m, n, b, c)
    ensures HiddenStay(m, n, a, c)
  {
    forall k | 0 <= k < n && k !in m.Values ensures Stays(k, a, c) {
      assert Stays(k, a, b) && Stays(k, b, c);
    }
  }

  lemma AssignAlike(m: Numbers, n: nat, env: Env, vars: Env, x: string, v: int)
    requires Alike(m, n, env, vars) && x in m
    ensures Alike(m, n, env[x := v], vars[NewName(m, x) := v]) && HiddenStay(m, n, vars, vars[NewName(m, x) := v])
  {
    hide Names;
    var after := vars[Fresh(m[x]) := v];
    assert after.Keys == vars.Keys && env[x := v].Keys == env.Keys;
    forall y | y in m ensures Fresh(m[y]) in after && env[x := v][y] == after[Fresh(m[y])] {
    }
    HiddenSame(m, n, env, vars);
    forall k | 0 <= k < n && k !in m.Values ensures Stays(k, vars, after) {
      assert Stays(k, vars, vars);
    }
  }

  /** A declaration: the number `n` is new. */
  lemma DeclareAlike(m: Numbers, n: nat, env: Env, vars: Env, x: string, v: int)
    requires Alike(m, n, env, vars)
    ensures Alike(m[x := n], n + 1, env[x := v], vars[Fresh(n) := v])
    ensures HiddenStay(m, n, vars, vars[Fresh(n) := v])
  {
    hide Numbered, Names;
    NumberedMore(m, n, x);
    var m1, after := m[x := n], vars[Fresh(n) := v];
    assert after.Keys == vars.Keys + {Fresh(n)} && env[x := v].Keys == env.Keys + {x};
    forall y | y in m1 ensures Fresh(m1[y]) in after && env[x := v][y] == after[Fresh(m1[y])] {
      if y != x { assert Fresh(m[y]) in Names(n) by { NameIsThere(m, n, y); } }
    }
    HiddenSame(m, n, env, vars);
    forall k | 0 <= k < n && k !in m.Values ensures Stays(k, vars, after) {
      assert Stays(k, vars, vars);
    }
  }

  /** The end of a scope: what the name meant before comes back, and the new variable goes. */
  lemma LeaveAlike(m: Numbers, n: nat, x: string, outer: Env, vars: Env, inner: Env, vars1: Env)
    requires Alike(m, n, outer, vars) && Alike(m[x := n], n + 1, inner, vars1) && HiddenStay(m[x := n], n + 1, vars[Fresh(n) := 0], vars1)
    ensures Alike(m, n, if x in outer then inner[x := outer[x]] else inner - {x}, vars1 - {Fresh(n)})
    ensures HiddenStay(m, n, vars, vars1 - {Fresh(n)}) && Fresh(n) !in vars
  {
    hide Names;
    NumberedMore(m, n, x);
    var m1 := m[x := n];
    var back := if x in outer then inner[x := outer[x]] else inner - {x};
    var after := vars1 - {Fresh(n)};
    assert back.Keys == m.Keys;
    assert after.Keys == Names(n);
    forall y | y in m ensures Fresh(m[y]) in after && back[y] == after[Fresh(m[y])] {
      NameIsThere(m, n, y);
      if y == x {
        HiddenOuter(m, n, x);
        assert Stays(m[x], vars[Fresh(n) := 0], vars1);
      } else {
        assert m1[y] == m[y];
      }
    }
    forall k | 0 <= k < n && k !in m.Values ensures Stays(k, vars, after) {
      HiddenInner(m, n, x, k);
      assert Stays(k, vars[Fresh(n) := 0], vars1);
    }
  }

  /** The number that a name had before is hidden while it is declared again. */
  lemma HiddenOuter(m: Numbers, n: nat, x: string)
    requires Numbered(m, n) && x in m
    ensures m[x] !in m[x := n].Values
  {
    var m1 := m[x := n];
    forall y | y in m1 ensures m1[y] != m[x] {
      assert y != x ==> m1[y] == m[y];
    }
  }

  lemma HiddenInner(m: Numbers, n: nat, x: string, k: nat)
    requires k < n && k !in m.Values
    ensures k !in m[x := n].Values
  {
    var m1 := m[x := n];
    forall y | y in m1 ensures m1[y] != k {
      assert y != x ==> m1[y] == m[y] && m[y] in m.Values;
    }
  }

  // ----- statements -----

  lemma {:induction false} StopsAreNotNormal(s: Stmt, st: State, inLoop: bool, isVoid: bool, fuel: nat)
    requires Stops(s, inLoop)
    ensures !Source.Exec(s, st, inLoop, isVoid, fuel).Normal? && !s.Let?
    decreases s, 1
  {
    if s.Block? { StopsSeqIsNotNormal(s.body, st, inLoop, isVoid, fuel); }
  }

  lemma {:induction false} StopsSeqIsNotNormal(ss: seq<Stmt>, st: State, inLoop: bool, isVoid: bool, fuel: nat)
    requires StopsSeq(ss, inLoop)
    ensures !ExecSeq(ss, st, inLoop, isVoid, fuel).Normal?
    decreases ss, 0
  {
    hide Source.Exec, Stops;
    var r := Source.Exec(ss[0], st, inLoop, isVoid, fuel);
    if Stops(ss[0], inLoop) {
      StopsAreNotNormal(ss[0], st, inLoop, isVoid, fuel);
    } else if r.Normal? {
      StopsSeqIsNotNormal(ss[1..], r.st, inLoop, isVoid, fuel);
    }
  }

  /** What is known at the start of a statement and of its renamed form. */
  ghost predicate Start(s: Stmt, m: Numbers, n: nat, st: State, st': State, inLoop: bool) {
    Found(s, m.Keys, inLoop) && Alike(m, n, st.env, st'.env) && st'.out == st.out
  }

  lemma {:induction false} StmtRenamed(s: Stmt, m: Numbers, n: nat, st: State, st': State, inLoop: bool, isVoid: bool, fuel: nat)
    requires Start(s, m, n, st, st', inLoop)
    ensures Matches(m, n, NumbersAfter(s, m, n), CountAfter(s, n), st'.env,
                    Source.Exec(s, st, inLoop, isVoid, fuel), Source.Exec(Rename(s, m, n, inLoop), st', inLoop, isVoid, fuel))
    decreases fuel, s, 2
  {
    hide Alike, HiddenStay, RenameExpr, Eval, Stops, Defines, Reads, NewName;
    HiddenSame(m, n, st.env, st'.env);
    match s
    case Let(x, e) =>
      EvalAlike(e, m, n, st.env, st'.env, st.out);
      DeclareAlike(m, n, st.env, st'.env, x, EvalIn(e, st).n);
    case Assign(x, e) =>
      EvalAlike(e, m, n, st.env, st'.env, st.out);
      AssignAlike(m, n, st.env, st'.env, x, EvalIn(e, st).n);
    case PrintStmt(e) => EvalAlike(e, m, n, st.env, st'.env, st.out);
    case ExprStmt(e) => EvalAlike(e, m, n, st.env, st'.env, st.out);
    case Block(body) => SeqRenamed(body, m, n, st, st', inLoop, isVoid, fuel);
    case If(_, _, _) => IfRenamed(s, m, n, st, st', inLoop, isVoid, fuel);
    case While(_, _) => WhileRenamed(s, m, n, st, st', inLoop, isVoid, fuel);
    case ForRange(_, _, _, _) => ForRenamed(s, m, n, st, st', inLoop, isVoid, fuel);
    case Match(_, _) => MatchRenamed(s, m, n, st, st', inLoop, isVoid, fuel);
    case Break =>
    case Continue =>
    case Return =>
    case ReturnExpr(e) => EvalAlike(e, m, n, st.env, st'.env, st.out);
  }

  /** A result at the end of the scope that a declaration opened. */
  lemma LeaveResult(m: Numbers, n: nat, x: string, v: int, outer: Env, vars: Env, r: Result, r': Result)
    requires Alike(m, n, outer, vars) && Matches(m[x := n], n + 1, m[x := n], n + 1, vars[Fresh(n) := v], r, r')
    ensures Matches(m, n, m, n, vars, UnbindResult(r, x, outer), UnbindResult(r', Fresh(n), vars))
  {
    hide Alike;
    if r.Normal? || r.Broke? || r.Continued? {
      HiddenAnyway(m, n, x, v, vars, r'.st.env);
      LeaveAlike(m, n, x, outer, vars, r.st.env, r'.st.env);
      assert x in outer <==> x in m by { SameKeys(m, n, outer, vars); }
    }
  }

  lemma SameKeys(m: Numbers, n: nat, env: Env, vars: Env)
    requires Alike(m, n, env, vars)
    ensures env.Keys == m.Keys && vars.Keys == Names(n)
  {
  }

  /** The new variable itself is not hidden, so its value does not matter. */
  lemma HiddenAnyway(m: Numbers, n: nat, x: string, v: int, vars: Env, after: Env)
    requires HiddenStay(m[x := n], n + 1, vars[Fresh(n) := v], after)
    ensures HiddenStay(m[x := n], n + 1, vars[Fresh(n) := 0], after)
  {
    var m1 := m[x := n];
    assert m1[x] == n && n in m1.Values;
    forall k | 0 <= k < n + 1 && k !in m1.Values ensures Stays(k, vars[Fresh(n) := 0], after) {
      assert Stays(k, vars[Fresh(n) := v], after);
      assert k != n && Fresh(k) != Fresh(n);
    }
  }

  /** A statement that is a scope of its own. */
  lemma {:induction false} BodyRenamed(s: Stmt, m: Numbers, n: nat, st: State, st': State, inLoop: bool, isVoid: bool, fuel: nat)
    requires Start(s, m, n, st, st', inLoop)
    ensures Matches(m, n, m, n, st'.env, ExecBody(s, st, inLoop, isVoid, fuel),
                    ExecBody(Rename(s, m, n, inLoop), st', inLoop, isVoid, fuel))
    decreases fuel, s, 3
  {
    if s.Let? {
      LetBodyRenamed(s, m, n, st, st', inLoop, isVoid, fuel);
    } else {
      hide Source.Exec, Matches, Found, Alike;
      StmtRenamed(s, m, n, st, st', inLoop, isVoid, fuel);
      LetStays(s, m, n, inLoop);
    }
  }

  lemma LetBodyRenamed(s: Stmt, m: Numbers, n: nat, st: State, st': State, inLoop: bool, isVoid: bool, fuel: nat)
    requires s.Let? && Start(s, m, n, st, st', inLoop)
    ensures Matches(m, n, m, n, st'.env, ExecBody(s, st, inLoop, isVoid, fuel),
                    ExecBody(Rename(s, m, n, inLoop), st', inLoop, isVoid, fuel))
  {
    hide Alike, HiddenStay, RenameExpr, Eval, Reads;
    EvalAlike(s.e, m, n, st.env, st'.env, st.out);
    var x := EvalIn(s.e, st);
    var v := x.n;
    DeclareAlike(m, n, st.env, st'.env, s.name, v);
    HiddenSame(m[s.name := n], n + 1, st.env[s.name := v], st'.env[Fresh(n) := v]);
    LeaveResult(m, n, s.name, v, st.env, st'.env, Normal(Bind(st.(out := x.out), s.name, v)),
                Normal(Bind(st'.(out := x.out), Fresh(n), v)));
  }

  lemma {:induction false} SeqRenamed(ss: seq<Stmt>, m: Numbers, n: nat, st: State, st': State, inLoop: bool, isVoid: bool, fuel: nat)
    requires FoundSeq(ss, m.Keys, inLoop) && Alike(m, n, st.env, st'.env) && st'.out == st.out
    ensures Matches(m, n, m, n, st'.env, ExecSeq(ss, st, inLoop, isVoid, fuel),
                    ExecSeq(RenameSeq(ss, m, n, inLoop), st', inLoop, isVoid, fuel))
    decreases fuel, ss, 0
  {
    hide Alike, HiddenStay, Source.Exec, Stops, Rename, Found, GoodAfter;
    if ss == [] {
      HiddenSame(m, n, st.env, st'.env);
    } else {
      var s0, rest := Rename(ss[0], m, n, inLoop), RenameSeq(ss, m, n, inLoop)[1..];
      var r, r' := Source.Exec(ss[0], st, inLoop, isVoid, fuel), Source.Exec(s0, st', inLoop, isVoid, fuel);
      StmtRenamed(ss[0], m, n, st, st', inLoop, isVoid, fuel);
      LetStays(ss[0], m, n, inLoop);
      if Stops(ss[0], inLoop) {
        StopsAreNotNormal(ss[0], st, inLoop, isVoid, fuel);
      } else if !r.Normal? {
        LetIsNormal(ss[0], st, inLoop, isVoid, fuel);
      } else {
        assert Numbered(m, n) by { AlikeNumbered(m, n, st.env, st'.env); }
        FoundNext(ss, m, n, inLoop);
        var m1, n1 := NumbersAfter(ss[0], m, n), CountAfter(ss[0], n);
        SeqRenamed(ss[1..], m1, n1, r.st, r'.st, inLoop, isVoid, fuel);
        assert rest == RenameSeq(ss[1..], m1, n1, inLoop);
        if ss[0].Let? {
          LetThen(ss[0], m, n, st, st', inLoop, isVoid, fuel,
                  ExecSeq(ss[1..], r.st, inLoop, isVoid, fuel), ExecSeq(rest, r'.st, inLoop, isVoid, fuel));
        } else {
          MatchesThen(m, n, st'.env, r'.st.env, ExecSeq(ss[1..], r.st, inLoop, isVoid, fuel), ExecSeq(rest, r'.st, inLoop, isVoid, fuel));
        }
      }
    }
  }

  lemma AlikeNumbered(m: Numbers, n: nat, env: Env, vars: Env)
    requires Alike(m, n, env, vars)
    ensures Numbered(m, n)
  {
  }

  lemma LetIsNormal(s: Stmt, st: State, inLoop: bool, isVoid: bool, fuel: nat)
    ensures s.Let? ==> Source.Exec(s, st, inLoop, isVoid, fuel).Normal?
  {
  }

  lemma MatchesThen(m: Numbers, n: nat, a: Env, b: Env, r: Result, r': Result)
    requires HiddenStay(m, n, a, b) && Matches(m, n, m, n, b, r, r')
    ensures Matches(m, n, m, n, a, r, r')
  {
    hide HiddenStay, Alike;
    if r.Normal? || r.Broke? || r.Continued? { HiddenThen(m, n, a, b, r'.st.env); }
  }

  /** The statements behind a declaration, and the end of its scope. */
  lemma LetThen(s: Stmt, m: Numbers, n: nat, st: State, st': State, inLoop: bool, isVoid: bool, fuel: nat, r: Result, r': Result)
    requires s.Let? && Start(s, m, n, st, st', inLoop)
    requires var after := Source.Exec(Rename(s, m, n, inLoop), st', inLoop, isVoid, fuel);
             after.Normal? && Matches(m[s.name := n], n + 1, m[s.name := n], n + 1, after.st.env, r, r')
    ensures Matches(m, n, m, n, st'.env, UnbindResult(r, s.name, st.env), UnbindResult(r', Fresh(n), st'.env))
  {
    hide Alike, Matches, UnbindResult;
    LeaveResult(m, n, s.name, EvalIn(RenameExpr(s.e, m), st').n, st.env, st'.env, r, r');
  }

  lemma {:induction false} IfRenamed(s: Stmt, m: Numbers, n: nat, st: State, st': State, inLoop: bool, isVoid: bool, fuel: nat)
    requires s.If? && Start(s, m, n, st, st', inLoop)
    ensures Matches(m, n, m, n, st'.env, Source.Exec(s, st, inLoop, isVoid, fuel),
                    Source.Exec(Rename(s, m, n, inLoop), st', inLoop, isVoid, fuel))
    decreases fuel, s, 1
  {
    hide Alike, HiddenStay, RenameExpr, Eval, ExecBody, Reads;
    EvalAlike(s.cond, m, n, st.env, st'.env, st.out);
    HiddenSame(m, n, st.env, st'.env);
    var v := EvalIn(s.cond, st);
    var st1, st1' := st.(out := v.out), st'.(out := v.out);
    if v.n != 0 {
      BodyRenamed(s.thn, m, n, st1, st1', inLoop, isVoid, fuel);
    } else if s.els.Some? {
      FoundMore(s.els.value, m.Keys - Defines(s.thn, inLoop), m.Keys, inLoop);
      BodyRenamed(s.els.value, m, n, st1, st1', inLoop, isVoid, fuel);
    }
  }

  lemma {:induction false} WhileRenamed(s: Stmt, m: Numbers, n: nat, st: State, st': State, inLoop: bool, isVoid: bool, fuel: nat)
    requires s.While? && Start(s, m, n, st, st', inLoop)
    ensures Matches(m, n, m, n, st'.env, Source.Exec(s, st, inLoop, isVoid, fuel),
                    Source.Exec(Rename(s, m, n, inLoop), st', inLoop, isVoid, fuel))
    decreases fuel, s, 1
  {
    hide Alike, HiddenStay, RenameExpr, Eval, ExecBody, Reads, Defines;
    EvalAlike(s.cond, m, n, st.env, st'.env, st.out);
    HiddenSame(m, n, st.env, st'.env);
    var v := EvalIn(s.cond, st);
    var st1, st1' := st.(out := v.out), st'.(out := v.out);
    if v.n != 0 && fuel > 0 {
      var r := ExecBody(s.loop, st1, true, isVoid, fuel);
      var r' := ExecBody(Rename(s.loop, m, n, true), st1', true, isVoid, fuel);
      BodyRenamed(s.loop, m, n, st1, st1', true, isVoid, fuel);
      if r.Normal? || r.Continued? {
        WhileRenamed(s, m, n, r.st, r'.st, inLoop, isVoid, fuel - 1);
        MatchesThen(m, n, st'.env, r'.st.env, Source.Exec(s, r.st, inLoop, isVoid, fuel - 1),
                    Source.Exec(Rename(s, m, n, inLoop), r'.st, inLoop, isVoid, fuel - 1));
      }
    }
  }

  lemma {:induction false} ForRenamed(s: Stmt, m: Numbers, n: nat, st: State, st': State, inLoop: bool, isVoid: bool, fuel: nat)
    requires s.ForRange? && Start(s, m, n, st, st', inLoop)
    ensures Matches(m, n, m, n, st'.env, Source.Exec(s, st, inLoop, isVoid, fuel),
                    Source.Exec(Rename(s, m, n, inLoop), st', inLoop, isVoid, fuel))
    decreases fuel, s, 1
  {
    hide Alike, HiddenStay, RenameExpr, Eval, ExecFor, Reads, Defines, Matches, UnbindResult;
    EvalAlike(s.from, m, n, st.env, st'.env, st.out);
    var x := EvalIn(s.from, st);
    EvalAlike(s.to, m, n, st.env, st'.env, x.out);
    var y := Eval(s.to, st.env, x.out);
    var from, to := x.n, y.n;
    var st1, st1' := Bind(st.(out := y.out), s.name, from), Bind(st'.(out := y.out), Fresh(n), from);
    DeclareAlike(m, n, st.env, st'.env, s.name, from);
    var m1, body := m[s.name := n], Rename(s.loop, m[s.name := n], n + 1, true);
    assert m1.Keys == m.Keys + {s.name};
    IterationsRenamed(s.name, to, s.loop, m1, n + 1, n, st1, st1', isVoid, fuel);
    LeaveResult(m, n, s.name, from, st.env, st'.env, ExecFor(s.name, to, s.loop, st1, isVoid, fuel),
                ExecFor(Fresh(n), to, body, st1', isVoid, fuel));
  }

  lemma {:induction false} IterationsRenamed(x: string, to: int, body: Stmt, m: Numbers, n: nat, k: nat, st: State, st': State,
                                             isVoid: bool, fuel: nat)
    requires Start(body, m, n, st, st', true) && x in m && m[x] == k
    ensures Matches(m, n, m, n, st'.env, ExecFor(x, to, body, st, isVoid, fuel),
                    ExecFor(Fresh(k), to, Rename(body, m, n, true), st', isVoid, fuel))
    decreases fuel, body, 4
  {
    hide Alike, HiddenStay, ExecBody, Rename, Found, Get, Apply;
    GetAlike(m, n, st.env, st'.env, x);
    HiddenSame(m, n, st.env, st'.env);
    if Get(st.env, x) < to && fuel > 0 {
      var body' := Rename(body, m, n, true);
      var r, r' := ExecBody(body, st, true, isVoid, fuel), ExecBody(body', st', true, isVoid, fuel);
      BodyRenamed(body, m, n, st, st', true, isVoid, fuel);
      if r.Normal? || r.Continued? {
        GetAlike(m, n, r.st.env, r'.st.env, x);
        var v := Apply(Add, Get(r.st.env, x), 1);
        AssignAlike(m, n, r.st.env, r'.st.env, x, v);
        HiddenThen(m, n, st'.env, r'.st.env, r'.st.env[Fresh(k) := v]);
        IterationsRenamed(x, to, body, m, n, k, Bind(r.st, x, v), Bind(r'.st, Fresh(k), v), isVoid, fuel - 1);
        MatchesThen(m, n, st'.env, r'.st.env[Fresh(k) := v], ExecFor(x, to, body, Bind(r.st, x, v), isVoid, fuel - 1),
                    ExecFor(Fresh(k), to, body', Bind(r'.st, Fresh(k), v), isVoid, fuel - 1));
      }
    }
  }

  /** The renamed arms select the renamed body. */
  lemma {:induction false} SelectRenamed(arms: seq<Arm>, v: int, m: Numbers, n: nat, env: Env, vars: Env, out: World, inLoop: bool)
    requires FoundArms(arms, m.Keys, inLoop) && Alike(m, n, env, vars)
    ensures var chosen := Select(arms, v, env, out);
            Select(RenameArms(arms, m, n, inLoop), v, vars, out)
            == chosen.(body := match chosen.body case None => None case Some(body) => Some(Rename(body, m, n, inLoop)))
    ensures Select(arms, v, env, out).body.Some? ==> Found(Select(arms, v, env, out).body.value, m.Keys, inLoop)
    decreases arms
  {
    hide Alike, Rename, Found, RenameExpr, Eval, Reads, Defines;
    if arms != [] {
      var rest := RenameArms(arms[1..], m, n, inLoop);
      assert ([RenameArm(arms[0], m, n, inLoop)] + rest)[1..] == rest;
      FoundMoreArms(arms[1..], m.Keys - DefinesArm(arms[0], inLoop), m.Keys, inLoop);
      if arms[0].pattern.Some? {
        EvalAlike(arms[0].pattern.value, m, n, env, vars, out);
        SelectRenamed(arms[1..], v, m, n, env, vars, Eval(arms[0].pattern.value, env, out).out, inLoop);
      }
    }
  }

  lemma {:induction false} MatchRenamed(s: Stmt, m: Numbers, n: nat, st: State, st': State, inLoop: bool, isVoid: bool, fuel: nat)
    requires s.Match? && Start(s, m, n, st, st', inLoop)
    ensures Matches(m, n, m, n, st'.env, Source.Exec(s, st, inLoop, isVoid, fuel),
                    Source.Exec(Rename(s, m, n, inLoop), st', inLoop, isVoid, fuel))
    decreases fuel, s, 1
  {
    hide Alike, HiddenStay, RenameExpr, Eval, ExecBody, Reads, Select, RenameArms, FoundArms;
    EvalAlike(s.subject, m, n, st.env, st'.env, st.out);
    HiddenSame(m, n, st.env, st'.env);
    var v := EvalIn(s.subject, st);
    SelectRenamed(s.arms, v.n, m, n, st.env, st'.env, v.out, inLoop);
    var chosen := Select(s.arms, v.n, st.env, v.out);
    if chosen.body.Some? {
      SelectIsSmaller(s.arms, v.n, st.env, v.out);
      BodyRenamed(chosen.body.value, m, n, st.(out := chosen.out), st'.(out := chosen.out), inLoop, isVoid, fuel);
    }
  }
}
