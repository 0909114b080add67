/**
  The traversal of expressions and statements, case by case, and the main results.
 */
module ScopeTraversal {
  import opened Options
  import opened Scoping
  import opened ScopeRules
  import opened ScopeFacts
  import opened ScopeProof

  // ----- entering and leaving scopes -----

  lemma Pushed(st: State)
    requires Inv(st)
    ensures Inv(Push(st)) && ScopesOf(Push(st).env) == ScopesOf(st.env) + [map[]]
  {
  }

  lemma StayMove(a: State)
    requires Inv(a)
    ensures Move(a, a, true, ScopesOf(a.env))
  {
  }

  lemma StepIsMove(a: State, b: State, ok: bool)
    requires Inv(a) && Step(a, b, ok)
    ensures Move(a, b, ok, ScopesOf(a.env))
  {
  }

  lemma Moved(a: State, b: State, ok: bool, after: Scopes)
    requires Move(a, b, ok, after)
    ensures Inv(b) && (Clean(b) ==> ScopesOf(b.env) == after)
  {
  }

  /** What the second move depends on is known only when the first reported nothing. */
  lemma MoveThen(a: State, b: State, c: State, x: bool, g: Scopes, y: bool, h: Scopes, y': bool, h': Scopes)
    requires Move(a, b, x, g) && Move(b, c, y, h)
    requires ScopesOf(b.env) == g ==> y == y' && h == h'
    ensures Move(a, c, x && y', h')
  {
  }

  lemma Popped(c: Context, st: State, inner: State, ok: bool, after: Scopes)
    requires Inv(st) && Move(Push(st), inner, ok, after)
    ensures Step(st, Pop(c, inner), ok)
  {
    hide WarnUnused;
    Pushed(st);
    var g := ScopesOf(st.env);
    assert (g + [map[]])[..|g|] == g;
    assert |inner.env| == |st.env| + 1;
    WarnUnusedCounts(c, inner.report, Top(inner.env));
    assert ScopesOf(Below(inner.env)) == ScopesOf(inner.env)[..|g|];
  }

  lemma DeclareMove(c: Context, st: State, name: string, loc: Loc)
    requires Inv(st)
    ensures Move(st, Declare(c, st, name, loc), Fresh(ScopesOf(st.env), name), Declared(ScopesOf(st.env), name))
  {
    hide NamesOf, AddError;
    if name == "_" {
      StayMove(st);
    } else {
      FreshIsNotFound(st.env, name);
      if FindFirst(Top(st.env), name).Some? {
        assert ErrorText("duplicate symbol '" + name + "'");
        AddErrorCounts(c, st.report, "NameError", "duplicate symbol '" + name + "'", loc, |name|);
      } else {
        AddExtends(st.env, Binding(name, false, false, loc, true));
      }
    }
  }

  lemma {:induction false} DeclareAllMove(c: Context, st: State, names: seq<Expr>)
    requires Inv(st) && forall i :: 0 <= i < |names| ==> names[i].Ident?
    ensures Move(st, DeclareAll(c, st, names), BindersOk(names, ScopesOf(st.env)), DeclaredAll(names, ScopesOf(st.env)))
    decreases names
  {
    hide Move, Inv, Declare, Fresh, Declared, ScopesOf, Clean;
    var g := ScopesOf(st.env);
    if names == [] {
      StayMove(st);
    } else {
      var (name, loc) := (names[0].text, names[0].loc);
      DeclareMove(c, st, name, loc);
      var st' := Declare(c, st, name, loc);
      Moved(st, st', Fresh(g, name), Declared(g, name));
      DeclareAllMove(c, st', names[1..]);
      MoveThen(st, st', DeclareAll(c, st, names), Fresh(g, name), Declared(g, name),
               BindersOk(names[1..], ScopesOf(st'.env)), DeclaredAll(names[1..], ScopesOf(st'.env)),
               BindersOk(names[1..], Declared(g, name)), DeclaredAll(names[1..], Declared(g, name)));
    }
  }

  // ----- expressions -----

  lemma {:induction false} ExprStep(c: Context, st: State, e: Expr)
    requires Inv(st) && Named(c.program)
    ensures Step(st, CheckExpr(c, st, e), ExprOk(c.program, ScopesOf(st.env), e))
    decreases e, 2
  {
    hide Step, Inv, ScopesOf, Clean, Named, Use, UseOk, IsFunction, IsVariant, CheckStructFields, StructOk, CheckCall,
         CheckCaptures, CaptureOk, Pop, Push;
    var g := ScopesOf(st.env);
    match e
    case NoExpr => Stay(st);
    case Literal(_) => Stay(st);
    case Ident(t, loc) =>
      if IsVariant(c.program, t) || IsFunction(c.program, t) { Stay(st); } else { UseStep(c, st, t, loc); }
    case Addr(t, loc) => UseStep(c, st, t, loc);
    case Operator(_, _, operands) => ExprsStep(c, st, operands);
    case OptionOf(_, inner) => ExprStep(c, st, inner);
    case StructLiteral(_, _, args, _) =>
      StructStep(c, st, e);
      var st' := CheckStructFields(c, st, e);
      Known(st, st', StructOk(c.program, e));
      ExprsStep(c, st', args);
      Then(st, st', CheckExpr(c, st, e), StructOk(c.program, e), ExprsOk(c.program, g, args));
    case Call(_, _, _, _, _) => CallStep(c, st, e);
    case Lambda(_, captures, loc) => CapturesStep(c, st, captures, loc);
    case MatchOf(_, _, _) => MatchStep(c, st, e);
    case BlockOf(_, _) => BlockExprStep(c, st, e);
  }

  lemma {:induction false} MatchStep(c: Context, st: State, e: Expr)
    requires Inv(st) && Named(c.program) && e.MatchOf?
    ensures Step(st, CheckExpr(c, st, e), ExprOk(c.program, ScopesOf(st.env), e))
    decreases e, 1
  {
    hide Step, Inv, ScopesOf, Clean, Named, CheckExhaustive, Exhaustive;
    var (p, g) := (c.program, ScopesOf(st.env));
    ExprStep(c, st, e.subject);
    var st1 := CheckExpr(c, st, e.subject);
    var x := ExprOk(p, g, e.subject);
    Known(st, st1, x);
    ExhaustiveStep(c, st1, PatternsOf(e.arms), e.loc);
    var st2 := CheckExhaustive(c, st1, PatternsOf(e.arms), e.loc);
    var y := Exhaustive(p, PatternsOf(e.arms));
    Known(st1, st2, y);
    Then(st, st1, st2, x, y);
    ArmsStep(c, st2, e.arms);
    Then(st, st2, CheckExpr(c, st, e), x && y, ArmsOk(p, g, e.arms));
  }

  lemma {:induction false} BlockExprStep(c: Context, st: State, e: Expr)
    requires Inv(st) && Named(c.program) && e.BlockOf?
    ensures Step(st, CheckExpr(c, st, e), ExprOk(c.program, ScopesOf(st.env), e))
    decreases e, 1
  {
    hide Step, Move, Inv, ScopesOf, Clean, Named, Pop, Push, CheckBlockHere, BlockOk, BlockAfter;
    var (p, g) := (c.program, ScopesOf(st.env));
    Pushed(st);
    var st0 := Push(st);
    var g0 := g + [map[]];
    BlockMove(c, st0, e.body);
    var st1 := CheckBlockHere(c, st0, e.body);
    Moved(st0, st1, BlockOk(p, g0, e.body), BlockAfter(g0, e.body));
    ExprStep(c, st1, e.value);
    var st2 := CheckExpr(c, st1, e.value);
    var g1 := ScopesOf(st1.env);
    StepIsMove(st1, st2, ExprOk(p, g1, e.value));
    MoveThen(st0, st1, st2, BlockOk(p, g0, e.body), BlockAfter(g0, e.body), ExprOk(p, g1, e.value), g1,
             ExprOk(p, BlockAfter(g0, e.body), e.value), BlockAfter(g0, e.body));
    Popped(c, st, st2, BlockOk(p, g0, e.body) && ExprOk(p, BlockAfter(g0, e.body), e.value), BlockAfter(g0, e.body));
  }

  /** The function a call names, when it names one. */
  predicate CalleeOk(p: Program, g: Scopes, text: string) {
    text == "clone" || IsFunction(p, text) || IsVariant(p, text) || Bound(g, text)
  }

  lemma {:induction false} CallStep(c: Context, st: State, e: Expr)
    requires Inv(st) && Named(c.program) && e.Call?
    ensures Step(st, CheckCall(c, st, e), ExprOk(c.program, ScopesOf(st.env), e))
    decreases e, 1
  {
    hide Step, Inv, ScopesOf, Clean, Named, IsFunction, IsVariant, Bound, CheckGenericCall, GenericOk, ReportError;
    var (p, g) := (c.program, ScopesOf(st.env));
    if e.callee != NoExpr {
      ExprStep(c, st, e.callee);
      var st1 := CheckExpr(c, st, e.callee);
      Known(st, st1, ExprOk(p, g, e.callee));
      ExprsStep(c, st1, e.args);
      Then(st, st1, CheckCall(c, st, e), ExprOk(p, g, e.callee), ExprsOk(p, g, e.args));
    } else {
      LookupIsBound(st.env, e.text);
      var x := CalleeOk(p, g, e.text);
      var message := "undefined function '" + e.text + "'";
      var st1 := if x then st else ReportError(c, st, "NameError", message, e.loc, |e.text|);
      if x { Stay(st); } else { ErrorStep(c, st, "NameError", message, e.loc, |e.text|); }
      Known(st, st1, x);
      var y := e.text == "clone" || GenericOk(p, e.text, e.typeArgs);
      var st2 := if e.text == "clone" then st1 else CheckGenericCall(c, st1, e.text, e.typeArgs, e.loc);
      if e.text == "clone" { Stay(st1); } else { GenericStep(c, st1, e.text, e.typeArgs, e.loc); }
      Known(st1, st2, y);
      Then(st, st1, st2, x, y);
      ExprsStep(c, st2, e.args);
      Then(st, st2, CheckCall(c, st, e), x && y, ExprsOk(p, g, e.args));
    }
  }

  lemma {:induction false} ExprsStep(c: Context, st: State, es: seq<Expr>)
    requires Inv(st) && Named(c.program)
    ensures Step(st, CheckExprs(c, st, es), ExprsOk(c.program, ScopesOf(st.env), es))
    decreases es, 0
  {
    hide Step, Inv, ScopesOf, Clean, Named, CheckExpr, ExprOk;
    var (p, g) := (c.program, ScopesOf(st.env));
    if es == [] {
      Stay(st);
    } else {
      ExprStep(c, st, es[0]);
      var st' := CheckExpr(c, st, es[0]);
      Known(st, st', ExprOk(p, g, es[0]));
      ExprsStep(c, st', es[1..]);
      Then(st, st', CheckExprs(c, st, es), ExprOk(p, g, es[0]), ExprsOk(p, g, es[1..]));
    }
  }

  lemma {:induction false} ArmsStep(c: Context, st: State, arms: seq<ExprArm>)
    requires Inv(st) && Named(c.program)
    ensures Step(st, CheckArms(c, st, arms), ArmsOk(c.program, ScopesOf(st.env), arms))
    decreases arms, 0
  {
    hide Step, Inv, ScopesOf, Clean, Named, CheckArm, ArmOk;
    var (p, g) := (c.program, ScopesOf(st.env));
    if arms == [] {
      Stay(st);
    } else {
      ArmStep(c, st, arms[0]);
      var st' := CheckArm(c, st, arms[0]);
      Known(st, st', ArmOk(p, g, arms[0]));
      ArmsStep(c, st', arms[1..]);
      Then(st, st', CheckArms(c, st, arms), ArmOk(p, g, arms[0]), ArmsOk(p, g, arms[1..]));
    }
  }

  lemma {:induction false} ArmStep(c: Context, st: State, arm: ExprArm)
    requires Inv(st) && Named(c.program)
    ensures Step(st, CheckArm(c, st, arm), ArmOk(c.program, ScopesOf(st.env), arm))
    decreases arm, 0
  {
    hide Step, Move, Inv, ScopesOf, Clean, Named, CheckPattern, PatternOk, CheckExpr, ExprOk, Push, Pop, DeclareAll, Binders,
         BindersOk, DeclaredAll;
    var (p, g) := (c.program, ScopesOf(st.env));
    PatternStep(c, st, arm.pattern);
    var x := PatternOk(p, g, arm.pattern);
    var st1 := CheckPattern(c, st, arm.pattern);
    Known(st, st1, x);
    if arm.body != NoExpr {
      Pushed(st1);
      var st2, g2 := Push(st1), g + [map[]];
      var binders := Binders(p, arm.pattern);
      DeclareAllMove(c, st2, binders);
      var st3, g3 := DeclareAll(c, st2, binders), DeclaredAll(binders, g2);
      Moved(st2, st3, BindersOk(binders, g2), g3);
      ExprStep(c, st3, arm.body);
      var st4 := CheckExpr(c, st3, arm.body);
      StepIsMove(st3, st4, ExprOk(p, ScopesOf(st3.env), arm.body));
      MoveThen(st2, st3, st4, BindersOk(binders, g2), g3, ExprOk(p, ScopesOf(st3.env), arm.body), ScopesOf(st3.env),
               ExprOk(p, g3, arm.body), g3);
      var y := BindersOk(binders, g2) && ExprOk(p, g3, arm.body);
      Popped(c, st1, st4, y, g3);
      Then(st, st1, Pop(c, st4), x, y);
    }
  }

  lemma {:induction false} PatternStep(c: Context, st: State, e: Expr)
    requires Inv(st) && Named(c.program)
    ensures Step(st, CheckPattern(c, st, e), PatternOk(c.program, ScopesOf(st.env), e))
    decreases e, 3
  {
    hide Step, Inv, ScopesOf, Clean, Named, CheckExpr, ExprOk, IsVariant;
    if e == NoExpr || (e.OptionOf? && e.hasValue && e.inner.Ident?) {
      Stay(st);
    } else if e.Call? && IsVariant(c.program, e.text) {
      PatternArgsStep(c, st, e.args);
    } else {
      ExprStep(c, st, e);
    }
  }

  lemma {:induction false} PatternArgsStep(c: Context, st: State, args: seq<Expr>)
    requires Inv(st) && Named(c.program)
    ensures Step(st, CheckPatternArgs(c, st, args), PatternArgsOk(c.program, ScopesOf(st.env), args))
    decreases args, 0
  {
    hide Step, Inv, ScopesOf, Clean, Named, CheckPattern, PatternOk;
    var (p, g) := (c.program, ScopesOf(st.env));
    if args == [] {
      Stay(st);
    } else {
      var x := args[0].Ident? || PatternOk(p, g, args[0]);
      var st' := if args[0].Ident? then st else CheckPattern(c, st, args[0]);
      if args[0].Ident? { Stay(st); } else { PatternStep(c, st, args[0]); }
      Known(st, st', x);
      PatternArgsStep(c, st', args[1..]);
      Then(st, st', CheckPatternArgs(c, st, args), x, PatternArgsOk(p, g, args[1..]));
    }
  }

  // ----- statements -----

  lemma {:induction false} StmtMove(c: Context, st: State, s: Stmt)
    requires Inv(st) && Named(c.program)
    ensures Move(st, CheckStmt(c, st, s), StmtOk(c.program, ScopesOf(st.env), s), After(ScopesOf(st.env), s))
    decreases s, 2
  {
    hide Step, Move, Inv, ScopesOf, Clean, Named, Require, UseOk, Push, Pop, CheckForRange;
    var (p, g) := (c.program, ScopesOf(st.env));
    match s
    case NoStmt => StayMove(st);
    case Other(_) => StayMove(st);
    case Let(_, _, _, _) => LetMove(c, st, s);
    case Assign(name, value, loc) =>
      RequireStep(c, st, name, loc);
      var st' := Require(c, st, name, loc);
      Known(st, st', UseOk(g, name));
      ExprStep(c, st', value);
      Then(st, st', CheckStmt(c, st, s), UseOk(g, name), ExprOk(p, g, value));
      StepIsMove(st, CheckStmt(c, st, s), UseOk(g, name) && ExprOk(p, g, value));
    case Evaluate(_, operands) =>
      ExprsStep(c, st, operands);
      StepIsMove(st, CheckStmt(c, st, s), ExprsOk(p, g, operands));
    case Block(stmts) =>
      Pushed(st);
      StmtsMove(c, Push(st), stmts);
      var ok := StmtsOk(p, g + [map[]], stmts);
      Popped(c, st, CheckStmts(c, Push(st), stmts), ok, AfterAll(g + [map[]], stmts));
      StepIsMove(st, CheckStmt(c, st, s), ok);
    case While(_, _) => WhileMove(c, st, s);
    case ForRange(_, _, _, _, _) => ForRangeMove(c, st, s);
    case If(_, _, _) => IfMove(c, st, s);
    case Match(_, _, _) => MatchMove(c, st, s);
  }

  /** A condition before a body. */
  lemma CondThen(c: Context, st: State, cond: Expr, body: Stmt, x: bool, y: bool, after: Scopes)
    requires Inv(st) && Step(st, CheckExpr(c, st, cond), x)
    requires Move(CheckExpr(c, st, cond), CheckStmt(c, CheckExpr(c, st, cond), body), y, after)
    ensures Move(st, CheckStmt(c, CheckExpr(c, st, cond), body), x && y, after)
  {
    hide CheckExpr, CheckStmt;
  }

  lemma {:induction false} WhileMove(c: Context, st: State, s: Stmt)
    requires Inv(st) && Named(c.program) && s.While?
    ensures Move(st, CheckStmt(c, st, s), StmtOk(c.program, ScopesOf(st.env), s), After(ScopesOf(st.env), s))
    decreases s, 1
  {
    hide Step, Move, Inv, ScopesOf, Clean, Named, CheckExpr, ExprOk;
    var (p, g) := (c.program, ScopesOf(st.env));
    ExprStep(c, st, s.cond);
    Known(st, CheckExpr(c, st, s.cond), ExprOk(p, g, s.cond));
    StmtMove(c, CheckExpr(c, st, s.cond), s.body);
    CondThen(c, st, s.cond, s.body, ExprOk(p, g, s.cond), StmtOk(p, g, s.body), After(g, s.body));
  }

  lemma {:induction false} IfMove(c: Context, st: State, s: Stmt)
    requires Inv(st) && Named(c.program) && s.If?
    ensures Move(st, CheckStmt(c, st, s), StmtOk(c.program, ScopesOf(st.env), s), After(ScopesOf(st.env), s))
    decreases s, 1
  {
    hide Step, Move, Inv, ScopesOf, Clean, Named, CheckExpr, ExprOk;
    var (p, g) := (c.program, ScopesOf(st.env));
    ExprStep(c, st, s.cond);
    var st1 := CheckExpr(c, st, s.cond);
    var x := ExprOk(p, g, s.cond);
    Known(st, st1, x);
    StmtMove(c, st1, s.body);
    var st2, g2 := CheckStmt(c, st1, s.body), After(g, s.body);
    var y := StmtOk(p, g, s.body);
    CondThen(c, st, s.cond, s.body, x, y, g2);
    Moved(st, st2, x && y, g2);
    StmtMove(c, st2, s.els);
    MoveThen(st, st2, CheckStmt(c, st, s), x && y, g2,
             StmtOk(p, ScopesOf(st2.env), s.els), After(ScopesOf(st2.env), s.els), StmtOk(p, g2, s.els), After(g2, s.els));
  }

  lemma {:induction false} LetMove(c: Context, st: State, s: Stmt)
    requires Inv(st) && Named(c.program) && s.Let?
    ensures Move(st, CheckStmt(c, st, s), StmtOk(c.program, ScopesOf(st.env), s), After(ScopesOf(st.env), s))
    decreases s, 1
  {
    hide Step, Move, Inv, ScopesOf, Clean, Named, CheckExpr, ExprOk, Declare, Declared, Fresh, MarkMutable;
    var (p, g) := (c.program, ScopesOf(st.env));
    ExprStep(c, st, s.init);
    var st1 := CheckExpr(c, st, s.init);
    var x := ExprOk(p, g, s.init);
    Known(st, st1, x);
    StepIsMove(st, st1, x);
    DeclareMove(c, st1, s.name, s.loc);
    var st2 := Declare(c, st1, s.name, s.loc);
    var y := Fresh(g, s.name);
    MoveThen(st, st1, st2, x, g, y, Declared(g, s.name), y, Declared(g, s.name));
    if s.isMut {
      MutableMove(st, st2, s, x && y);
    } else {
      assert After(g, s) == Declared(g, s.name) by { LetAfter(g, s); }
    }
  }

  lemma LetAfter(g: Scopes, s: Stmt)
    requires s.Let? && !s.isMut
    ensures After(g, s) == Declared(g, s.name)
  {
  }

  lemma ExtendTwice(g: Scopes, name: string)
    ensures Extend(Extend(g, name, false), name, true) == Extend(g, name, true)
  {
    if g != [] {
      var m := g[|g| - 1];
      assert m[name := false][name := true] == m[name := true];
    }
  }

  lemma MutableMove(st: State, st2: State, s: Stmt, ok: bool)
    requires Inv(st) && s.Let? && s.isMut
    requires Move(st, st2, ok, Declared(ScopesOf(st.env), s.name))
    ensures Move(st, st2.(env := MarkMutable(st2.env, s.name)), ok, After(ScopesOf(st.env), s))
  {
    hide MarkMutable, NamesOf, ReportOk;
    MarkMutableScopes(st2.env, s.name);
    var g := ScopesOf(st.env);
    if s.name != "_" {
      ExtendTwice(g, s.name);
    }
  }

  lemma {:induction false} ForRangeMove(c: Context, st: State, s: Stmt)
    requires Inv(st) && Named(c.program) && s.ForRange?
    ensures Move(st, CheckForRange(c, st, s), StmtOk(c.program, ScopesOf(st.env), s), ScopesOf(st.env))
    decreases s, 1
  {
    hide Step, Move, Inv, ScopesOf, Clean, Named, CheckExpr, ExprOk, Declare, Declared, Fresh, Push, Pop, ReportError, Bound;
    var (p, g) := (c.program, ScopesOf(st.env));
    var st0 := CheckExpr(c, st, s.from);
    ExprStep(c, st, s.from);
    Known(st, st0, ExprOk(p, g, s.from));
    var st1 := CheckExpr(c, st0, s.to);
    ExprStep(c, st0, s.to);
    var x := ExprOk(p, g, s.from) && ExprOk(p, g, s.to);
    Then(st, st0, st1, ExprOk(p, g, s.from), ExprOk(p, g, s.to));
    Known(st, st1, x);
    LookupIsBound(st1.env, s.name);
    var message := "for iterator '" + s.name + "' conflicts with existing symbol";
    var y := !Bound(g, s.name);
    var st2 := if y then st1 else ReportError(c, st1, "NameError", message, s.loc, |s.name|);
    if y { Stay(st1); } else { ErrorStep(c, st1, "NameError", message, s.loc, |s.name|); }
    Then(st, st1, st2, x, y);
    Known(st, st2, x && y);
    ForBodyStep(c, st2, s);
    var st3 := Pop(c, CheckStmt(c, Declare(c, Push(st2), s.name, s.loc), s.body));
    var z := StmtOk(p, Declared(g + [map[]], s.name), s.body);
    Then(st, st2, st3, x && y, z);
    StepIsMove(st, st3, x && y && z);
  }

  /** A new scope is empty, so the iterator itself is never a duplicate in it. */
  lemma {:induction false} ForBodyStep(c: Context, st: State, s: Stmt)
    requires Inv(st) && Named(c.program) && s.ForRange?
    ensures Step(st, Pop(c, CheckStmt(c, Declare(c, Push(st), s.name, s.loc), s.body)),
                 StmtOk(c.program, Declared(ScopesOf(st.env) + [map[]], s.name), s.body))
    decreases s, 0
  {
    hide Step, Move, Inv, ScopesOf, Clean, Named, CheckStmt, StmtOk, Declare, Declared, Push, Pop;
    var (p, g) := (c.program, ScopesOf(st.env) + [map[]]);
    Pushed(st);
    var st1 := Push(st);
    DeclareMove(c, st1, s.name, s.loc);
    var st2, g2 := Declare(c, st1, s.name, s.loc), Declared(g, s.name);
    assert Fresh(g, s.name);
    Moved(st1, st2, true, g2);
    StmtMove(c, st2, s.body);
    var st3 := CheckStmt(c, st2, s.body);
    MoveThen(st1, st2, st3, true, g2, StmtOk(p, ScopesOf(st2.env), s.body), After(ScopesOf(st2.env), s.body),
             StmtOk(p, g2, s.body), After(g2, s.body));
    Popped(c, st, st3, StmtOk(p, g2, s.body), After(g2, s.body));
  }

  lemma {:induction false} MatchMove(c: Context, st: State, s: Stmt)
    requires Inv(st) && Named(c.program) && s.Match?
    ensures Move(st, CheckStmt(c, st, s), StmtOk(c.program, ScopesOf(st.env), s), After(ScopesOf(st.env), s))
    decreases s, 1
  {
    hide Step, Move, Inv, ScopesOf, Clean, Named, CheckExpr, ExprOk, CheckExhaustive, Exhaustive;
    var (p, g) := (c.program, ScopesOf(st.env));
    ExprStep(c, st, s.subject);
    var st1 := CheckExpr(c, st, s.subject);
    var x := ExprOk(p, g, s.subject);
    Known(st, st1, x);
    var patterns := StmtPatternsOf(s.arms);
    ExhaustiveStep(c, st1, patterns, s.loc);
    var st2 := CheckExhaustive(c, st1, patterns, s.loc);
    var y := Exhaustive(p, patterns);
    Then(st, st1, st2, x, y);
    Known(st, st2, x && y);
    StmtArmsStep(c, st2, s.arms);
    Then(st, st2, CheckStmt(c, st, s), x && y, StmtArmsOk(p, g, s.arms));
    StepIsMove(st, CheckStmt(c, st, s), x && y && StmtArmsOk(p, g, s.arms));
  }

  lemma {:induction false} StmtsMove(c: Context, st: State, ss: seq<Stmt>)
    requires Inv(st) && Named(c.program)
    ensures Move(st, CheckStmts(c, st, ss), StmtsOk(c.program, ScopesOf(st.env), ss), AfterAll(ScopesOf(st.env), ss))
    decreases ss, 0
  {
    hide Step, Move, Inv, ScopesOf, Clean, Named, CheckStmt, StmtOk, After;
    var (p, g) := (c.program, ScopesOf(st.env));
    if ss == [] {
      StayMove(st);
    } else {
      StmtMove(c, st, ss[0]);
      var st', g' := CheckStmt(c, st, ss[0]), After(g, ss[0]);
      Moved(st, st', StmtOk(p, g, ss[0]), g');
      StmtsMove(c, st', ss[1..]);
      MoveThen(st, st', CheckStmts(c, st, ss), StmtOk(p, g, ss[0]), g',
               StmtsOk(p, ScopesOf(st'.env), ss[1..]), AfterAll(ScopesOf(st'.env), ss[1..]),
               StmtsOk(p, g', ss[1..]), AfterAll(g', ss[1..]));
    }
  }

  lemma {:induction false} StmtArmsStep(c: Context, st: State, arms: seq<StmtArm>)
    requires Inv(st) && Named(c.program)
    ensures Step(st, CheckStmtArms(c, st, arms), StmtArmsOk(c.program, ScopesOf(st.env), arms))
    decreases arms, 0
  {
    hide Step, Inv, ScopesOf, Clean, Named, CheckStmtArm, StmtArmOk;
    var (p, g) := (c.program, ScopesOf(st.env));
    if arms == [] {
      Stay(st);
    } else {
      StmtArmStep(c, st, arms[0]);
      var st' := CheckStmtArm(c, st, arms[0]);
      Known(st, st', StmtArmOk(p, g, arms[0]));
      StmtArmsStep(c, st', arms[1..]);
      Then(st, st', CheckStmtArms(c, st, arms), StmtArmOk(p, g, arms[0]), StmtArmsOk(p, g, arms[1..]));
    }
  }

  lemma {:induction false} StmtArmStep(c: Context, st: State, arm: StmtArm)
    requires Inv(st) && Named(c.program)
    ensures Step(st, CheckStmtArm(c, st, arm), StmtArmOk(c.program, ScopesOf(st.env), arm))
    decreases arm, 0
  {
    hide Step, Move, Inv, ScopesOf, Clean, Named, CheckPattern, PatternOk, CheckStmt, StmtOk, Push, Pop, DeclareAll, Binders,
         BindersOk, DeclaredAll;
    var (p, g) := (c.program, ScopesOf(st.env));
    PatternStep(c, st, arm.pattern);
    var x := PatternOk(p, g, arm.pattern);
    var st1 := CheckPattern(c, st, arm.pattern);
    Known(st, st1, x);
    Pushed(st1);
    var st2, g2 := Push(st1), g + [map[]];
    var binders := Binders(p, arm.pattern);
    DeclareAllMove(c, st2, binders);
    var st3, g3 := DeclareAll(c, st2, binders), DeclaredAll(binders, g2);
    Moved(st2, st3, BindersOk(binders, g2), g3);
    StmtMove(c, st3, arm.body);
    var st4 := CheckStmt(c, st3, arm.body);
    MoveThen(st2, st3, st4, BindersOk(binders, g2), g3, StmtOk(p, ScopesOf(st3.env), arm.body), After(ScopesOf(st3.env), arm.body),
             StmtOk(p, g3, arm.body), After(g3, arm.body));
    var y := BindersOk(binders, g2) && StmtOk(p, g3, arm.body);
    Popped(c, st1, st4, y, After(g3, arm.body));
    Then(st, st1, Pop(c, st4), x, y);
  }

  lemma {:induction false} BlockMove(c: Context, st: State, s: Stmt)
    requires Inv(st) && Named(c.program)
    ensures Move(st, CheckBlockHere(c, st, s), BlockOk(c.program, ScopesOf(st.env), s), BlockAfter(ScopesOf(st.env), s))
    decreases s, 3
  {
    hide Step, Move, Inv, ScopesOf, Clean, Named, CheckStmt, StmtOk, After;
    if s.Block? {
      StmtsMove(c, st, s.stmts);
    } else {
      StmtMove(c, st, s);
    }
  }

  // ----- the main results -----

  /** The checker accepts exactly the programs that obey the rules: from no errors, it
      stays at no errors iff the body is well scoped. From some errors, it never
      returns to none. */
  lemma CheckerAcceptsExactlyTheWellScoped(c: Context, r: Report, globals: seq<string>, params: seq<string>,
                                           captures: seq<string>, body: Stmt)
    requires ReportOk(r) && Named(c.program)
    ensures var st := CheckFunctionBody(c, r, globals, params, captures, body);
            && ReportOk(st.report)
            && (st.report.errors == 0 <==>
                  r.errors == 0 && StmtOk(c.program, [Immutable(Elements(globals + params + captures))], body))
  {
    hide StmtOk, CheckStmt;
    var names := globals + params + captures;
    var env := StartEnv(globals, params, captures);
    StartScopes(globals, params, captures);
    StmtMove(c, State(env, r), body);
  }

  function Elements(names: seq<string>): set<string> {
    set x | x in names
  }

  function Immutable(names: set<string>): Declarations {
    map n | n in names :: false
  }

  lemma {:induction false} ExistingScopes(env: Env, names: seq<string>, known: set<string>)
    requires |env| == 1 && Distinct(env[0]) && NamesOf(env[0]) == Immutable(known)
    ensures var env' := DeclareAllExisting(env, names);
            |env'| == 1 && Distinct(env'[0]) && NamesOf(env'[0]) == Immutable(known + Elements(names))
    decreases names
  {
    hide NamesOf;
    if names == [] {
      assert known + Elements(names) == known;
    } else {
      var env1 := DeclareExisting(env, names[0]);
      NamesOfFrame(env[0], names[0]);
      var known1 := known + {names[0]};
      var b := Binding(names[0], false, false, Loc(0, 0), false);
      Appended(env[0], b);
      assert NamesOf(env1[0]) == Immutable(known1);
      ExistingScopes(env1, names[1..], known1);
      assert known1 + Elements(names[1..]) == known + Elements(names) by {
        assert names == [names[0]] + names[1..];
      }
    }
  }

  lemma StartScopes(globals: seq<string>, params: seq<string>, captures: seq<string>)
    ensures var env := StartEnv(globals, params, captures);
            EnvOk(env) && ScopesOf(env) == [Immutable(Elements(globals + params + captures))]
  {
    hide NamesOf, DeclareAllExisting, Immutable, FindFirst;
    var env0: Env := [[]];
    NoNames();
    ExistingScopes(env0, globals, {});
    var env1 := DeclareAllExisting(env0, globals);
    ExistingScopes(env1, params, {} + Elements(globals));
    var env2 := DeclareAllExisting(env1, params);
    ExistingScopes(env2, captures, {} + Elements(globals) + Elements(params));
    assert {} + Elements(globals) + Elements(params) + Elements(captures) == Elements(globals + params + captures);
  }

  lemma NoNames()
    ensures NamesOf([]) == Immutable({})
  {
  }

  /** Whatever it reports, a statement leaves the stack as deep as it was, the outer
      scopes as they were, and the innermost with at least the names it had. */
  lemma TraversalRestoresScopes(c: Context, st: State, s: Stmt)
    requires Inv(st) && Named(c.program)
    ensures Inv(CheckStmt(c, st, s)) && Kept(ScopesOf(st.env), ScopesOf(CheckStmt(c, st, s).env))
    ensures st.report.errors > 0 ==> CheckStmt(c, st, s).report.errors > 0
  {
    StmtMove(c, st, s);
  }
}
