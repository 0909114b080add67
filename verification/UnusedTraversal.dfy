/**
  In a body that is well scoped, the warnings are exactly those for the declarations that no
  use resolves to.
 */
module UnusedTraversal {
  import opened Scoping
  import opened ScopeRules
  import opened ScopeFacts
  import opened ScopeProof
  import opened ScopeTraversal
  import opened UnusedRules
  import opened UnusedFrames

  /** No error so far. */
  ghost predicate Good(st: State) {
    Inv(st) && Clean(st)
  }

  /** What something without declarations of its own leaves: marks for its uses, warnings for
      the scopes inside it. */
  ghost predicate Saw(c: Context, a: State, b: State, uses: set<string>, unused: set<Decl>) {
    Grown(a.env, b.env, uses) && Added(a.env, b.env) == [] && Recorded(c, a.report, b.report, unused)
  }

  /** And what something leaves that may declare names: of those, the idle ones are still to
      be reported if nothing later uses them. */
  ghost predicate Grew(c: Context, a: State, b: State, uses: set<string>, names: set<string>, later: set<string>,
                       idle: set<Decl>, unused: set<Decl>)
  {
    && Grown(a.env, b.env, uses) && FrameNames(Added(a.env, b.env)) == names
    && UnusedOf(Added(a.env, b.env), later) == idle
    && Recorded(c, a.report, b.report, unused)
  }

  lemma SawNothing(c: Context, st: State)
    requires Inv(st)
    ensures Saw(c, st, st, {}, {})
  {
    SameGrown(st.env);
    NothingRecorded(c, st.report);
  }

  lemma SawIsGrew(c: Context, a: State, b: State, uses: set<string>, later: set<string>, unused: set<Decl>)
    requires Saw(c, a, b, uses, unused)
    ensures Grew(c, a, b, uses, {}, later, {}, unused)
  {
  }

  lemma GrewIsSaw(c: Context, a: State, b: State, uses: set<string>, later: set<string>, idle: set<Decl>, unused: set<Decl>)
    requires Grew(c, a, b, uses, {}, later, idle, unused)
    ensures Saw(c, a, b, uses, unused) && idle == {}
  {
    var f := Added(a.env, b.env);
    SomeName(f);
  }

  lemma SomeName(f: Frame)
    ensures f != [] ==> FrameNames(f) != {}
  {
    if f != [] { assert f[0].name in FrameNames(f); }
  }

  lemma GrewThen(c: Context, a: State, b: State, d: State, u1: set<string>, n1: set<string>, idle1: set<Decl>,
                 unused1: set<Decl>, u2: set<string>, n2: set<string>, later: set<string>, idle2: set<Decl>,
                 unused2: set<Decl>)
    requires Inv(b) && Grew(c, a, b, u1, n1, u2 + later, idle1, unused1) && Grew(c, b, d, u2, n2, later, idle2, unused2)
    ensures Grew(c, a, d, u1 + (u2 - n1), n1 + n2, later, idle1 + idle2, unused1 + unused2)
  {
    hide Grown, Added, FrameNames, UnusedOf, Recorded;
    AddedThen(a.env, b.env, d.env, u1, u2, later);
    RecordedThen(c, a.report, b.report, d.report, unused1, unused2);
  }

  lemma SawThen(c: Context, a: State, b: State, d: State, u1: set<string>, unused1: set<Decl>, u2: set<string>, unused2: set<Decl>)
    requires Inv(b) && Saw(c, a, b, u1, unused1) && Saw(c, b, d, u2, unused2)
    ensures Saw(c, a, d, u1 + u2, unused1 + unused2)
  {
    hide Saw, Grew;
    SawIsGrew(c, a, b, u1, u2 + {}, unused1);
    SawIsGrew(c, b, d, u2, {}, unused2);
    GrewThen(c, a, b, d, u1, {}, {}, unused1, u2, {}, {}, {}, unused2);
    var none: set<string>, nothing: set<Decl> := {}, {};
    assert none + none == none && nothing + nothing == nothing && u1 + (u2 - none) == u1 + u2;
    GrewIsSaw(c, a, d, u1 + u2, {}, nothing, unused1 + unused2);
  }

  /** Something without declarations, and then something that may declare. */
  lemma SawThenGrew(c: Context, a: State, b: State, d: State, u1: set<string>, unused1: set<Decl>,
                    u2: set<string>, n2: set<string>, later: set<string>, idle2: set<Decl>, unused2: set<Decl>)
    requires Inv(b) && Saw(c, a, b, u1, unused1) && Grew(c, b, d, u2, n2, later, idle2, unused2)
    ensures Grew(c, a, d, u1 + u2, n2, later, idle2, unused1 + unused2)
  {
    hide Saw, Grew;
    SawIsGrew(c, a, b, u1, u2 + later, unused1);
    GrewThen(c, a, b, d, u1, {}, {}, unused1, u2, n2, later, idle2, unused2);
    assert u1 + (u2 - {}) == u1 + u2 && {} + n2 == n2 && {} + idle2 == idle2;
  }

  /** Leaving a scope reports what is idle in it. */
  lemma PoppedSaw(c: Context, st: State, inner: State, uses: set<string>, names: set<string>, idle: set<Decl>, unused: set<Decl>)
    requires Inv(st) && Clean(inner) && Grew(c, Push(st), inner, uses, names, {}, idle, unused)
    ensures Saw(c, st, Pop(c, inner), uses, unused + idle)
  {
    hide UnusedOf, Recorded, WarnUnused, FrameNames, Grown, Below, Top;
    PushedDepth(st, inner, uses);
    PoppedIsGrown(st.env, inner.env, uses);
    FrameIsRecorded(c, inner.report, Top(inner.env));
    RecordedThen(c, st.report, inner.report, WarnUnused(c, inner.report, Top(inner.env)), unused, idle);
  }

  lemma PushedDepth(st: State, inner: State, uses: set<string>)
    requires Inv(st) && Grown(Push(st).env, inner.env, uses)
    ensures |inner.env| > 1 && Push(st).env == st.env + [[]] && Push(st).report == st.report
  {
  }

  // ----- operations that find nothing wrong -----

  lemma UseSaw(c: Context, st: State, name: string, loc: Loc)
    requires Good(st) && UseOk(ScopesOf(st.env), name)
    ensures Saw(c, st, Use(c, st, name, loc), {name}, {})
  {
    hide Grown, Added, Recorded, MarkUsed, Lookup, Bound;
    RequireIsQuiet(c, st, name, loc);
    MarkedIsGrown(st.env, name);
    NothingRecorded(c, st.report);
  }

  lemma RequireIsQuiet(c: Context, st: State, name: string, loc: Loc)
    requires UseOk(ScopesOf(st.env), name)
    ensures Require(c, st, name, loc) == st
  {
    LookupIsBound(st.env, name);
  }

  lemma {:induction false} CapturesSaw(c: Context, st: State, names: seq<string>, loc: Loc)
    requires Good(st) && CapturesOk(c.program, ScopesOf(st.env), names)
    ensures Saw(c, st, CheckCaptures(c, st, names, loc), NameSet(names), {})
    decreases names
  {
    hide Saw, CheckCapture, CaptureOk, ScopesOf, Good;
    GoodIs(st);
    if names == [] {
      SawNothing(c, st);
      assert NameSet(names) == {};
    } else {
      var st' := CheckCapture(c, st, names[0], loc);
      CaptureSaw(c, st, names[0], loc);
      GoodIs(st');
      CapturesSaw(c, st', names[1..], loc);
      SawThen(c, st, st', CheckCaptures(c, st, names, loc), {names[0]}, {}, NameSet(names[1..]), {});
      assert names == [names[0]] + names[1..];
      var nothing: set<Decl> := {};
      assert nothing + nothing == nothing;
      assert {names[0]} + NameSet(names[1..]) == NameSet(names);
    }
  }

  lemma CaptureSaw(c: Context, st: State, name: string, loc: Loc)
    requires Good(st) && CaptureOk(c.program, ScopesOf(st.env), name)
    ensures var b := CheckCapture(c, st, name, loc); Good(b) && ScopesOf(b.env) == ScopesOf(st.env) && Saw(c, st, b, {name}, {})
  {
    hide Grown, Added, Recorded, MarkUsed, Lookup, Bound, MutableIn, IsFunction, IsVariant, ScopesOf, Inv;
    CaptureStep(c, st, name, loc);
    LookupIsBound(st.env, name);
    MarkedIsGrown(st.env, name) by { assert EnvOk(st.env) by { InvEnv(st); } }
    NothingRecorded(c, st.report);
    if Lookup(st.env, name).None? { NotMarked(st.env, name); }
  }

  lemma InvEnv(st: State)
    requires Inv(st)
    ensures EnvOk(st.env)
  {
  }

  lemma NotMarked(env: Env, name: string)
    requires Lookup(env, name).None?
    ensures MarkUsed(env, name) == env
  {
  }

  lemma GenericIsQuiet(c: Context, st: State, text: string, typeArgs: nat, loc: Loc)
    requires GenericOk(c.program, text, typeArgs)
    ensures CheckGenericCall(c, st, text, typeArgs, loc) == st
  {
  }

  lemma ExhaustiveIsQuiet(c: Context, st: State, patterns: seq<Expr>, loc: Loc)
    requires Named(c.program) && Exhaustive(c.program, patterns)
    ensures CheckExhaustive(c, st, patterns, loc) == st
  {
    hide Missing, Names, ReportError;
    var a := MatchedAdt(c.program, patterns);
    if NoExpr !in patterns && a.Some? { MissingIsEmpty(patterns, c.program.adts[a.value].variants, ""); }
  }

  lemma {:induction false} RepeatsAreQuiet(c: Context, st: State, e: Expr, i: nat, j: nat)
    requires e.StructLiteral? && i < |e.fields| && NoRepeat(e.fields, i, j)
    ensures CheckRepeats(c, st, e, i, j) == st
    decreases |e.fields| - j
  {
    if j < |e.fields| { RepeatsAreQuiet(c, st, e, i, j + 1); }
  }

  lemma {:induction false} InitialisersAreQuiet(c: Context, st: State, e: Expr, decl: Struct, i: nat)
    requires e.StructLiteral? && InitialisersOk(e.fields, decl, i)
    ensures CheckInitialisers(c, st, e, decl, i) == st
    decreases |e.fields| - i
  {
    if i < |e.fields| {
      InitialisersFrom(e.fields, decl, i);
      RepeatsAreQuiet(c, st, e, i, i + 1);
      InitialisersAreQuiet(c, st, e, decl, i + 1);
    }
  }

  lemma {:induction false} NoneMissingIsQuiet(c: Context, st: State, e: Expr, decl: Struct, i: nat)
    requires e.StructLiteral? && PresentFrom(e.fields, decl, i)
    ensures CheckMissing(c, st, e, decl, i) == st
    decreases |decl.fields| - i
  {
    if i < |decl.fields| { NoneMissingIsQuiet(c, st, e, decl, i + 1); }
  }

  lemma StructIsQuiet(c: Context, st: State, e: Expr)
    requires e.StructLiteral? && StructOk(c.program, e)
    ensures CheckStructFields(c, st, e) == st
  {
    hide StructOk;
    var s := FindStruct(c.program.structs, e.text);
    assert s.Some? by { StructIsDeclared(c.program, e); }
    var decl := c.program.structs[s.value];
    FieldsOk(c.program, e, decl);
    InitialisersAreQuiet(c, st, e, decl, 0);
    NoneMissingIsQuiet(c, st, e, decl, 0);
  }

  lemma StructIsDeclared(p: Program, e: Expr)
    requires e.StructLiteral? && StructOk(p, e)
    ensures FindStruct(p.structs, e.text).Some?
  {
  }

  // ----- declarations -----

  lemma DeclareGrew(c: Context, st: State, name: string, loc: Loc, later: set<string>)
    requires Good(st) && Fresh(ScopesOf(st.env), name)
    ensures var b := Declare(c, st, name, loc);
            Good(b) && ScopesOf(b.env) == Declared(ScopesOf(st.env), name)
            && Grew(c, st, b, {}, Name(name), later, Unless(name, loc, later), {})
  {
    hide NamesOf, Grown, Added, Recorded, ScopesOf;
    DeclareMove(c, st, name, loc);
    NothingRecorded(c, st.report);
    SameGrown(st.env);
    if name != "_" {
      FreshIsNotFound(st.env, name);
      var b := Binding(name, false, false, loc, true);
      AddIsGrown(st.env, b);
      OneIs(b, later);
    } else {
      NoneIs(later);
    }
  }

  lemma OneIs(b: Binding, later: set<string>)
    requires b.warn && !b.used
    ensures FrameNames([b]) == {b.name}
    ensures UnusedOf([b], later) == if b.name in later then {} else {(b.name, b.loc)}
  {
    assert [b][0] == b;
    forall d | d in UnusedOf([b], later) ensures d == (b.name, b.loc) && b.name !in later {
    }
    if b.name !in later { assert ([b][0].name, [b][0].loc) in UnusedOf([b], later); }
  }

  lemma NoneIs(later: set<string>)
    ensures FrameNames([]) == {} && UnusedOf([], later) == {}
  {
  }

  lemma {:induction false} DeclareAllGrew(c: Context, st: State, names: seq<Expr>, later: set<string>)
    requires Good(st) && (forall i :: 0 <= i < |names| ==> names[i].Ident?) && BindersOk(names, ScopesOf(st.env))
    ensures var b := DeclareAll(c, st, names);
            Good(b) && ScopesOf(b.env) == DeclaredAll(names, ScopesOf(st.env))
            && Grew(c, st, b, {}, BinderNames(names), later, IdleBinders(names, later), {})
    decreases names
  {
    hide Good, Grew, Declare, Fresh, ScopesOf, Declared, Name, Unless;
    if names == [] {
      GoodIs(st);
      SawNothing(c, st);
      SawIsGrew(c, st, st, {}, later, {});
    } else {
      var st' := Declare(c, st, names[0].text, names[0].loc);
      DeclareGrew(c, st, names[0].text, names[0].loc, {} + later);
      DeclareAllGrew(c, st', names[1..], later);
      GoodIs(st');
      GrewThen(c, st, st', DeclareAll(c, st, names), {}, Name(names[0].text), Unless(names[0].text, names[0].loc, {} + later), {},
               {}, BinderNames(names[1..]), later, IdleBinders(names[1..], later), {});
      var none: set<string> := {};
      assert none + later == later && none + (none - Name(names[0].text)) == none;
    }
  }

  lemma GoodIs(st: State)
    requires Good(st)
    ensures Inv(st) && Clean(st)
  {
  }

  // ----- that nothing wrong is found -----

  lemma ExprGood(c: Context, st: State, e: Expr)
    requires Good(st) && Named(c.program) && ExprOk(c.program, ScopesOf(st.env), e)
    ensures Good(CheckExpr(c, st, e)) && ScopesOf(CheckExpr(c, st, e).env) == ScopesOf(st.env)
  {
    hide ExprOk, CheckExpr, Inv, ScopesOf;
    ExprStep(c, st, e);
  }

  lemma ExprsGood(c: Context, st: State, es: seq<Expr>)
    requires Good(st) && Named(c.program) && ExprsOk(c.program, ScopesOf(st.env), es)
    ensures Good(CheckExprs(c, st, es)) && ScopesOf(CheckExprs(c, st, es).env) == ScopesOf(st.env)
  {
    hide ExprsOk, CheckExprs, Inv, ScopesOf;
    ExprsStep(c, st, es);
  }

  lemma ArmGood(c: Context, st: State, arm: ExprArm)
    requires Good(st) && Named(c.program) && ArmOk(c.program, ScopesOf(st.env), arm)
    ensures Good(CheckArm(c, st, arm)) && ScopesOf(CheckArm(c, st, arm).env) == ScopesOf(st.env)
  {
    hide ArmOk, CheckArm, Inv, ScopesOf;
    ArmStep(c, st, arm);
  }

  lemma PatternGood(c: Context, st: State, e: Expr)
    requires Good(st) && Named(c.program) && PatternOk(c.program, ScopesOf(st.env), e)
    ensures Good(CheckPattern(c, st, e)) && ScopesOf(CheckPattern(c, st, e).env) == ScopesOf(st.env)
  {
    hide PatternOk, CheckPattern, Inv, ScopesOf;
    PatternStep(c, st, e);
  }

  lemma StmtGood(c: Context, st: State, s: Stmt)
    requires Good(st) && Named(c.program) && StmtOk(c.program, ScopesOf(st.env), s)
    ensures Good(CheckStmt(c, st, s)) && ScopesOf(CheckStmt(c, st, s).env) == After(ScopesOf(st.env), s)
  {
    hide StmtOk, CheckStmt, After, Inv, ScopesOf, Kept;
    StmtMove(c, st, s);
  }

  lemma StmtsGood(c: Context, st: State, ss: seq<Stmt>)
    requires Good(st) && Named(c.program) && StmtsOk(c.program, ScopesOf(st.env), ss)
    ensures Good(CheckStmts(c, st, ss)) && ScopesOf(CheckStmts(c, st, ss).env) == AfterAll(ScopesOf(st.env), ss)
  {
    hide StmtsOk, CheckStmts, AfterAll, Inv, ScopesOf, Kept;
    StmtsMove(c, st, ss);
  }

  lemma StmtArmGood(c: Context, st: State, arm: StmtArm)
    requires Good(st) && Named(c.program) && StmtArmOk(c.program, ScopesOf(st.env), arm)
    ensures Good(CheckStmtArm(c, st, arm)) && ScopesOf(CheckStmtArm(c, st, arm).env) == ScopesOf(st.env)
  {
    hide StmtArmOk, CheckStmtArm, Inv, ScopesOf;
    StmtArmStep(c, st, arm);
  }

  lemma BlockGood(c: Context, st: State, s: Stmt)
    requires Good(st) && Named(c.program) && BlockOk(c.program, ScopesOf(st.env), s)
    ensures Good(CheckBlockHere(c, st, s)) && ScopesOf(CheckBlockHere(c, st, s).env) == BlockAfter(ScopesOf(st.env), s)
  {
    hide BlockOk, CheckBlockHere, BlockAfter, Inv, ScopesOf, Kept;
    BlockMove(c, st, s);
  }

  lemma PushGood(st: State)
    requires Good(st)
    ensures Good(Push(st)) && ScopesOf(Push(st).env) == ScopesOf(st.env) + [map[]]
  {
    hide ScopesOf, Inv;
    Pushed(st);
  }

  // ----- expressions -----

  lemma {:induction false} ExprSaw(c: Context, st: State, e: Expr)
    requires Good(st) && Named(c.program) && ExprOk(c.program, ScopesOf(st.env), e)
    ensures Saw(c, st, CheckExpr(c, st, e), Uses(c.program, false, e), Unused(c.program, false, e))
    decreases e, 2
  {
    hide Saw, Good, Named, ScopesOf, Use, UseOk, IsFunction, IsVariant, CheckStructFields, StructOk, CheckCall, CheckCaptures,
         CaptureOk, Pop, Push;
    GoodIs(st);
    match e
    case NoExpr => SawNothing(c, st);
    case Literal(_) => SawNothing(c, st);
    case Ident(t, loc) =>
      if IsVariant(c.program, t) || IsFunction(c.program, t) { SawNothing(c, st); } else { UseSaw(c, st, t, loc); }
    case Addr(t, loc) => UseSaw(c, st, t, loc);
    case Operator(_, _, operands) => ExprsSaw(c, st, operands);
    case OptionOf(_, inner) => ExprSaw(c, st, inner);
    case StructLiteral(_, _, args, _) =>
      StructIsQuiet(c, st, e);
      ExprsSaw(c, st, args);
    case Call(_, _, _, _, _) => CallSaw(c, st, e);
    case Lambda(_, captures, loc) => CapturesSaw(c, st, captures, loc);
    case MatchOf(_, _, _) => MatchSaw(c, st, e);
    case BlockOf(_, _) => BlockExprSaw(c, st, e);
  }

  lemma {:induction false} CallSaw(c: Context, st: State, e: Expr)
    requires Good(st) && Named(c.program) && e.Call? && ExprOk(c.program, ScopesOf(st.env), e)
    ensures Saw(c, st, CheckCall(c, st, e), Uses(c.program, false, e), Unused(c.program, false, e))
    decreases e, 1
  {
    hide Saw, Good, Named, ScopesOf, IsFunction, IsVariant, Bound, CheckGenericCall, GenericOk, ReportError, Lookup;
    var p := c.program;
    if e.callee != NoExpr {
      var st1 := CheckExpr(c, st, e.callee);
      ExprSaw(c, st, e.callee);
      ExprGood(c, st, e.callee);
      ExprsSaw(c, st1, e.args);
      GoodIs(st1);
      SawThen(c, st, st1, CheckCall(c, st, e), Uses(p, false, e.callee), Unused(p, false, e.callee),
              UsesOfAll(p, false, e.args), UnusedInAll(p, false, e.args));
    } else {
      LookupIsBound(st.env, e.text);
      if e.text != "clone" { GenericIsQuiet(c, st, e.text, e.typeArgs, e.loc); }
      ExprsSaw(c, st, e.args);
      assert {} + UsesOfAll(p, false, e.args) == UsesOfAll(p, false, e.args);
      assert Unused(p, false, e.callee) + UnusedInAll(p, false, e.args) == UnusedInAll(p, false, e.args);
    }
  }

  lemma {:induction false} MatchSaw(c: Context, st: State, e: Expr)
    requires Good(st) && Named(c.program) && e.MatchOf? && ExprOk(c.program, ScopesOf(st.env), e)
    ensures Saw(c, st, CheckExpr(c, st, e), Uses(c.program, false, e), Unused(c.program, false, e))
    decreases e, 1
  {
    hide Saw, Good, Named, ScopesOf, CheckExhaustive, Exhaustive;
    var p := c.program;
    var st1 := CheckExpr(c, st, e.subject);
    ExprSaw(c, st, e.subject);
    ExprGood(c, st, e.subject);
    GoodIs(st1);
    ExhaustiveIsQuiet(c, st1, PatternsOf(e.arms), e.loc);
    ArmsSaw(c, st1, e.arms);
    SawThen(c, st, st1, CheckExpr(c, st, e), Uses(p, false, e.subject), Unused(p, false, e.subject),
            UsesOfArms(p, false, e.arms), UnusedInArms(p, false, e.arms));
  }

  lemma {:induction false} BlockExprSaw(c: Context, st: State, e: Expr)
    requires Good(st) && Named(c.program) && e.BlockOf? && ExprOk(c.program, ScopesOf(st.env), e)
    ensures Saw(c, st, CheckExpr(c, st, e), Uses(c.program, false, e), Unused(c.program, false, e))
    decreases e, 1
  {
    hide Saw, Grew, Good, Named, ScopesOf, Push, Pop, CheckBlockHere, BlockOk, BlockAfter, BlockNames, IdleOfBlock;
    var p := c.program;
    GoodIs(st);
    PushGood(st);
    var st0 := Push(st);
    var uses, unused := Uses(p, false, e.value), Unused(p, false, e.value);
    var st1 := CheckBlockHere(c, st0, e.body);
    BlockGrew(c, st0, e.body, uses + {});
    BlockGood(c, st0, e.body);
    GoodIs(st1);
    var st2 := CheckExpr(c, st1, e.value);
    ExprSaw(c, st1, e.value);
    ExprGood(c, st1, e.value);
    GoodIs(st2);
    SawIsGrew(c, st1, st2, uses, {}, unused);
    assert uses + {} == uses;
    var names, idle := BlockNames(e.body), IdleOfBlock(p, false, e.body, uses);
    GrewThen(c, st0, st1, st2, UsesOfBlock(p, false, e.body), names, idle, UnusedInBlock(p, false, e.body), uses, {}, {}, {}, unused);
    assert names + {} == names && idle + {} == idle;
    PoppedSaw(c, st, st2, UsesOfBlock(p, false, e.body) + (uses - names), names, idle, UnusedInBlock(p, false, e.body) + unused);
  }

  lemma {:induction false} ExprsSaw(c: Context, st: State, es: seq<Expr>)
    requires Good(st) && Named(c.program) && ExprsOk(c.program, ScopesOf(st.env), es)
    ensures Saw(c, st, CheckExprs(c, st, es), UsesOfAll(c.program, false, es), UnusedInAll(c.program, false, es))
    decreases es, 0
  {
    hide Saw, Good, Named, ScopesOf, CheckExpr, ExprOk;
    GoodIs(st);
    if es == [] {
      SawNothing(c, st);
    } else {
      var st1 := CheckExpr(c, st, es[0]);
      ExprSaw(c, st, es[0]);
      ExprGood(c, st, es[0]);
      GoodIs(st1);
      ExprsSaw(c, st1, es[1..]);
      SawThen(c, st, st1, CheckExprs(c, st, es), Uses(c.program, false, es[0]), Unused(c.program, false, es[0]),
              UsesOfAll(c.program, false, es[1..]), UnusedInAll(c.program, false, es[1..]));
    }
  }

  lemma {:induction false} ArmsSaw(c: Context, st: State, arms: seq<ExprArm>)
    requires Good(st) && Named(c.program) && ArmsOk(c.program, ScopesOf(st.env), arms)
    ensures Saw(c, st, CheckArms(c, st, arms), UsesOfArms(c.program, false, arms), UnusedInArms(c.program, false, arms))
    decreases arms, 0
  {
    hide Saw, Good, Named, ScopesOf, CheckArm, ArmOk;
    GoodIs(st);
    if arms == [] {
      SawNothing(c, st);
    } else {
      var st1 := CheckArm(c, st, arms[0]);
      ArmSaw(c, st, arms[0]);
      ArmGood(c, st, arms[0]);
      GoodIs(st1);
      ArmsSaw(c, st1, arms[1..]);
      SawThen(c, st, st1, CheckArms(c, st, arms), UsesOfArm(c.program, false, arms[0]), UnusedInArm(c.program, false, arms[0]),
              UsesOfArms(c.program, false, arms[1..]), UnusedInArms(c.program, false, arms[1..]));
    }
  }

  lemma {:induction false} ArmSaw(c: Context, st: State, arm: ExprArm)
    requires Good(st) && Named(c.program) && ArmOk(c.program, ScopesOf(st.env), arm)
    ensures Saw(c, st, CheckArm(c, st, arm), UsesOfArm(c.program, false, arm), UnusedInArm(c.program, false, arm))
    decreases arm, 0
  {
    hide Saw, Grew, Good, Named, ScopesOf, CheckPattern, PatternOk, CheckExpr, ExprOk, Push, Pop, DeclareAll, Binders, BindersOk,
         DeclaredAll, IdleBinders, BinderNames;
    var p := c.program;
    var st1 := CheckPattern(c, st, arm.pattern);
    PatternSaw(c, st, arm.pattern);
    PatternGood(c, st, arm.pattern);
    var (u1, unused1) := (UsesOfPattern(p, false, arm.pattern), UnusedInPattern(p, false, arm.pattern));
    if arm.body == NoExpr {
      assert Uses(p, false, arm.body) == {};
      assert u1 + ({} - BinderNames(Binders(p, arm.pattern))) == u1;
    } else {
      GoodIs(st1);
      PushGood(st1);
      var st2, binders, uses, unused := Push(st1), Binders(p, arm.pattern), Uses(p, false, arm.body), Unused(p, false, arm.body);
      DeclareAllGrew(c, st2, binders, uses + {});
      var st3 := DeclareAll(c, st2, binders);
      GoodIs(st3);
      ExprSaw(c, st3, arm.body);
      ExprGood(c, st3, arm.body);
      var st4 := CheckExpr(c, st3, arm.body);
      GoodIs(st4);
      SawIsGrew(c, st3, st4, uses, {}, unused);
      assert uses + {} == uses;
      var names, idle := BinderNames(binders), IdleBinders(binders, uses);
      GrewThen(c, st2, st3, st4, {}, names, idle, {}, uses, {}, {}, {}, unused);
      assert {} + (uses - names) == uses - names && names + {} == names && idle + {} == idle && {} + unused == unused;
      PoppedSaw(c, st1, st4, uses - names, names, idle, unused);
      SawThen(c, st, st1, Pop(c, st4), u1, unused1, uses - names, unused + idle);
    }
  }

  lemma {:induction false} PatternSaw(c: Context, st: State, e: Expr)
    requires Good(st) && Named(c.program) && PatternOk(c.program, ScopesOf(st.env), e)
    ensures Saw(c, st, CheckPattern(c, st, e), UsesOfPattern(c.program, false, e), UnusedInPattern(c.program, false, e))
    decreases e, 3
  {
    hide Saw, Good, Named, ScopesOf, CheckExpr, ExprOk, IsVariant;
    GoodIs(st);
    if e == NoExpr || (e.OptionOf? && e.hasValue && e.inner.Ident?) {
      SawNothing(c, st);
    } else if e.Call? && IsVariant(c.program, e.text) {
      PatternArgsSaw(c, st, e.args);
    } else {
      ExprSaw(c, st, e);
    }
  }

  lemma {:induction false} PatternArgsSaw(c: Context, st: State, args: seq<Expr>)
    requires Good(st) && Named(c.program) && PatternArgsOk(c.program, ScopesOf(st.env), args)
    ensures Saw(c, st, CheckPatternArgs(c, st, args), UsesOfPatternArgs(c.program, false, args), UnusedInPatternArgs(c.program, false, args))
    decreases args, 0
  {
    hide Saw, Good, Named, ScopesOf, CheckPattern, PatternOk;
    var p := c.program;
    GoodIs(st);
    if args == [] {
      SawNothing(c, st);
    } else if args[0].Ident? {
      PatternArgsSaw(c, st, args[1..]);
      assert {} + UsesOfPatternArgs(p, false, args[1..]) == UsesOfPatternArgs(p, false, args[1..]);
      assert {} + UnusedInPatternArgs(p, false, args[1..]) == UnusedInPatternArgs(p, false, args[1..]);
    } else {
      var st1 := CheckPattern(c, st, args[0]);
      PatternSaw(c, st, args[0]);
      PatternGood(c, st, args[0]);
      GoodIs(st1);
      PatternArgsSaw(c, st1, args[1..]);
      SawThen(c, st, st1, CheckPatternArgs(c, st, args), UsesOfPattern(p, false, args[0]), UnusedInPattern(p, false, args[0]),
              UsesOfPatternArgs(p, false, args[1..]), UnusedInPatternArgs(p, false, args[1..]));
    }
  }

  // ----- statements -----

  lemma {:induction false} StmtGrew(c: Context, st: State, s: Stmt, later: set<string>)
    requires Good(st) && Named(c.program) && StmtOk(c.program, ScopesOf(st.env), s)
    ensures Grew(c, st, CheckStmt(c, st, s), UsesOfStmt(c.program, false, s), LetNames(s), later,
                 Idle(c.program, false, s, later), UnusedInStmt(c.program, false, s))
    decreases s, 2
  {
    hide Saw, Grew, Good, Named, ScopesOf, Require, UseOk, Push, Pop, CheckForRange, CheckExpr, CheckExprs, ExprOk, ExprsOk;
    var p := c.program;
    GoodIs(st);
    match s
    case NoStmt => SawNothing(c, st); SawIsGrew(c, st, st, {}, later, {});
    case Other(_) => SawNothing(c, st); SawIsGrew(c, st, st, {}, later, {});
    case Let(_, _, _, _) => LetGrew(c, st, s, later);
    case Assign(name, value, loc) =>
      RequireIsQuiet(c, st, name, loc);
      ExprSaw(c, st, value);
      SawIsGrew(c, st, CheckStmt(c, st, s), Uses(p, false, value), later, Unused(p, false, value));
    case Evaluate(_, operands) =>
      ExprsSaw(c, st, operands);
      SawIsGrew(c, st, CheckStmt(c, st, s), UsesOfAll(p, false, operands), later, UnusedInAll(p, false, operands));
    case Block(stmts) =>
      PushGood(st);
      StmtsGrew(c, Push(st), stmts, {});
      StmtsGood(c, Push(st), stmts);
      var inner := CheckStmts(c, Push(st), stmts);
      GoodIs(inner);
      PoppedSaw(c, st, inner, UsesOfStmts(p, false, stmts), NamesOfAll(stmts), IdleOfAll(p, false, stmts, {}), UnusedInStmts(p, false, stmts));
      SawIsGrew(c, st, CheckStmt(c, st, s), UsesOfStmts(p, false, stmts), later,
                UnusedInStmts(p, false, stmts) + IdleOfAll(p, false, stmts, {}));
    case While(_, _) => WhileGrew(c, st, s, later);
    case ForRange(_, _, _, _, _) => ForRangeSaw(c, st, s, later);
    case If(_, _, _) => IfGrew(c, st, s, later);
    case Match(_, _, _) => StmtMatchSaw(c, st, s, later);
  }

  lemma {:induction false} LetGrew(c: Context, st: State, s: Stmt, later: set<string>)
    requires Good(st) && Named(c.program) && s.Let? && StmtOk(c.program, ScopesOf(st.env), s)
    ensures Grew(c, st, CheckStmt(c, st, s), UsesOfStmt(c.program, false, s), LetNames(s), later,
                 Idle(c.program, false, s, later), UnusedInStmt(c.program, false, s))
    decreases s, 1
  {
    hide Saw, Grew, Good, Named, ScopesOf, CheckExpr, ExprOk, Declare, Fresh, MarkMutable, Name, Unless;
    var p := c.program;
    var (uses, unused, names, idle) := (Uses(p, false, s.init), Unused(p, false, s.init), Name(s.name), Unless(s.name, s.loc, later));
    var st1 := CheckExpr(c, st, s.init);
    ExprSaw(c, st, s.init);
    ExprGood(c, st, s.init);
    GoodIs(st1);
    var st2 := Declare(c, st1, s.name, s.loc);
    assert {} + later == later;
    DeclareGrew(c, st1, s.name, s.loc, later);
    GoodIs(st2);
    SawThenGrew(c, st, st1, st2, uses, unused, {}, names, later, idle, {});
    assert uses + {} == uses && unused + {} == unused;
    if s.isMut {
      var st3 := st2.(env := MarkMutable(st2.env, s.name));
      MutableSaw(c, st2, s.name);
      SawIsGrew(c, st2, st3, {}, later, {});
      GrewThen(c, st, st2, st3, uses, names, idle, unused, {}, {}, later, {}, {});
      assert uses + ({} - names) == uses && names + {} == names && idle + {} == idle;
    }
  }

  lemma MutableSaw(c: Context, st: State, name: string)
    requires Inv(st)
    ensures Saw(c, st, st.(env := MarkMutable(st.env, name)), {}, {})
  {
    hide Grown, Added, Recorded, MarkMutable;
    MutableIsGrown(st.env, name);
    NothingRecorded(c, st.report);
  }

  lemma {:induction false} WhileGrew(c: Context, st: State, s: Stmt, later: set<string>)
    requires Good(st) && Named(c.program) && s.While? && StmtOk(c.program, ScopesOf(st.env), s)
    ensures Grew(c, st, CheckStmt(c, st, s), UsesOfStmt(c.program, false, s), LetNames(s), later,
                 Idle(c.program, false, s, later), UnusedInStmt(c.program, false, s))
    decreases s, 1
  {
    hide Saw, Grew, Good, Named, ScopesOf, CheckExpr, ExprOk;
    var p := c.program;
    var st1 := CheckExpr(c, st, s.cond);
    ExprSaw(c, st, s.cond);
    ExprGood(c, st, s.cond);
    GoodIs(st1);
    StmtGrew(c, st1, s.body, later);
    SawThenGrew(c, st, st1, CheckStmt(c, st, s), Uses(p, false, s.cond), Unused(p, false, s.cond), UsesOfStmt(p, false, s.body),
                LetNames(s.body), later, Idle(p, false, s.body, later), UnusedInStmt(p, false, s.body));
  }

  lemma {:induction false} IfGrew(c: Context, st: State, s: Stmt, later: set<string>)
    requires Good(st) && Named(c.program) && s.If? && StmtOk(c.program, ScopesOf(st.env), s)
    ensures Grew(c, st, CheckStmt(c, st, s), UsesOfStmt(c.program, false, s), LetNames(s), later,
                 Idle(c.program, false, s, later), UnusedInStmt(c.program, false, s))
    decreases s, 1
  {
    hide Saw, Grew, Good, Named, ScopesOf, CheckExpr, ExprOk;
    var p := c.program;
    var st1 := CheckExpr(c, st, s.cond);
    ExprSaw(c, st, s.cond);
    ExprGood(c, st, s.cond);
    GoodIs(st1);
    var st2 := CheckStmt(c, st1, s.body);
    var uses := UsesOfStmt(p, false, s.els);
    StmtGrew(c, st1, s.body, uses + later);
    StmtGood(c, st1, s.body);
    GoodIs(st2);
    StmtGrew(c, st2, s.els, later);
    var st3 := CheckStmt(c, st2, s.els);
    GrewThen(c, st1, st2, st3, UsesOfStmt(p, false, s.body), LetNames(s.body), Idle(p, false, s.body, uses + later),
             UnusedInStmt(p, false, s.body), uses, LetNames(s.els), later, Idle(p, false, s.els, later), UnusedInStmt(p, false, s.els));
    SawThenGrew(c, st, st1, st3, Uses(p, false, s.cond), Unused(p, false, s.cond),
                UsesOfStmt(p, false, s.body) + (uses - LetNames(s.body)), LetNames(s), later,
                Idle(p, false, s, later), UnusedInStmt(p, false, s.body) + UnusedInStmt(p, false, s.els));
  }

  lemma {:induction false} ForRangeSaw(c: Context, st: State, s: Stmt, later: set<string>)
    requires Good(st) && Named(c.program) && s.ForRange? && StmtOk(c.program, ScopesOf(st.env), s)
    ensures Grew(c, st, CheckForRange(c, st, s), UsesOfStmt(c.program, false, s), {}, later, {}, UnusedInStmt(c.program, false, s))
    decreases s, 1
  {
    hide Saw, Grew, Good, Named, ScopesOf, CheckExpr, ExprOk, CheckStmt, StmtOk, Declare, Declared, Push, Pop, Lookup, Bound, Name, Unless;
    var p := c.program;
    ForIsOk(p, ScopesOf(st.env), s);
    var st1 := CheckExpr(c, st, s.from);
    ExprSaw(c, st, s.from);
    ExprGood(c, st, s.from);
    GoodIs(st1);
    var st2 := CheckExpr(c, st1, s.to);
    ExprSaw(c, st1, s.to);
    ExprGood(c, st1, s.to);
    GoodIs(st2);
    LookupIsBound(st2.env, s.name);
    var (u1, unused1) := (Uses(p, false, s.from) + Uses(p, false, s.to), Unused(p, false, s.from) + Unused(p, false, s.to));
    SawThen(c, st, st1, st2, Uses(p, false, s.from), Unused(p, false, s.from), Uses(p, false, s.to), Unused(p, false, s.to));
    ForBodySaw(c, st2, s);
    var st3 := Pop(c, CheckStmt(c, Declare(c, Push(st2), s.name, s.loc), s.body));
    var (u2, unused2) := (UsesOfStmt(p, false, s.body) - Name(s.name),
                          UnusedInStmt(p, false, s.body) + (Unless(s.name, s.loc, UsesOfStmt(p, false, s.body)) + Idle(p, false, s.body, {})));
    SawThen(c, st, st2, st3, u1, unused1, u2, unused2);
    SawIsGrew(c, st, st3, u1 + u2, later, unused1 + unused2);
  }

  lemma ForIsOk(p: Program, g: Scopes, s: Stmt)
    requires s.ForRange? && StmtOk(p, g, s)
    ensures ExprOk(p, g, s.from) && ExprOk(p, g, s.to) && !Bound(g, s.name) && StmtOk(p, Declared(g + [map[]], s.name), s.body)
  {
    hide ExprOk, Bound, Declared;
  }

  lemma {:induction false} ForBodySaw(c: Context, st: State, s: Stmt)
    requires Good(st) && Named(c.program) && s.ForRange?
    requires StmtOk(c.program, Declared(ScopesOf(st.env) + [map[]], s.name), s.body)
    ensures Saw(c, st, Pop(c, CheckStmt(c, Declare(c, Push(st), s.name, s.loc), s.body)),
                UsesOfStmt(c.program, false, s.body) - Name(s.name),
                UnusedInStmt(c.program, false, s.body)
                + (Unless(s.name, s.loc, UsesOfStmt(c.program, false, s.body)) + Idle(c.program, false, s.body, {})))
    decreases s, 0
  {
    hide Saw, Grew, Good, Named, ScopesOf, CheckStmt, StmtOk, Declare, Declared, Push, Pop, Name, Unless;
    var p := c.program;
    GoodIs(st);
    PushGood(st);
    var st1 := Push(st);
    var uses, unused := UsesOfStmt(p, false, s.body), UnusedInStmt(p, false, s.body);
    assert Fresh(ScopesOf(st.env) + [map[]], s.name);
    DeclareGrew(c, st1, s.name, s.loc, uses + {});
    assert uses + {} == uses;
    var st2 := Declare(c, st1, s.name, s.loc);
    GoodIs(st2);
    StmtGrew(c, st2, s.body, {});
    StmtGood(c, st2, s.body);
    var st3 := CheckStmt(c, st2, s.body);
    GoodIs(st3);
    var names, idle := Name(s.name), Unless(s.name, s.loc, uses);
    GrewThen(c, st1, st2, st3, {}, names, idle, {}, uses, LetNames(s.body), {}, Idle(p, false, s.body, {}), unused);
    assert {} + (uses - names) == uses - names && {} + unused == unused;
    PoppedSaw(c, st, st3, uses - names, names + LetNames(s.body), idle + Idle(p, false, s.body, {}), unused);
  }

  lemma {:induction false} StmtMatchSaw(c: Context, st: State, s: Stmt, later: set<string>)
    requires Good(st) && Named(c.program) && s.Match? && StmtOk(c.program, ScopesOf(st.env), s)
    ensures Grew(c, st, CheckStmt(c, st, s), UsesOfStmt(c.program, false, s), {}, later, {}, UnusedInStmt(c.program, false, s))
    decreases s, 1
  {
    hide Saw, Grew, Good, Named, ScopesOf, CheckExpr, ExprOk, CheckExhaustive, Exhaustive;
    var p := c.program;
    var st1 := CheckExpr(c, st, s.subject);
    ExprSaw(c, st, s.subject);
    ExprGood(c, st, s.subject);
    GoodIs(st1);
    ExhaustiveIsQuiet(c, st1, StmtPatternsOf(s.arms), s.loc);
    StmtArmsSaw(c, st1, s.arms);
    SawThen(c, st, st1, CheckStmt(c, st, s), Uses(p, false, s.subject), Unused(p, false, s.subject),
            UsesOfStmtArms(p, false, s.arms), UnusedInStmtArms(p, false, s.arms));
    SawIsGrew(c, st, CheckStmt(c, st, s), UsesOfStmt(p, false, s), later, UnusedInStmt(p, false, s));
  }

  lemma {:induction false} StmtsGrew(c: Context, st: State, ss: seq<Stmt>, later: set<string>)
    requires Good(st) && Named(c.program) && StmtsOk(c.program, ScopesOf(st.env), ss)
    ensures Grew(c, st, CheckStmts(c, st, ss), UsesOfStmts(c.program, false, ss), NamesOfAll(ss), later,
                 IdleOfAll(c.program, false, ss, later), UnusedInStmts(c.program, false, ss))
    decreases ss, 0
  {
    hide Saw, Grew, Good, Named, ScopesOf, CheckStmt, StmtOk, After, LetNames, Idle;
    var p := c.program;
    GoodIs(st);
    if ss == [] {
      SawNothing(c, st);
      SawIsGrew(c, st, st, {}, later, {});
    } else {
      var st1, uses := CheckStmt(c, st, ss[0]), UsesOfStmts(p, false, ss[1..]);
      StmtGrew(c, st, ss[0], uses + later);
      StmtGood(c, st, ss[0]);
      GoodIs(st1);
      StmtsGrew(c, st1, ss[1..], later);
      GrewThen(c, st, st1, CheckStmts(c, st, ss), UsesOfStmt(p, false, ss[0]), LetNames(ss[0]), Idle(p, false, ss[0], uses + later),
               UnusedInStmt(p, false, ss[0]), uses, NamesOfAll(ss[1..]), later, IdleOfAll(p, false, ss[1..], later),
               UnusedInStmts(p, false, ss[1..]));
    }
  }

  lemma {:induction false} StmtArmsSaw(c: Context, st: State, arms: seq<StmtArm>)
    requires Good(st) && Named(c.program) && StmtArmsOk(c.program, ScopesOf(st.env), arms)
    ensures Saw(c, st, CheckStmtArms(c, st, arms), UsesOfStmtArms(c.program, false, arms), UnusedInStmtArms(c.program, false, arms))
    decreases arms, 0
  {
    hide Saw, Good, Named, ScopesOf, CheckStmtArm, StmtArmOk;
    GoodIs(st);
    if arms == [] {
      SawNothing(c, st);
    } else {
      var st1 := CheckStmtArm(c, st, arms[0]);
      StmtArmSaw(c, st, arms[0]);
      StmtArmGood(c, st, arms[0]);
      GoodIs(st1);
      StmtArmsSaw(c, st1, arms[1..]);
      SawThen(c, st, st1, CheckStmtArms(c, st, arms), UsesOfStmtArm(c.program, false, arms[0]), UnusedInStmtArm(c.program, false, arms[0]),
              UsesOfStmtArms(c.program, false, arms[1..]), UnusedInStmtArms(c.program, false, arms[1..]));
    }
  }

  lemma {:induction false} StmtArmSaw(c: Context, st: State, arm: StmtArm)
    requires Good(st) && Named(c.program) && StmtArmOk(c.program, ScopesOf(st.env), arm)
    ensures Saw(c, st, CheckStmtArm(c, st, arm), UsesOfStmtArm(c.program, false, arm), UnusedInStmtArm(c.program, false, arm))
    decreases arm, 0
  {
    hide Saw, Grew, Good, Named, ScopesOf, CheckPattern, PatternOk, CheckStmt, StmtOk, Push, Pop, DeclareAll, Binders, BindersOk,
         DeclaredAll, IdleBinders, BinderNames;
    var p := c.program;
    var st1 := CheckPattern(c, st, arm.pattern);
    PatternSaw(c, st, arm.pattern);
    PatternGood(c, st, arm.pattern);
    GoodIs(st1);
    PushGood(st1);
    var st2, binders, uses, unused := Push(st1), Binders(p, arm.pattern), UsesOfStmt(p, false, arm.body), UnusedInStmt(p, false, arm.body);
    assert uses + {} == uses;
    DeclareAllGrew(c, st2, binders, uses);
    var st3 := DeclareAll(c, st2, binders);
    GoodIs(st3);
    StmtGrew(c, st3, arm.body, {});
    StmtGood(c, st3, arm.body);
    var st4 := CheckStmt(c, st3, arm.body);
    GoodIs(st4);
    var names, idle := BinderNames(binders), IdleBinders(binders, uses);
    GrewThen(c, st2, st3, st4, {}, names, idle, {}, uses, LetNames(arm.body), {}, Idle(p, false, arm.body, {}), unused);
    assert {} + (uses - names) == uses - names && {} + unused == unused;
    PoppedSaw(c, st1, st4, uses - names, names + LetNames(arm.body), idle + Idle(p, false, arm.body, {}), unused);
    SawThen(c, st, st1, Pop(c, st4), UsesOfPattern(p, false, arm.pattern), UnusedInPattern(p, false, arm.pattern), uses - names,
            unused + (idle + Idle(p, false, arm.body, {})));
  }

  lemma {:induction false} BlockGrew(c: Context, st: State, s: Stmt, later: set<string>)
    requires Good(st) && Named(c.program) && BlockOk(c.program, ScopesOf(st.env), s)
    ensures Grew(c, st, CheckBlockHere(c, st, s), UsesOfBlock(c.program, false, s), BlockNames(s), later,
                 IdleOfBlock(c.program, false, s, later), UnusedInBlock(c.program, false, s))
    decreases s, 3
  {
    hide Grew, Good, Named, ScopesOf, CheckStmt, StmtOk, LetNames, Idle;
    if s.Block? { StmtsGrew(c, st, s.stmts, later); } else { StmtGrew(c, st, s, later); }
  }

  // ----- the main results -----

  /** With no errors before and a body that is well scoped, the warnings recorded are exactly
      those for the declarations in it that no use resolves to, up to repeats; calling a
      variable does not count as a use of it. */
  lemma WarningsAreForTheUnused(c: Context, r: Report, globals: seq<string>, params: seq<string>, captures: seq<string>, body: Stmt)
    requires ReportOk(r) && Named(c.program) && r.errors == 0
    requires StmtOk(c.program, [Immutable(Elements(globals + params + captures))], body)
    ensures Recorded(c, r, CheckFunctionBody(c, r, globals, params, captures, body).report, UnusedInStmt(c.program, false, body))
  {
    hide StmtOk, CheckStmt, Grown, Added, FrameNames, UnusedOf, Recorded;
    var st := State(StartEnv(globals, params, captures), r);
    StartScopes(globals, params, captures);
    StmtGrew(c, st, body, {});
  }

  const NO_DECLARATIONS := Program([], [], [], [])

  /** `{ let f = 1; f() }` is well scoped, and `f` is in use; it is reported all the same. */
  lemma ACalledVariableIsReported(at: Loc, there: Loc)
    ensures var s := Block([Let("f", false, Literal("1"), at), Evaluate("expr", [Call("f", NoExpr, 0, [], there)])]);
            && StmtOk(NO_DECLARATIONS, [map[]], s)
            && UnusedInStmt(NO_DECLARATIONS, false, s) == {("f", at)}
            && UnusedInStmt(NO_DECLARATIONS, true, s) == {}
  {
    var p, call := NO_DECLARATIONS, Call("f", NoExpr, 0, [], there);
    var let_, use := Let("f", false, Literal("1"), at), Evaluate("expr", [call]);
    var g: Scopes := [map[]] + [map[]];
    CallIsOk(g, call);
    assert [let_, use][1..] == [use] && [use][1..] == [];
    assert StmtOk(p, After(g, let_), use);
    assert StmtsOk(p, After(g, let_), [use]);
    assert StmtsOk(p, g, [let_, use]);
    OneCall(call, false);
    OneCall(call, true);
    TwoStatements(let_, use, false);
    TwoStatements(let_, use, true);
  }

  lemma OneCall(call: Expr, calls: bool)
    requires call.Call? && call.text == "f" && call.callee == NoExpr && call.args == []
    ensures UsesOfAll(NO_DECLARATIONS, calls, [call]) == if calls then {"f"} else {}
    ensures UnusedInAll(NO_DECLARATIONS, calls, [call]) == {}
  {
    var p := NO_DECLARATIONS;
    assert [call][1..] == [];
    assert !IsFunction(p, "f") && !IsVariant(p, "f");
    assert UsesOfAll(p, calls, []) == {} && UnusedInAll(p, calls, []) == {};
    assert Uses(p, calls, call) == if calls then {"f"} else {};
    assert Unused(p, calls, call) == {};
  }

  lemma TwoStatements(a: Stmt, b: Stmt, calls: bool)
    requires a.Let? && a.init.Literal? && a.name != "_" && b.Evaluate? && UnusedInAll(NO_DECLARATIONS, calls, b.operands) == {}
    ensures UnusedInStmt(NO_DECLARATIONS, calls, Block([a, b]))
            == Unless(a.name, a.loc, UsesOfAll(NO_DECLARATIONS, calls, b.operands))
  {
    var p := NO_DECLARATIONS;
    assert [a, b][1..] == [b] && [b][1..] == [];
    var uses := UsesOfAll(p, calls, b.operands);
    var none: set<string> := {};
    assert UsesOfStmts(p, calls, []) == none && none - LetNames(b) == none && uses + none == uses;
    assert UsesOfStmts(p, calls, [b]) == uses;
    assert UnusedInStmts(p, calls, [b]) == {};
    assert IdleOfAll(p, calls, [b], {}) == {};
    assert uses + {} == uses;
    var nothing: set<Decl> := {};
    assert UnusedInStmt(p, calls, a) == nothing && nothing + nothing == nothing;
    assert UnusedInStmts(p, calls, [a, b]) == UnusedInStmt(p, calls, a) + UnusedInStmts(p, calls, [b]);
    assert IdleOfAll(p, calls, [a, b], {}) == Unless(a.name, a.loc, uses);
  }

  lemma CallIsOk(g: Scopes, call: Expr)
    requires g == [map[]] + [map[]] && call.Call? && call.text == "f" && call.callee == NoExpr && call.args == [] && call.typeArgs == 0
    ensures ExprsOk(NO_DECLARATIONS, Extend(g, "f", false), [call]) && !IsFunction(NO_DECLARATIONS, "f") && !IsVariant(NO_DECLARATIONS, "f")
  {
    var p, g1 := NO_DECLARATIONS, Extend(g, "f", false);
    assert "f" in g1[1];
    assert Bound(g1, "f");
    assert GenericOk(p, "f", 0);
    assert ExprsOk(p, g1, []);
    assert ExprOk(p, g1, call);
    assert [call][1..] == [];
  }
}
