/**
  The mutually recursive traversal over the scope tables.
 */
module SemanticTraversal {
  import opened Options
  import opened Diagnostics
  import opened Scoping
  import opened FlatScopes
  import opened SemanticScopes
  import opened SemanticChecker

  // ----- calls, literals and matches -----

  method SemanticCheckGenericCall(c: Context, scope: SemanticScope, result: SemanticResult, text: string, typeArgs: nat, loc: Loc)
    modifies result, result.bag
    ensures StateOf(scope, result) == CheckGenericCall(c, old(StateOf(scope, result)), text, typeArgs, loc)
  {
    hide AddError;
    var at := SemanticFindFunction(c.program.functions, text);
    if at.None? { return; }
    var wanted := c.program.functions[at.value].typeParams;
    if wanted == 0 {
      if typeArgs > 0 {
        result.AddErrorLoc(c, "TypeError", "function '" + text + "' is not generic", loc, |text|);
      }
      return;
    }
    if typeArgs != wanted {
      result.AddErrorLoc(c, "TypeError", "generic function '" + text + "' requires " + Digits(wanted) + " type arguments", loc, |text|);
    }
  }

  method SemanticMatchCheckExhaustive(c: Context, scope: SemanticScope, result: SemanticResult, patterns: seq<Expr>, loc: Loc)
    modifies result, result.bag
    ensures StateOf(scope, result) == CheckExhaustive(c, old(StateOf(scope, result)), patterns, loc)
  {
    hide AddError, Missing;
    var adtIdx: Option<nat> := None;
    for i := 0 to |patterns|
      invariant StateOf(scope, result) == old(StateOf(scope, result))
      invariant NoExpr !in patterns[..i]
      invariant adtIdx.Some? ==> adtIdx.value < |c.program.adts|
      invariant MatchedAdt(c.program, patterns) == if adtIdx.Some? then adtIdx else MatchedAdt(c.program, patterns[i..])
    {
      if patterns[i] == NoExpr {
        assert NoExpr in patterns;
        return;
      }
      var candidate := SemanticFindAdtVariant(c.program.adts, Text(patterns[i]));
      if candidate.Some? && adtIdx.None? { adtIdx := candidate; }
    }
    if adtIdx.None? { return; }
    var decl := c.program.adts[adtIdx.value];
    var missing := MissingVariants(patterns, decl.variants);
    if missing != "" {
      result.AddErrorLoc(c, "SemanticError", "non-exhaustive match for '" + decl.name + "': missing " + missing, loc, 5);
    }
  }

  method MissingVariants(patterns: seq<Expr>, variants: seq<string>) returns (missing: string)
    ensures missing == Missing(patterns, variants, "")
  {
    missing := "";
    for v := 0 to |variants|
      invariant Missing(patterns, variants[v..], missing) == Missing(patterns, variants, "")
    {
      var found := false;
      for p := 0 to |patterns|
        invariant found <==> exists i :: 0 <= i < p && Text(patterns[i]) == variants[v]
      {
        if Text(patterns[p]) == variants[v] { found := true; }
      }
      assert found == Names(patterns, variants[v]);
      assert variants[v..][0] == variants[v] && variants[v..][1..] == variants[v + 1..];
      if !found {
        if missing != "" { missing := missing + ", "; }
        missing := missing + variants[v];
      }
    }
  }

  method SemanticCheckStructLiteralFields(c: Context, scope: SemanticScope, result: SemanticResult, e: Expr)
    requires e.StructLiteral?
    modifies result, result.bag
    ensures StateOf(scope, result) == CheckStructFields(c, old(StateOf(scope, result)), e)
  {
    hide AddError, CheckRepeats, CheckInitialisers, CheckMissing;
    var at := SemanticFindStruct(c.program.structs, e.text);
    if at.None? {
      result.AddErrorLoc(c, "NameError", "unknown struct '" + e.text + "'", e.loc, |e.text|);
      return;
    }
    var decl := c.program.structs[at.value];
    InitialiserFields(c, scope, result, e, decl);
    MissingFields(c, scope, result, e, decl);
  }

  method InitialiserFields(c: Context, scope: SemanticScope, result: SemanticResult, e: Expr, decl: Struct)
    requires e.StructLiteral?
    modifies result, result.bag
    ensures StateOf(scope, result) == CheckInitialisers(c, old(StateOf(scope, result)), e, decl, 0)
  {
    hide AddError, CheckRepeats;
    for i := 0 to |e.fields|
      invariant CheckInitialisers(c, StateOf(scope, result), e, decl, i)
             == CheckInitialisers(c, old(StateOf(scope, result)), e, decl, 0)
    {
      RepeatedFields(c, scope, result, e, i);
      if e.fields[i] !in decl.fields {
        result.AddErrorLoc(c, "NameError", "unknown field '" + e.fields[i] + "' on struct '" + e.text + "'", e.loc, |e.fields[i]|);
      }
    }
  }

  method RepeatedFields(c: Context, scope: SemanticScope, result: SemanticResult, e: Expr, i: nat)
    requires e.StructLiteral? && i < |e.fields|
    modifies result, result.bag
    ensures StateOf(scope, result) == CheckRepeats(c, old(StateOf(scope, result)), e, i, i + 1)
  {
    hide AddError;
    for j := i + 1 to |e.fields|
      invariant CheckRepeats(c, StateOf(scope, result), e, i, j) == CheckRepeats(c, old(StateOf(scope, result)), e, i, i + 1)
    {
      if e.fields[i] == e.fields[j] {
        result.AddErrorLoc(c, "NameError", "duplicate initializer field '" + e.fields[i] + "' in struct '" + e.text + "'", e.loc, |e.fields[i]|);
      }
    }
  }

  method MissingFields(c: Context, scope: SemanticScope, result: SemanticResult, e: Expr, decl: Struct)
    requires e.StructLiteral?
    modifies result, result.bag
    ensures StateOf(scope, result) == CheckMissing(c, old(StateOf(scope, result)), e, decl, 0)
  {
    hide AddError;
    for i := 0 to |decl.fields|
      invariant CheckMissing(c, StateOf(scope, result), e, decl, i) == CheckMissing(c, old(StateOf(scope, result)), e, decl, 0)
    {
      if decl.fields[i] !in e.fields {
        result.AddErrorLoc(c, "NameError", "missing field '" + decl.fields[i] + "' in struct '" + e.text + "'", e.loc, |decl.fields[i]|);
      }
    }
  }

  method SemanticCheckCaptures(c: Context, scope: SemanticScope, result: SemanticResult, names: seq<string>, loc: Loc)
    requires scope.Valid()
    modifies scope, result, result.bag
    ensures scope.Valid() && StateOf(scope, result) == CheckCaptures(c, old(StateOf(scope, result)), names, loc)
  {
    hide CheckCapture, Flat;
    for i := 0 to |names|
      invariant scope.Valid()
      invariant CheckCaptures(c, StateOf(scope, result), names[i..], loc) == CheckCaptures(c, old(StateOf(scope, result)), names, loc)
    {
      assert names[i..][0] == names[i] && names[i..][1..] == names[i + 1..];
      SemanticCheckCapture(c, scope, result, names[i], loc);
    }
  }

  method SemanticCheckCapture(c: Context, scope: SemanticScope, result: SemanticResult, capture: string, loc: Loc)
    requires scope.Valid()
    modifies scope, result, result.bag
    ensures scope.Valid() && StateOf(scope, result) == CheckCapture(c, old(StateOf(scope, result)), capture, loc)
  {
    hide AddError, Flat, MarkUsed, IndexOf, IsFunction;
    var at := scope.Lookup(capture);
    if at.Some? {
      ghost var place := Scoping.Lookup(scope.frames, capture).value;
      FlatUpdate(scope.frames, place, Found(scope.frames, capture));
      assert scope.Active()[at.value].binding.mutable == Found(scope.frames, capture).mutable;
      if scope.mutable[at.value] {
        result.AddErrorLoc(c, "TypeError", "mutable capture '" + capture + "' is not supported", loc, |capture|);
      } else {
        scope.MarkUsed(capture);
      }
    } else {
      var isFunction := SemanticFindFunctionAny(c.program, capture);
      var variant := SemanticFindAdtVariant(c.program.adts, capture);
      if !isFunction && variant.None? {
        result.AddErrorLoc(c, "NameError", "undefined capture '" + capture + "'", loc, |capture|);
      }
    }
  }

  // ----- expressions -----

  method SemanticCheckExpr(c: Context, scope: SemanticScope, result: SemanticResult, e: Expr)
    requires scope.Valid()
    modifies scope, result, result.bag
    ensures scope.Valid() && StateOf(scope, result) == CheckExpr(c, old(StateOf(scope, result)), e)
    decreases e, 2
  {
    hide Use, CheckExprs, CheckStructFields, CheckCall, CheckCaptures, CheckExhaustive, CheckArms, Pop, Push, CheckBlockHere,
         IsFunction, SemanticScope.Valid;
    match e
    case NoExpr =>
    case Literal(_) =>
    case Ident(t, loc) =>
      var variant := SemanticFindAdtVariant(c.program.adts, t);
      var isFunction := SemanticFindFunctionAny(c.program, t);
      if variant.None? && !isFunction { ScopeUse(c, scope, result, t, loc); }
    case Addr(t, loc) => ScopeUse(c, scope, result, t, loc);
    case Operator(_, _, operands) => SemanticCheckExprs(c, scope, result, operands);
    case OptionOf(_, inner) => SemanticCheckExpr(c, scope, result, inner);
    case StructLiteral(_, _, args, _) =>
      SemanticCheckStructLiteralFields(c, scope, result, e);
      SemanticCheckExprs(c, scope, result, args);
    case Call(_, _, _, _, _) => SemanticCheckCall(c, scope, result, e);
    case Lambda(_, captures, loc) => SemanticCheckCaptures(c, scope, result, captures, loc);
    case MatchOf(subject, arms, loc) =>
      SemanticCheckExpr(c, scope, result, subject);
      SemanticMatchCheckExhaustive(c, scope, result, PatternsOf(arms), loc);
      SemanticCheckArms(c, scope, result, arms);
    case BlockOf(body, value) =>
      EnterScope(scope, result);
      SemanticCheckBlockStmtInCurrentScope(c, scope, result, body);
      SemanticCheckExpr(c, scope, result, value);
      ScopePop(c, scope, result);
  }

  method EnterScope(scope: SemanticScope, result: SemanticResult)
    requires scope.Valid()
    modifies scope
    ensures scope.Valid() && StateOf(scope, result) == Push(old(StateOf(scope, result)))
  {
    hide Flat;
    scope.Push();
  }

  method SemanticCheckCall(c: Context, scope: SemanticScope, result: SemanticResult, e: Expr)
    requires scope.Valid() && e.Call?
    modifies scope, result, result.bag
    ensures scope.Valid() && StateOf(scope, result) == CheckCall(c, old(StateOf(scope, result)), e)
    decreases e, 1
  {
    hide CheckExpr, CheckExprs, CheckGenericCall, AddError, IsFunction, Flat;
    if e.callee != NoExpr {
      SemanticCheckExpr(c, scope, result, e.callee);
    } else {
      var isFunction := SemanticFindFunctionAny(c.program, e.text);
      var variant := SemanticFindAdtVariant(c.program.adts, e.text);
      var bound := scope.Contains(e.text);
      if e.text != "clone" && !isFunction && variant.None? && !bound {
        result.AddErrorLoc(c, "NameError", "undefined function '" + e.text + "'", e.loc, |e.text|);
      }
    }
    if e.callee == NoExpr && e.text != "clone" {
      SemanticCheckGenericCall(c, scope, result, e.text, e.typeArgs, e.loc);
    }
    SemanticCheckExprs(c, scope, result, e.args);
  }

  method SemanticCheckExprs(c: Context, scope: SemanticScope, result: SemanticResult, es: seq<Expr>)
    requires scope.Valid()
    modifies scope, result, result.bag
    ensures scope.Valid() && StateOf(scope, result) == CheckExprs(c, old(StateOf(scope, result)), es)
    decreases es, 0
  {
    hide CheckExpr, SemanticScope.Valid;
    for i := 0 to |es|
      invariant scope.Valid()
      invariant CheckExprs(c, StateOf(scope, result), es[i..]) == CheckExprs(c, old(StateOf(scope, result)), es)
    {
      assert es[i..][0] == es[i] && es[i..][1..] == es[i + 1..];
      SemanticCheckExpr(c, scope, result, es[i]);
    }
  }

  method SemanticCheckArms(c: Context, scope: SemanticScope, result: SemanticResult, arms: seq<ExprArm>)
    requires scope.Valid()
    modifies scope, result, result.bag
    ensures scope.Valid() && StateOf(scope, result) == CheckArms(c, old(StateOf(scope, result)), arms)
    decreases arms, 0
  {
    hide CheckArm, SemanticScope.Valid;
    for i := 0 to |arms|
      invariant scope.Valid()
      invariant CheckArms(c, StateOf(scope, result), arms[i..]) == CheckArms(c, old(StateOf(scope, result)), arms)
    {
      assert arms[i..][0] == arms[i] && arms[i..][1..] == arms[i + 1..];
      SemanticCheckArm(c, scope, result, arms[i]);
    }
  }

  method SemanticCheckArm(c: Context, scope: SemanticScope, result: SemanticResult, arm: ExprArm)
    requires scope.Valid()
    modifies scope, result, result.bag
    ensures scope.Valid() && StateOf(scope, result) == CheckArm(c, old(StateOf(scope, result)), arm)
    decreases arm, 0
  {
    hide CheckPattern, CheckExpr, DeclareBindings, Push, Pop, SemanticScope.Valid;
    SemanticCheckMatchPattern(c, scope, result, arm.pattern);
    if arm.body != NoExpr {
      EnterScope(scope, result);
      SemanticDeclareMatchBinding(c, scope, result, arm.pattern);
      SemanticCheckExpr(c, scope, result, arm.body);
      ScopePop(c, scope, result);
    }
  }

  method SemanticCheckMatchPattern(c: Context, scope: SemanticScope, result: SemanticResult, p: Expr)
    requires scope.Valid()
    modifies scope, result, result.bag
    ensures scope.Valid() && StateOf(scope, result) == CheckPattern(c, old(StateOf(scope, result)), p)
    decreases p, 3
  {
    hide CheckPatternArgs, CheckExpr, SemanticScope.Valid;
    if p == NoExpr { return; }
    if p.OptionOf? && p.hasValue && p.inner.Ident? { return; }
    if p.Call? {
      var variant := SemanticFindAdtVariant(c.program.adts, p.text);
      if variant.Some? {
        SemanticCheckPatternArgs(c, scope, result, p.args);
        return;
      }
    }
    SemanticCheckExpr(c, scope, result, p);
  }

  method SemanticCheckPatternArgs(c: Context, scope: SemanticScope, result: SemanticResult, args: seq<Expr>)
    requires scope.Valid()
    modifies scope, result, result.bag
    ensures scope.Valid() && StateOf(scope, result) == CheckPatternArgs(c, old(StateOf(scope, result)), args)
    decreases args, 0
  {
    hide CheckPattern, SemanticScope.Valid;
    for i := 0 to |args|
      invariant scope.Valid()
      invariant CheckPatternArgs(c, StateOf(scope, result), args[i..]) == CheckPatternArgs(c, old(StateOf(scope, result)), args)
    {
      assert args[i..][0] == args[i] && args[i..][1..] == args[i + 1..];
      if !args[i].Ident? { SemanticCheckMatchPattern(c, scope, result, args[i]); }
    }
  }

  lemma DeclareOne(c: Context, st: State, e: Expr)
    requires e.Ident?
    ensures DeclareAll(c, st, [e]) == Declare(c, st, e.text, e.loc)
  {
    hide Declare;
    assert DeclareAll(c, Declare(c, st, e.text, e.loc), [e][1..]) == Declare(c, st, e.text, e.loc);
  }

  method SemanticDeclareMatchBinding(c: Context, scope: SemanticScope, result: SemanticResult, pattern: Expr)
    requires scope.Valid()
    modifies scope, result, result.bag
    ensures scope.Valid() && StateOf(scope, result) == DeclareBindings(c, old(StateOf(scope, result)), pattern)
  {
    hide SemanticScope.Valid, Declare;
    if pattern.OptionOf? && pattern.hasValue && pattern.inner.Ident? {
      DeclareOne(c, StateOf(scope, result), pattern.inner);
      var declared := ScopeDeclare(c, scope, result, pattern.inner.text, pattern.inner.loc);
    }
    if pattern.Call? {
      var variant := SemanticFindAdtVariant(c.program.adts, pattern.text);
      if variant.Some? { DeclareIdentifiers(c, scope, result, pattern.args); }
    }
  }

  method DeclareIdentifiers(c: Context, scope: SemanticScope, result: SemanticResult, args: seq<Expr>)
    requires scope.Valid()
    modifies scope, result, result.bag
    ensures scope.Valid() && StateOf(scope, result) == DeclareAll(c, old(StateOf(scope, result)), Identifiers(args))
  {
    hide SemanticScope.Valid, Declare;
    for i := 0 to |args|
      invariant scope.Valid()
      invariant DeclareAll(c, StateOf(scope, result), Identifiers(args[i..]))
             == DeclareAll(c, old(StateOf(scope, result)), Identifiers(args))
    {
      assert args[i..][0] == args[i] && args[i..][1..] == args[i + 1..];
      if args[i].Ident? {
        assert Identifiers(args[i..])[1..] == Identifiers(args[i + 1..]);
        var declared := ScopeDeclare(c, scope, result, args[i].text, args[i].loc);
      } else {
        assert Identifiers(args[i..]) == Identifiers(args[i + 1..]);
      }
    }
  }

  // ----- statements -----

  method SemanticCheckStmt(c: Context, scope: SemanticScope, result: SemanticResult, s: Stmt)
    requires scope.Valid()
    modifies scope, result, result.bag
    ensures scope.Valid() && StateOf(scope, result) == CheckStmt(c, old(StateOf(scope, result)), s)
    decreases s, 2
  {
    hide Declare, Require, CheckExpr, CheckExprs, CheckStmts, CheckStmtArms, CheckForRange, CheckExhaustive, Push, Pop, Flat,
         MarkMutable;
    ghost var st := StateOf(scope, result);
    match s
    case NoStmt =>
    case Other(_) =>
    case Let(name, isMut, init, loc) =>
      SemanticCheckExpr(c, scope, result, init);
      var declared := ScopeDeclare(c, scope, result, name, loc);
      if isMut { scope.MarkMutable(name); }
      assert StateOf(scope, result) == CheckStmt(c, st, s);
    case Assign(name, value, loc) =>
      ScopeRequire(c, scope, result, name, loc);
      SemanticCheckExpr(c, scope, result, value);
    case Evaluate(_, operands) => SemanticCheckExprs(c, scope, result, operands);
    case Block(stmts) =>
      EnterScope(scope, result);
      SemanticCheckStmts(c, scope, result, stmts);
      ScopePop(c, scope, result);
    case While(cond, body) =>
      SemanticCheckExpr(c, scope, result, cond);
      SemanticCheckStmt(c, scope, result, body);
    case ForRange(_, _, _, _, _) => SemanticCheckForRange(c, scope, result, s);
    case If(_, _, _) => SemanticCheckIf(c, scope, result, s);
    case Match(subject, arms, loc) =>
      SemanticCheckExpr(c, scope, result, subject);
      SemanticMatchCheckExhaustive(c, scope, result, StmtPatternsOf(arms), loc);
      SemanticCheckStmtArms(c, scope, result, arms);
  }

  method SemanticCheckIf(c: Context, scope: SemanticScope, result: SemanticResult, s: Stmt)
    requires scope.Valid() && s.If?
    modifies scope, result, result.bag
    ensures scope.Valid() && StateOf(scope, result) == CheckStmt(c, old(StateOf(scope, result)), s)
    decreases s, 1
  {
    hide CheckExpr, SemanticScope.Valid;
    SemanticCheckExpr(c, scope, result, s.cond);
    SemanticCheckStmt(c, scope, result, s.body);
    NoStatement(c, StateOf(scope, result));
    if s.els != NoStmt { SemanticCheckStmt(c, scope, result, s.els); }
  }

  method SemanticCheckForRange(c: Context, scope: SemanticScope, result: SemanticResult, s: Stmt)
    requires scope.Valid() && s.ForRange?
    modifies scope, result, result.bag
    ensures scope.Valid() && StateOf(scope, result) == CheckForRange(c, old(StateOf(scope, result)), s)
    decreases s, 1
  {
    hide Declare, CheckExpr, CheckStmt, Push, Pop, AddError, Flat;
    SemanticCheckExpr(c, scope, result, s.from);
    SemanticCheckExpr(c, scope, result, s.to);
    var bound := scope.Contains(s.name);
    if bound {
      result.AddErrorLoc(c, "NameError", "for iterator '" + s.name + "' conflicts with existing symbol", s.loc, |s.name|);
    }
    EnterScope(scope, result);
    var declared := ScopeDeclare(c, scope, result, s.name, s.loc);
    SemanticCheckStmt(c, scope, result, s.body);
    ScopePop(c, scope, result);
  }

  method SemanticCheckStmts(c: Context, scope: SemanticScope, result: SemanticResult, ss: seq<Stmt>)
    requires scope.Valid()
    modifies scope, result, result.bag
    ensures scope.Valid() && StateOf(scope, result) == CheckStmts(c, old(StateOf(scope, result)), ss)
    decreases ss, 0
  {
    hide CheckStmt, SemanticScope.Valid;
    for i := 0 to |ss|
      invariant scope.Valid()
      invariant CheckStmts(c, StateOf(scope, result), ss[i..]) == CheckStmts(c, old(StateOf(scope, result)), ss)
    {
      assert ss[i..][0] == ss[i] && ss[i..][1..] == ss[i + 1..];
      SemanticCheckStmt(c, scope, result, ss[i]);
    }
  }

  method SemanticCheckStmtArms(c: Context, scope: SemanticScope, result: SemanticResult, arms: seq<StmtArm>)
    requires scope.Valid()
    modifies scope, result, result.bag
    ensures scope.Valid() && StateOf(scope, result) == CheckStmtArms(c, old(StateOf(scope, result)), arms)
    decreases arms, 0
  {
    hide CheckStmtArm, SemanticScope.Valid;
    for i := 0 to |arms|
      invariant scope.Valid()
      invariant CheckStmtArms(c, StateOf(scope, result), arms[i..]) == CheckStmtArms(c, old(StateOf(scope, result)), arms)
    {
      assert arms[i..][0] == arms[i] && arms[i..][1..] == arms[i + 1..];
      SemanticCheckStmtArm(c, scope, result, arms[i]);
    }
  }

  method SemanticCheckStmtArm(c: Context, scope: SemanticScope, result: SemanticResult, arm: StmtArm)
    requires scope.Valid()
    modifies scope, result, result.bag
    ensures scope.Valid() && StateOf(scope, result) == CheckStmtArm(c, old(StateOf(scope, result)), arm)
    decreases arm, 0
  {
    hide CheckPattern, CheckStmt, DeclareBindings, Push, Pop, SemanticScope.Valid;
    if arm.pattern != NoExpr { SemanticCheckMatchPattern(c, scope, result, arm.pattern); }
    assert StateOf(scope, result) == CheckPattern(c, old(StateOf(scope, result)), arm.pattern) by {
      NoPattern(c, old(StateOf(scope, result)));
    }
    EnterScope(scope, result);
    SemanticDeclareMatchBinding(c, scope, result, arm.pattern);
    SemanticCheckStmt(c, scope, result, arm.body);
    ScopePop(c, scope, result);
  }

  lemma NoStatement(c: Context, st: State)
    ensures CheckStmt(c, st, NoStmt) == st
  {
  }

  lemma NoPattern(c: Context, st: State)
    ensures CheckPattern(c, st, NoExpr) == st
  {
  }

  method SemanticCheckBlockStmtInCurrentScope(c: Context, scope: SemanticScope, result: SemanticResult, s: Stmt)
    requires scope.Valid()
    modifies scope, result, result.bag
    ensures scope.Valid() && StateOf(scope, result) == CheckBlockHere(c, old(StateOf(scope, result)), s)
    decreases s, 3
  {
    hide CheckStmt, CheckStmts, SemanticScope.Valid;
    if !s.Block? {
      SemanticCheckStmt(c, scope, result, s);
      return;
    }
    SemanticCheckStmts(c, scope, result, s.stmts);
  }

  // ----- a function -----

  method DeclareExistingNames(scope: SemanticScope, names: seq<string>)
    requires scope.Valid()
    modifies scope
    ensures scope.Valid() && scope.frames == DeclareAllExisting(old(scope.frames), names)
  {
    hide SemanticScope.Valid, DeclareExisting;
    for i := 0 to |names|
      invariant scope.Valid()
      invariant DeclareAllExisting(scope.frames, names[i..]) == DeclareAllExisting(old(scope.frames), names)
    {
      assert names[i..][0] == names[i] && names[i..][1..] == names[i + 1..];
      scope.DeclareExisting(names[i]);
    }
  }

  method SemanticCheckFunctionBody(c: Context, result: SemanticResult, globals: seq<string>, params: seq<string>,
                                   captures: seq<string>, body: Stmt)
    modifies result, result.bag
    ensures result.View() == CheckFunctionBody(c, old(result.View()), globals, params, captures, body).report
  {
    hide SemanticScope.Valid, DeclareAllExisting, CheckStmt;
    var scope := new SemanticScope();
    DeclareExistingNames(scope, globals);
    DeclareExistingNames(scope, params);
    DeclareExistingNames(scope, captures);
    SemanticCheckStmt(c, scope, result, body);
  }
}
