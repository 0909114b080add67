/**
  The traversal as it runs, on the scope tables and the result counters. Every method
  leaves them in the state that the specification of the same step gives.
 */
module SemanticChecker {
  import opened Options
  import opened Diagnostics
  import opened Scoping
  import opened FlatScopes
  import opened SemanticScopes

  class SemanticResult {
    var ok: bool
    var errorCount: nat
    var typeErrorCount: nat
    var warningCount: nat
    const emitWarnings: bool
    const bag: DiagBag

    constructor (emitWarnings: bool)
      ensures View() == Report(true, 0, 0, 0, emitWarnings, EmptyBag()) && fresh(bag)
    {
      ok, errorCount, typeErrorCount, warningCount := true, 0, 0, 0;
      this.emitWarnings := emitWarnings;
      bag := new DiagBag();
    }

    function View(): Report
      reads this, bag
    {
      Report(ok, errorCount, typeErrorCount, warningCount, emitWarnings, bag.View())
    }

    method AddErrorLoc(c: Context, kind: string, message: string, loc: Loc, length: int)
      modifies this, bag
      ensures View() == AddError(c, old(View()), kind, message, loc, length)
    {
      var diagnostic := Diag(c.code(kind, message), Error, FullMessage(c.func, message), SpanOf(c, loc, length));
      var emitted := bag.DiagEmit(diagnostic);
      if !emitted { return; }
      errorCount := errorCount + 1;
      if kind == "TypeError" { typeErrorCount := typeErrorCount + 1; }
      ok := false;
    }

    method AddWarningLoc(c: Context, kind: string, message: string, loc: Loc, length: int)
      modifies this, bag
      ensures View() == AddWarning(c, old(View()), kind, message, loc, length)
    {
      if !emitWarnings { return; }
      var diagnostic := Diag(c.code(kind, message), Warning, message, SpanOf(c, loc, length));
      var emitted := bag.DiagEmit(diagnostic);
      if !emitted { return; }
      warningCount := warningCount + 1;
    }
  }

  ghost function StateOf(scope: SemanticScope, result: SemanticResult): State
    reads scope, result, result.bag
  {
    State(scope.frames, result.View())
  }

  // ----- scope operations that report -----

  method ScopeWarnUnusedCurrent(c: Context, scope: SemanticScope, result: SemanticResult)
    requires scope.Valid() && scope.depth > 0
    modifies result, result.bag
    ensures result.View() == WarnUnused(c, old(result.View()), Top(scope.frames))
  {
    hide AddWarning, Flat, Below, Top;
    var frames := scope.frames;
    FlatTop(frames);
    ghost var base := |Flat(Below(frames))|;
    ghost var top := Top(frames);
    var i: int := scope.activeLen - 1;
    assert top[..|top|] == top;
    while i >= 0
      invariant base - 1 <= i < scope.activeLen
      invariant base + |top| == scope.activeLen
      invariant WarnUnused(c, result.View(), top[..i + 1 - base]) == WarnUnused(c, old(result.View()), top)
    {
      assert scope.Active()[i] == Flat(frames)[i];
      if scope.depths[i] < scope.depth { return; }
      ghost var f := top[..i + 1 - base];
      assert f[|f| - 1] == top[i - base] && f[..|f| - 1] == top[..i - base];
      if scope.depths[i] == scope.depth && scope.warnUnused[i] && !scope.used[i] {
        result.AddWarningLoc(c, "SemanticWarning", "unused variable '" + scope.names[i] + "'",
                             Loc(scope.lines[i], scope.cols[i]), |scope.names[i]|);
      }
      i := i - 1;
    }
  }

  method ScopePop(c: Context, scope: SemanticScope, result: SemanticResult)
    requires scope.Valid()
    modifies scope, result, result.bag
    ensures scope.Valid() && StateOf(scope, result) == Pop(c, old(StateOf(scope, result)))
  {
    hide WarnUnused, Below, Top;
    if scope.depth > 0 {
      if result.errorCount == 0 { ScopeWarnUnusedCurrent(c, scope, result); }
      scope.Truncate();
    }
  }

  method ScopeDeclare(c: Context, scope: SemanticScope, result: SemanticResult, name: string, loc: Loc) returns (declared: bool)
    requires scope.Valid()
    modifies scope, result, result.bag
    ensures scope.Valid() && StateOf(scope, result) == Declare(c, old(StateOf(scope, result)), name, loc)
  {
    hide AddError, Add, Flat, Top;
    if name == "_" { return true; }
    var at := scope.FindCurrent(name);
    if at.Some? {
      result.AddErrorLoc(c, "NameError", "duplicate symbol '" + name + "'", loc, |name|);
      return false;
    }
    scope.Append(name, loc, true);
    return true;
  }

  method ScopeRequire(c: Context, scope: SemanticScope, result: SemanticResult, name: string, loc: Loc)
    requires scope.Valid()
    modifies result, result.bag
    ensures StateOf(scope, result) == Require(c, old(StateOf(scope, result)), name, loc)
  {
    hide AddError, Flat;
    if name == "_" { return; }
    var at := scope.Lookup(name);
    if at.None? {
      if IsLambda(c.func) {
        result.AddErrorLoc(c, "NameError", "variable `" + name + "` must be explicitly captured", loc, |name|);
      } else {
        result.AddErrorLoc(c, "NameError", "undefined symbol '" + name + "'", loc, |name|);
      }
    }
  }

  method ScopeUse(c: Context, scope: SemanticScope, result: SemanticResult, name: string, loc: Loc)
    requires scope.Valid()
    modifies scope, result, result.bag
    ensures scope.Valid() && StateOf(scope, result) == Use(c, old(StateOf(scope, result)), name, loc)
  {
    hide Require, MarkUsed, Flat;
    ScopeRequire(c, scope, result, name, loc);
    scope.MarkUsed(name);
  }

  // ----- searches -----

  method SemanticFindFunction(funcs: seq<Function>, name: string) returns (at: Option<nat>)
    ensures at == FindFunction(funcs, name)
  {
    for i := 0 to |funcs|
      invariant forall j :: 0 <= j < i ==> funcs[j].name != name
    {
      if funcs[i].name == name { return Some(i); }
    }
    at := None;
  }

  method SemanticFindFunctionAny(p: Program, name: string) returns (found: bool)
    ensures found == IsFunction(p, name)
  {
    var at := SemanticFindFunction(p.functions, name);
    if at.Some? { return true; }
    at := SemanticFindFunction(p.externs, name);
    found := at.Some?;
  }

  method SemanticFindStruct(structs: seq<Struct>, name: string) returns (at: Option<nat>)
    ensures at == FindStruct(structs, name)
  {
    for i := 0 to |structs|
      invariant forall j :: 0 <= j < i ==> structs[j].name != name
    {
      if structs[i].name == name { return Some(i); }
    }
    at := None;
  }

  method SemanticFindAdtVariant(adts: seq<Adt>, name: string) returns (at: Option<nat>)
    ensures at == FindVariant(adts, name)
    ensures at.Some? <==> exists a :: 0 <= a < |adts| && name in adts[a].variants
  {
    for i := 0 to |adts|
      invariant forall j :: 0 <= j < i ==> name !in adts[j].variants
    {
      for j := 0 to |adts[i].variants|
        invariant name !in adts[i].variants[..j]
      {
        if adts[i].variants[j] == name { return Some(i); }
      }
    }
    at := None;
  }
}
