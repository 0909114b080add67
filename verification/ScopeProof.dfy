/**
  The traversal reports no error exactly for what the rules allow, whatever was
  reported before and however many diagnostics were dropped.
 */
module ScopeProof {
  import opened Options
  import opened Diagnostics
  import opened Scoping
  import opened ScopeRules
  import opened ScopeFacts

  ghost predicate Inv(st: State) {
    EnvOk(st.env) && ReportOk(st.report)
  }

  predicate Clean(st: State) {
    st.report.errors == 0
  }

  /** From one state to another in the same scopes: no error is reported iff `ok`. */
  ghost predicate Step(a: State, b: State, ok: bool) {
    Inv(b) && ScopesOf(b.env) == ScopesOf(a.env) && (Clean(b) <==> Clean(a) && ok)
  }

  /** Same depth, same scopes below the innermost, nothing forgotten in the innermost. */
  ghost predicate Kept(g: Scopes, h: Scopes) {
    && |h| == |g| && g != []
    && g[..|g| - 1] == h[..|h| - 1]
    && g[|g| - 1].Keys <= h[|h| - 1].Keys
  }

  /** The same for statements, which may declare names in the innermost scope. */
  ghost predicate Move(a: State, b: State, ok: bool, after: Scopes) {
    && Inv(b) && Kept(ScopesOf(a.env), ScopesOf(b.env)) && (Clean(b) <==> Clean(a) && ok)
    && (Clean(b) ==> ScopesOf(b.env) == after)
  }

  lemma Stay(a: State)
    requires Inv(a)
    ensures Step(a, a, true)
  {
  }

  lemma Then(a: State, b: State, c: State, x: bool, y: bool)
    requires Step(a, b, x) && Step(b, c, y)
    ensures Step(a, c, x && y)
  {
  }

  lemma Known(a: State, b: State, x: bool)
    requires Step(a, b, x)
    ensures Inv(b) && ScopesOf(b.env) == ScopesOf(a.env)
  {
  }

  // ----- operations -----

  lemma ErrorStep(c: Context, st: State, kind: string, message: string, loc: Loc, length: int)
    requires Inv(st) && ErrorText(message)
    ensures Step(st, ReportError(c, st, kind, message, loc, length), false)
  {
    hide AddError, ErrorText;
    AddErrorCounts(c, st.report, kind, message, loc, length);
  }

  lemma RequireStep(c: Context, st: State, name: string, loc: Loc)
    requires Inv(st)
    ensures Step(st, Require(c, st, name, loc), UseOk(ScopesOf(st.env), name))
  {
    hide Step, Inv, ReportError;
    LookupIsBound(st.env, name);
    if name == "_" || Lookup(st.env, name).Some? {
      Stay(st);
    } else if IsLambda(c.func) {
      ErrorStep(c, st, "NameError", "variable `" + name + "` must be explicitly captured", loc, |name|);
    } else {
      ErrorStep(c, st, "NameError", "undefined symbol '" + name + "'", loc, |name|);
    }
  }

  lemma MarkUsedStep(st: State, name: string)
    requires Inv(st)
    ensures Step(st, st.(env := MarkUsed(st.env, name)), true)
  {
    MarkUsedKeepsScopes(st.env, name);
  }

  lemma UseStep(c: Context, st: State, name: string, loc: Loc)
    requires Inv(st)
    ensures Step(st, Use(c, st, name, loc), UseOk(ScopesOf(st.env), name))
  {
    hide Step, Inv, Require;
    RequireStep(c, st, name, loc);
    var st' := Require(c, st, name, loc);
    Known(st, st', UseOk(ScopesOf(st.env), name));
    MarkUsedStep(st', name);
    Then(st, st', Use(c, st, name, loc), UseOk(ScopesOf(st.env), name), true);
  }

  lemma CaptureStep(c: Context, st: State, name: string, loc: Loc)
    requires Inv(st)
    ensures Step(st, CheckCapture(c, st, name, loc), CaptureOk(c.program, ScopesOf(st.env), name))
  {
    hide Step, Inv, ReportError, MarkUsed, IsFunction, IsVariant, MutableIn, Bound;
    LookupIsBound(st.env, name);
    if Lookup(st.env, name).Some? {
      if Found(st.env, name).mutable {
        ErrorStep(c, st, "TypeError", "mutable capture '" + name + "' is not supported", loc, |name|);
      } else {
        MarkUsedStep(st, name);
      }
    } else if !IsFunction(c.program, name) && !IsVariant(c.program, name) {
      ErrorStep(c, st, "NameError", "undefined capture '" + name + "'", loc, |name|);
    } else {
      Stay(st);
    }
  }

  predicate CapturesOk(p: Program, g: Scopes, names: seq<string>) {
    forall i :: 0 <= i < |names| ==> CaptureOk(p, g, names[i])
  }

  lemma {:induction false} CapturesStep(c: Context, st: State, names: seq<string>, loc: Loc)
    requires Inv(st)
    ensures Step(st, CheckCaptures(c, st, names, loc), CapturesOk(c.program, ScopesOf(st.env), names))
    decreases names
  {
    hide Step, Inv, CheckCapture, CaptureOk;
    if names == [] {
      Stay(st);
    } else {
      CaptureStep(c, st, names[0], loc);
      var st' := CheckCapture(c, st, names[0], loc);
      var x := CaptureOk(c.program, ScopesOf(st.env), names[0]);
      Known(st, st', x);
      CapturesStep(c, st', names[1..], loc);
      var y := CapturesOk(c.program, ScopesOf(st.env), names[1..]);
      Then(st, st', CheckCaptures(c, st, names, loc), x, y);
      assert names == [names[0]] + names[1..];
      assert CapturesOk(c.program, ScopesOf(st.env), names) == (x && y);
    }
  }

  lemma GenericStep(c: Context, st: State, text: string, typeArgs: nat, loc: Loc)
    requires Inv(st)
    ensures Step(st, CheckGenericCall(c, st, text, typeArgs, loc), GenericOk(c.program, text, typeArgs))
  {
    hide Step, Inv, ReportError, Digits;
    var r := FindFunction(c.program.functions, text);
    if r.None? || c.program.functions[r.value].typeParams == typeArgs {
      Stay(st);
    } else if c.program.functions[r.value].typeParams == 0 {
      ErrorStep(c, st, "TypeError", "function '" + text + "' is not generic", loc, |text|);
    } else {
      var wanted := c.program.functions[r.value].typeParams;
      ErrorStep(c, st, "TypeError", "generic function '" + text + "' requires " + Digits(wanted) + " type arguments", loc, |text|);
    }
  }

  /** Constructors have names; the grammar has no others. */
  ghost predicate Named(p: Program) {
    forall a :: 0 <= a < |p.adts| ==> "" !in p.adts[a].variants
  }

  lemma ExhaustiveStep(c: Context, st: State, patterns: seq<Expr>, loc: Loc)
    requires Inv(st) && Named(c.program)
    ensures Step(st, CheckExhaustive(c, st, patterns, loc), Exhaustive(c.program, patterns))
  {
    hide Step, Inv, ReportError, Missing, Names;
    var a := MatchedAdt(c.program, patterns);
    if NoExpr in patterns || a.None? {
      Stay(st);
    } else {
      var adt := c.program.adts[a.value];
      MissingIsEmpty(patterns, adt.variants, "");
      var missing := Missing(patterns, adt.variants, "");
      if missing == "" {
        Stay(st);
      } else {
        ErrorStep(c, st, "SemanticError", "non-exhaustive match for '" + adt.name + "': missing " + missing, loc, 5);
      }
    }
  }

  lemma {:induction false} MissingIsEmpty(patterns: seq<Expr>, variants: seq<string>, found: string)
    requires "" !in variants
    ensures Missing(patterns, variants, found) == "" <==> found == "" && forall v :: v in variants ==> Names(patterns, v)
    decreases variants
  {
    hide Names;
    if variants != [] {
      assert variants == [variants[0]] + variants[1..];
      var found' := if found != "" then found + ", " + variants[0] else found + variants[0];
      MissingIsEmpty(patterns, variants[1..], if Names(patterns, variants[0]) then found else found');
    }
  }

  // ----- struct literals -----

  predicate NoRepeat(fields: seq<string>, i: nat, j: nat)
    requires i < |fields|
  {
    forall k :: j <= k < |fields| ==> fields[i] != fields[k]
  }

  lemma {:induction false} RepeatsStep(c: Context, st: State, e: Expr, i: nat, j: nat)
    requires Inv(st) && e.StructLiteral? && i < |e.fields|
    ensures Step(st, CheckRepeats(c, st, e, i, j), NoRepeat(e.fields, i, j))
    decreases |e.fields| - j
  {
    hide Step, Inv, ReportError;
    if j >= |e.fields| {
      Stay(st);
    } else {
      var x := e.fields[i] != e.fields[j];
      var message := "duplicate initializer field '" + e.fields[i] + "' in struct '" + e.text + "'";
      var st' := if x then st else ReportError(c, st, "NameError", message, e.loc, |e.fields[i]|);
      if x { Stay(st); } else { ErrorStep(c, st, "NameError", message, e.loc, |e.fields[i]|); }
      Known(st, st', x);
      RepeatsStep(c, st', e, i, j + 1);
      Then(st, st', CheckRepeats(c, st, e, i, j), x, NoRepeat(e.fields, i, j + 1));
      assert NoRepeat(e.fields, i, j) == (x && NoRepeat(e.fields, i, j + 1));
    }
  }

  predicate InitialisersOk(fields: seq<string>, decl: Struct, i: nat) {
    forall k :: i <= k < |fields| ==> InitialiserOk(fields, decl, k)
  }

  predicate InitialiserOk(fields: seq<string>, decl: Struct, k: nat)
    requires k < |fields|
  {
    NoRepeat(fields, k, k + 1) && fields[k] in decl.fields
  }

  lemma InitialisersFrom(fields: seq<string>, decl: Struct, i: nat)
    requires i < |fields|
    ensures InitialisersOk(fields, decl, i) <==> InitialiserOk(fields, decl, i) && InitialisersOk(fields, decl, i + 1)
  {
    if InitialiserOk(fields, decl, i) && InitialisersOk(fields, decl, i + 1) {
      forall k | i <= k < |fields| ensures InitialiserOk(fields, decl, k) {
        if k > i { assert i + 1 <= k; }
      }
    }
    if InitialisersOk(fields, decl, i) {
      assert InitialiserOk(fields, decl, i);
      forall k | i + 1 <= k < |fields| ensures InitialiserOk(fields, decl, k) {
      }
    }
  }

  lemma {:induction false} InitialisersStep(c: Context, st: State, e: Expr, decl: Struct, i: nat)
    requires Inv(st) && e.StructLiteral?
    ensures Step(st, CheckInitialisers(c, st, e, decl, i), InitialisersOk(e.fields, decl, i))
    decreases |e.fields| - i
  {
    hide Step, Inv, ReportError, CheckRepeats, NoRepeat;
    if i >= |e.fields| {
      Stay(st);
    } else {
      var x := NoRepeat(e.fields, i, i + 1);
      var st1 := CheckRepeats(c, st, e, i, i + 1);
      RepeatsStep(c, st, e, i, i + 1);
      Known(st, st1, x);
      var y := e.fields[i] in decl.fields;
      var message := "unknown field '" + e.fields[i] + "' on struct '" + e.text + "'";
      var st2 := if y then st1 else ReportError(c, st1, "NameError", message, e.loc, |e.fields[i]|);
      if y { Stay(st1); } else { ErrorStep(c, st1, "NameError", message, e.loc, |e.fields[i]|); }
      Then(st, st1, st2, x, y);
      Known(st, st2, x && y);
      InitialisersStep(c, st2, e, decl, i + 1);
      Then(st, st2, CheckInitialisers(c, st, e, decl, i), x && y, InitialisersOk(e.fields, decl, i + 1));
      InitialisersFrom(e.fields, decl, i);
    }
  }

  predicate PresentFrom(fields: seq<string>, decl: Struct, i: nat) {
    forall k :: i <= k < |decl.fields| ==> decl.fields[k] in fields
  }

  lemma {:induction false} MissingStep(c: Context, st: State, e: Expr, decl: Struct, i: nat)
    requires Inv(st) && e.StructLiteral?
    ensures Step(st, CheckMissing(c, st, e, decl, i), PresentFrom(e.fields, decl, i))
    decreases |decl.fields| - i
  {
    hide Step, Inv, ReportError;
    if i >= |decl.fields| {
      Stay(st);
    } else {
      var x := decl.fields[i] in e.fields;
      var message := "missing field '" + decl.fields[i] + "' in struct '" + e.text + "'";
      var st' := if x then st else ReportError(c, st, "NameError", message, e.loc, |decl.fields[i]|);
      if x { Stay(st); } else { ErrorStep(c, st, "NameError", message, e.loc, |decl.fields[i]|); }
      Known(st, st', x);
      MissingStep(c, st', e, decl, i + 1);
      Then(st, st', CheckMissing(c, st, e, decl, i), x, PresentFrom(e.fields, decl, i + 1));
      assert PresentFrom(e.fields, decl, i) == (x && PresentFrom(e.fields, decl, i + 1));
    }
  }

  lemma StructStep(c: Context, st: State, e: Expr)
    requires Inv(st) && e.StructLiteral?
    ensures Step(st, CheckStructFields(c, st, e), StructOk(c.program, e))
  {
    hide Step, Inv, ReportError, CheckInitialisers, CheckMissing;
    var s := FindStruct(c.program.structs, e.text);
    if s.None? {
      ErrorStep(c, st, "NameError", "unknown struct '" + e.text + "'", e.loc, |e.text|);
    } else {
      var decl := c.program.structs[s.value];
      InitialisersStep(c, st, e, decl, 0);
      var st' := CheckInitialisers(c, st, e, decl, 0);
      Known(st, st', InitialisersOk(e.fields, decl, 0));
      MissingStep(c, st', e, decl, 0);
      Then(st, st', CheckStructFields(c, st, e), InitialisersOk(e.fields, decl, 0), PresentFrom(e.fields, decl, 0));
      FieldsOk(c.program, e, decl);
    }
  }

  lemma FieldsOk(p: Program, e: Expr, decl: Struct)
    requires e.StructLiteral? && FindStruct(p.structs, e.text).Some? && decl == p.structs[FindStruct(p.structs, e.text).value]
    ensures StructOk(p, e) <==> InitialisersOk(e.fields, decl, 0) && PresentFrom(e.fields, decl, 0)
  {
    hide FindStruct;
    if InitialisersOk(e.fields, decl, 0) && PresentFrom(e.fields, decl, 0) {
      forall i, j | 0 <= i < j < |e.fields| ensures e.fields[i] != e.fields[j] {
        assert InitialiserOk(e.fields, decl, i);
      }
      forall f | f in e.fields ensures f in decl.fields {
        var i :| 0 <= i < |e.fields| && e.fields[i] == f;
        assert InitialiserOk(e.fields, decl, i);
      }
      forall f | f in decl.fields ensures f in e.fields {
        var i :| 0 <= i < |decl.fields| && decl.fields[i] == f;
      }
    }
    if StructOk(p, e) {
      forall k | 0 <= k < |e.fields| ensures InitialiserOk(e.fields, decl, k) {
        assert e.fields[k] in e.fields;
      }
      forall k | 0 <= k < |decl.fields| ensures decl.fields[k] in e.fields {
        assert decl.fields[k] in decl.fields;
      }
    }
  }
}
