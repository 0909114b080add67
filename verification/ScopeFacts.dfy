/**
  The checker's stack of frames against the scopes of the rules, operation by operation.
 */
module ScopeFacts {
  import opened Options
  import opened Diagnostics
  import opened Scoping
  import opened ScopeRules

  function NamesOf(f: Frame): Declarations
    decreases |f|
  {
    if f == [] then map[] else NamesOf(f[..|f| - 1])[f[|f| - 1].name := f[|f| - 1].mutable]
  }

  /** The scopes that a stack of frames stands for. */
  function ScopesOf(env: Env): (g: Scopes)
    ensures |g| == |env| && forall i :: 0 <= i < |g| ==> g[i] == NamesOf(env[i])
  {
    seq(|env|, i requires 0 <= i < |env| => NamesOf(env[i]))
  }

  /** No frame declares a name twice. */
  ghost predicate Distinct(f: Frame) {
    forall i, j :: 0 <= i < j < |f| ==> f[i].name != f[j].name
  }

  ghost predicate EnvOk(env: Env) {
    env != [] && forall i :: 0 <= i < |env| ==> Distinct(env[i])
  }

  // ----- frames -----

  lemma {:induction false} NamesOfFrame(f: Frame, name: string)
    ensures name in NamesOf(f) <==> FindLast(f, name).Some?
    ensures FindLast(f, name).Some? ==> NamesOf(f)[name] == f[FindLast(f, name).value].mutable
    decreases |f|
  {
    if f != [] {
      NamesOfFrame(f[..|f| - 1], name);
    }
  }

  lemma {:induction false} SameNames(f: Frame, i: nat, b: Binding)
    requires i < |f| && b.name == f[i].name && b.mutable == f[i].mutable
    ensures NamesOf(f[i := b]) == NamesOf(f)
    decreases |f|
  {
    var last := |f| - 1;
    if i < last {
      SameNames(f[..last], i, b);
      assert f[i := b][..last] == f[..last][i := b];
    } else {
      assert f[i := b][..last] == f[..last];
    }
  }

  lemma {:induction false} MadeMutable(f: Frame, i: nat)
    requires i < |f| && Distinct(f)
    ensures NamesOf(f[i := f[i].(mutable := true)]) == NamesOf(f)[f[i].name := true]
    decreases |f|
  {
    var last := |f| - 1;
    var f' := f[i := f[i].(mutable := true)];
    if i < last {
      MadeMutable(f[..last], i);
      assert f'[..last] == f[..last][i := f[..last][i].(mutable := true)];
      assert f'[last] == f[last] && f[last].name != f[i].name;
    } else {
      assert f'[..last] == f[..last];
    }
  }

  lemma Appended(f: Frame, b: Binding)
    ensures NamesOf(f + [b]) == NamesOf(f)[b.name := b.mutable]
  {
    assert (f + [b])[..|f|] == f;
  }

  // ----- stacks -----

  lemma BoundHereOrBelow(g: Scopes, name: string)
    requires g != []
    ensures Bound(g, name) <==> name in g[|g| - 1] || Bound(g[..|g| - 1], name)
  {
    var last := |g| - 1;
    if Bound(g, name) && name !in g[last] {
      var i :| 0 <= i < |g| && name in g[i];
      assert name in g[..last][i];
    }
    if Bound(g[..last], name) {
      var i :| 0 <= i < last && name in g[..last][i];
      assert name in g[i];
    }
  }

  lemma {:induction false} LookupIsBound(env: Env, name: string)
    ensures Lookup(env, name).Some? <==> Bound(ScopesOf(env), name)
    ensures Lookup(env, name).Some? ==> Found(env, name).mutable == MutableIn(ScopesOf(env), name)
    decreases |env|
  {
    hide NamesOf, FindLast;
    if env == [] {
      assert !Bound(ScopesOf(env), name);
    } else {
      hide Bound;
      var g := ScopesOf(env);
      var last := |env| - 1;
      NamesOfFrame(env[last], name);
      LookupIsBound(env[..last], name);
      assert g[..last] == ScopesOf(env[..last]);
      BoundHereOrBelow(g, name);
    }
  }

  lemma UpdateKeepsScopes(env: Env, at: (nat, nat), b: Binding)
    requires EnvOk(env) && at.0 < |env| && at.1 < |env[at.0]|
    requires b.name == env[at.0][at.1].name && b.mutable == env[at.0][at.1].mutable
    ensures ScopesOf(Update(env, at, b)) == ScopesOf(env) && EnvOk(Update(env, at, b))
  {
    SameNames(env[at.0], at.1, b);
    assert Distinct(env[at.0]);
  }

  lemma MarkUsedKeepsScopes(env: Env, name: string)
    requires EnvOk(env)
    ensures ScopesOf(MarkUsed(env, name)) == ScopesOf(env) && EnvOk(MarkUsed(env, name))
  {
    if Lookup(env, name).Some? {
      var at := Lookup(env, name).value;
      UpdateKeepsScopes(env, at, env[at.0][at.1].(used := true));
    }
  }

  /** Replacing the innermost frame. */
  lemma NewTop(env: Env, f: Frame)
    requires EnvOk(env) && Distinct(f)
    ensures EnvOk(Below(env) + [f])
    ensures ScopesOf(Below(env) + [f]) == ScopesOf(env)[|env| - 1 := NamesOf(f)]
  {
    hide NamesOf, Distinct;
  }

  lemma MarkMutableScopes(env: Env, name: string)
    requires EnvOk(env)
    ensures EnvOk(MarkMutable(env, name))
    ensures ScopesOf(MarkMutable(env, name))
            == if name in ScopesOf(env)[|env| - 1] then Extend(ScopesOf(env), name, true) else ScopesOf(env)
  {
    hide NamesOf;
    var top := env[|env| - 1];
    NamesOfFrame(top, name);
    var at := FindFirst(top, name);
    if at.Some? {
      assert Distinct(top);
      MadeMutable(top, at.value);
      NewTop(env, top[at.value := top[at.value].(mutable := true)]);
    }
  }

  lemma AddExtends(env: Env, b: Binding)
    requires EnvOk(env) && FindFirst(Top(env), b.name).None?
    ensures EnvOk(Add(env, b)) && ScopesOf(Add(env, b)) == Extend(ScopesOf(env), b.name, b.mutable)
  {
    hide NamesOf;
    Appended(Top(env), b);
    assert Distinct(Top(env));
    NewTop(env, Top(env) + [b]);
  }

  lemma FreshIsNotFound(env: Env, name: string)
    requires env != [] && name != "_"
    ensures Fresh(ScopesOf(env), name) <==> FindFirst(Top(env), name).None?
  {
    NamesOfFrame(Top(env), name);
  }

  // ----- reports -----

  ghost predicate ReportOk(r: Report) {
    ValidBag(r.bag) && PlainBag(r.bag) && r.bag.limit > 0 && r.errors == r.bag.errors
  }

  /** Not the start of a warning. */
  predicate ErrorText(message: string) {
    |message| > 2 && (message[0] != 'u' || message[2] != 'u')
  }

  lemma AddErrorCounts(c: Context, r: Report, kind: string, message: string, loc: Loc, length: int)
    requires ReportOk(r) && ErrorText(message)
    ensures ReportOk(AddError(c, r, kind, message, loc, length))
    ensures AddError(c, r, kind, message, loc, length).errors > 0
  {
    var d := Diag(c.code(kind, message), Level.Error, FullMessage(c.func, message), SpanOf(c, loc, length));
    assert "unused"[0] == 'u' && "unused"[2] == 'u';
    assert d.message[0] == if c.func != "" then 'i' else message[0];
    assert Plain(d);
    EmitKeepsValid(r.bag, d);
    FirstErrorIsRecorded(r.bag, d);
  }

  lemma AddWarningCounts(c: Context, r: Report, kind: string, message: string, loc: Loc, length: int)
    requires ReportOk(r) && "unused" <= message
    ensures ReportOk(AddWarning(c, r, kind, message, loc, length))
    ensures AddWarning(c, r, kind, message, loc, length).errors == r.errors
  {
    if r.emitWarnings {
      hide ValidBag, PlainBag, Repeats, CountErrors;
      var d := Diag(c.code(kind, message), Warning, message, SpanOf(c, loc, length));
      EmitKeepsValid(r.bag, d);
      EmitKeepsPlain(r.bag, d);
    }
  }

  lemma {:induction false} WarnUnusedCounts(c: Context, r: Report, f: Frame)
    requires ReportOk(r)
    ensures ReportOk(WarnUnused(c, r, f)) && WarnUnused(c, r, f).errors == r.errors
    decreases |f|
  {
    if f != [] {
      var b := f[|f| - 1];
      if b.warn && !b.used {
        var message := "unused variable '" + b.name + "'";
        assert "unused" == "unused variable '"[..6] == message[..6];
        AddWarningCounts(c, r, "SemanticWarning", message, b.loc, |b.name|);
        WarnUnusedCounts(c, AddWarning(c, r, "SemanticWarning", message, b.loc, |b.name|), f[..|f| - 1]);
      } else {
        WarnUnusedCounts(c, r, f[..|f| - 1]);
      }
    }
  }
}
