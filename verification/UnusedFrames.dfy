/**
  Marks of use on a stack of frames, told by names alone, and the warnings for a frame.
 */
module UnusedFrames {
  import opened Diagnostics
  import opened Scoping
  import opened ScopeFacts
  import opened UnusedRules

  function FrameNames(f: Frame): set<string> {
    set i | 0 <= i < |f| :: f[i].name
  }

  /** No frame further in declares the name. */
  ghost predicate Innermost(env: Env, i: nat, name: string) {
    forall k :: i < k < |env| ==> name !in FrameNames(env[k])
  }

  /** A binding afterwards: only its mark may be new, and it is if one of the uses finds it. */
  ghost predicate KeptAt(a: Env, b: Env, uses: set<string>, i: nat, j: nat)
    requires i < |a| && i < |b| && j < |a[i]| && j < |b[i]|
  {
    && b[i][j].name == a[i][j].name && b[i][j].loc == a[i][j].loc && b[i][j].warn == a[i][j].warn
    && (b[i][j].used <==> a[i][j].used || (a[i][j].name in uses && Innermost(a, i, a[i][j].name)))
  }

  /** The stack after something with these uses; the innermost frame may have grown. */
  ghost predicate Grown(a: Env, b: Env, uses: set<string>) {
    && a != [] && |b| == |a|
    && (forall i :: 0 <= i < |a| ==> |a[i]| <= |b[i]| && (i < |a| - 1 ==> |a[i]| == |b[i]|))
    && (forall i, j :: 0 <= i < |a| && 0 <= j < |a[i]| ==> KeptAt(a, b, uses, i, j))
  }

  /** What the innermost frame has grown by. */
  function Added(a: Env, b: Env): Frame
    requires a != [] && |b| == |a| && |a[|a| - 1]| <= |b[|b| - 1]|
  {
    b[|b| - 1][|a[|a| - 1]|..]
  }

  /** The declarations of a frame that are reported when nothing uses them later. */
  function UnusedOf(f: Frame, later: set<string>): set<Decl> {
    set i | 0 <= i < |f| && f[i].warn && !f[i].used && f[i].name !in later :: (f[i].name, f[i].loc)
  }

  // ----- lookup -----

  lemma FrameHas(f: Frame, name: string)
    ensures FindLast(f, name).Some? <==> name in FrameNames(f)
  {
    var r := FindLast(f, name);
    if r.Some? { assert f[r.value].name in FrameNames(f); }
  }

  lemma {:induction false} LookupIsInnermost(env: Env, name: string)
    ensures match Lookup(env, name)
            case None => forall i :: 0 <= i < |env| ==> name !in FrameNames(env[i])
            case Some(at) => Innermost(env, at.0, name)
    decreases |env|
  {
    hide FrameNames, FindLast;
    if env != [] {
      var last := |env| - 1;
      FrameHas(env[last], name);
      if FindLast(env[last], name).None? {
        LookupIsInnermost(env[..last], name);
        assert forall i :: 0 <= i < last ==> env[..last][i] == env[i];
      }
    }
  }

  /** Marking a use. */
  lemma MarkedIsGrown(env: Env, name: string)
    requires EnvOk(env)
    ensures Grown(env, MarkUsed(env, name), {name}) && Added(env, MarkUsed(env, name)) == []
  {
    hide Lookup;
    var b := MarkUsed(env, name);
    LookupIsInnermost(env, name);
    forall i, j | 0 <= i < |env| && 0 <= j < |env[i]| ensures KeptAt(env, b, {name}, i, j) {
      MarkedAt(env, name, i, j);
    }
  }

  lemma MarkedAt(env: Env, name: string, i: nat, j: nat)
    requires EnvOk(env) && i < |env| && j < |env[i]|
    requires match Lookup(env, name)
             case None => forall k :: 0 <= k < |env| ==> name !in FrameNames(env[k])
             case Some(at) => Innermost(env, at.0, name)
    ensures |MarkUsed(env, name)| == |env| && |MarkUsed(env, name)[i]| == |env[i]| && KeptAt(env, MarkUsed(env, name), {name}, i, j)
  {
    hide Lookup;
    assert env[i][j].name in FrameNames(env[i]);
    assert Distinct(env[i]);
    var r := Lookup(env, name);
    if r.Some? && env[i][j].name == name {
      assert env[r.value.0][r.value.1].name in FrameNames(env[r.value.0]);
      if i < r.value.0 { assert !Innermost(env, i, name); }
    }
  }

  lemma SameGrown(env: Env)
    requires env != []
    ensures Grown(env, env, {}) && Added(env, env) == []
  {
  }

  // ----- one after the other -----

  lemma NamesKept(a: Env, b: Env, uses: set<string>, k: nat)
    requires Grown(a, b, uses) && k < |a|
    ensures FrameNames(a[k]) <= FrameNames(b[k]) && (k < |a| - 1 ==> FrameNames(b[k]) == FrameNames(a[k]))
    ensures k == |a| - 1 ==> FrameNames(b[k]) == FrameNames(a[k]) + FrameNames(Added(a, b))
  {
    forall j | 0 <= j < |a[k]| ensures b[k][j].name == a[k][j].name {
      assert KeptAt(a, b, uses, k, j);
    }
    if k == |a| - 1 {
      var added := Added(a, b);
      forall j | 0 <= j < |b[k]| ensures b[k][j].name in FrameNames(a[k]) + FrameNames(added) {
        if j >= |a[k]| { assert added[j - |a[k]|] == b[k][j]; }
      }
      forall j | 0 <= j < |added| ensures added[j].name in FrameNames(b[k]) {
        assert added[j] == b[k][|a[k]| + j];
      }
    }
  }

  lemma InnermostKept(a: Env, b: Env, uses: set<string>, i: nat, name: string)
    requires Grown(a, b, uses) && i < |a|
    ensures Innermost(b, i, name) <==> Innermost(a, i, name) && (i < |a| - 1 ==> name !in FrameNames(Added(a, b)))
  {
    hide FrameNames, KeptAt;
    forall k | i < k < |a|
      ensures name in FrameNames(b[k]) <==> name in FrameNames(a[k]) || (k == |a| - 1 && name in FrameNames(Added(a, b)))
    {
      NamesKept(a, b, uses, k);
    }
  }

  /** The names added to a frame without duplicates are not in it. */
  lemma AddedAreNew(a: Env, b: Env, uses: set<string>, j: nat)
    requires Grown(a, b, uses) && EnvOk(b) && j < |a[|a| - 1]|
    ensures a[|a| - 1][j].name !in FrameNames(Added(a, b))
  {
    var last := |a| - 1;
    assert KeptAt(a, b, uses, last, j) && Distinct(b[last]);
    forall k | 0 <= k < |Added(a, b)| ensures Added(a, b)[k].name != a[last][j].name {
      assert Added(a, b)[k] == b[last][|a[last]| + k];
    }
  }

  lemma GrownThen(a: Env, b: Env, d: Env, u: set<string>, v: set<string>)
    requires Grown(a, b, u) && Grown(b, d, v) && EnvOk(b)
    ensures Grown(a, d, u + (v - FrameNames(Added(a, b))))
  {
    hide FrameNames, Innermost;
    var w := u + (v - FrameNames(Added(a, b)));
    forall i, j | 0 <= i < |a| && 0 <= j < |a[i]| ensures KeptAt(a, d, w, i, j) {
      assert KeptAt(a, b, u, i, j) && KeptAt(b, d, v, i, j);
      InnermostKept(a, b, u, i, a[i][j].name);
      if i == |a| - 1 { AddedAreNew(a, b, u, j); }
    }
  }

  lemma AddedThen(a: Env, b: Env, d: Env, u: set<string>, v: set<string>, later: set<string>)
    requires Grown(a, b, u) && Grown(b, d, v) && EnvOk(b)
    ensures Grown(a, d, u + (v - FrameNames(Added(a, b))))
    ensures FrameNames(Added(a, d)) == FrameNames(Added(a, b)) + FrameNames(Added(b, d))
    ensures UnusedOf(Added(a, d), later) == UnusedOf(Added(a, b), v + later) + UnusedOf(Added(b, d), later)
  {
    GrownThen(a, b, d, u, v);
    var last := |a| - 1;
    var (x, y, z) := (Added(a, b), Added(b, d), Added(a, d));
    forall j | 0 <= j < |x|
      ensures z[j].name == x[j].name && z[j].loc == x[j].loc && z[j].warn == x[j].warn
      ensures z[j].used <==> x[j].used || x[j].name in v
    {
      assert KeptAt(b, d, v, last, |a[last]| + j);
    }
    forall j | 0 <= j < |y| ensures z[|x| + j] == y[j] {
    }
    AddedSplit(x, y, z, v, later);
  }

  lemma AddedSplit(x: Frame, y: Frame, z: Frame, v: set<string>, later: set<string>)
    requires |z| == |x| + |y| && forall j :: 0 <= j < |y| ==> z[|x| + j] == y[j]
    requires forall j :: 0 <= j < |x| ==> z[j].name == x[j].name && z[j].loc == x[j].loc && z[j].warn == x[j].warn
    requires forall j :: 0 <= j < |x| ==> (z[j].used <==> x[j].used || x[j].name in v)
    ensures FrameNames(z) == FrameNames(x) + FrameNames(y)
    ensures UnusedOf(z, later) == UnusedOf(x, v + later) + UnusedOf(y, later)
  {
    forall j | 0 <= j < |z| ensures z[j].name in FrameNames(x) + FrameNames(y) {
      if j >= |x| { assert z[j] == y[j - |x|]; }
    }
    forall j | 0 <= j < |y| ensures y[j].name in FrameNames(z) {
      assert z[|x| + j] == y[j];
    }
    forall j | 0 <= j < |x| ensures x[j].name in FrameNames(z) {
      assert z[j].name == x[j].name;
    }
    forall d | d in UnusedOf(z, later) ensures d in UnusedOf(x, v + later) + UnusedOf(y, later) {
      var j :| 0 <= j < |z| && z[j].warn && !z[j].used && z[j].name !in later && d == (z[j].name, z[j].loc);
      if j >= |x| { assert z[j] == y[j - |x|]; } else { assert !x[j].used && x[j].name !in v + later; }
    }
    forall d | d in UnusedOf(x, v + later) ensures d in UnusedOf(z, later) {
      var j :| 0 <= j < |x| && x[j].warn && !x[j].used && x[j].name !in v + later && d == (x[j].name, x[j].loc);
      assert z[j].warn && !z[j].used && z[j].name !in later;
    }
    forall d | d in UnusedOf(y, later) ensures d in UnusedOf(z, later) {
      var j :| 0 <= j < |y| && y[j].warn && !y[j].used && y[j].name !in later && d == (y[j].name, y[j].loc);
      assert z[|x| + j] == y[j];
    }
  }

  // ----- declarations -----

  lemma AddIsGrown(env: Env, b: Binding)
    requires env != []
    ensures Grown(env, Add(env, b), {}) && Added(env, Add(env, b)) == [b]
  {
    var last := |env| - 1;
    var d := Add(env, b);
    assert d[last] == env[last] + [b] && forall i :: 0 <= i < last ==> d[i] == env[i];
    forall i, j | 0 <= i < |env| && 0 <= j < |env[i]| ensures KeptAt(env, d, {}, i, j) {
    }
  }

  /** Mutability is not looked at here. */
  lemma MutableIsGrown(env: Env, name: string)
    requires env != []
    ensures Grown(env, MarkMutable(env, name), {}) && Added(env, MarkMutable(env, name)) == []
  {
    var last := |env| - 1;
    var d := MarkMutable(env, name);
    assert forall i :: 0 <= i < last ==> d[i] == env[i];
    forall i, j | 0 <= i < |env| && 0 <= j < |env[i]| ensures KeptAt(env, d, {}, i, j) {
    }
  }

  /** Leaving a frame: the frames below keep what was marked in them. */
  lemma PoppedIsGrown(env: Env, inner: Env, uses: set<string>)
    requires env != [] && Grown(env + [[]], inner, uses)
    ensures Grown(env, Below(inner), uses) && Added(env, Below(inner)) == [] && Top(inner) == Added(env + [[]], inner)
  {
    var pushed := env + [[]];
    var d := Below(inner);
    assert pushed[|env|] == [];
    assert FrameNames(pushed[|env|]) == {};
    forall i, j | 0 <= i < |env| && 0 <= j < |env[i]| ensures KeptAt(env, d, uses, i, j) {
      assert KeptAt(pushed, inner, uses, i, j);
      assert Innermost(pushed, i, env[i][j].name) <==> Innermost(env, i, env[i][j].name) by {
        assert forall k :: i < k < |env| ==> pushed[k] == env[k];
      }
    }
  }

  // ----- warnings -----

  function WarningOf(c: Context, d: Decl): Diag {
    var message := "unused variable '" + d.0 + "'";
    Diag(c.code("SemanticWarning", message), Warning, message, SpanOf(c, d.1, |d.0|))
  }

  ghost predicate OneOf(c: Context, g: Diag, unused: set<Decl>) {
    exists d :: d in unused && g == WarningOf(c, d)
  }

  /** With warnings on, exactly these are recorded, up to repeats in the bag; nothing else
      of the bag changes. */
  ghost predicate Recorded(c: Context, a: Report, b: Report, unused: set<Decl>) {
    && b.emitWarnings == a.emitWarnings && b.errors == a.errors && a.bag.diags <= b.bag.diags
    && b.warnings - a.warnings == |b.bag.diags| - |a.bag.diags|
    && (!a.emitWarnings ==> b == a)
    && (a.emitWarnings ==> forall d :: d in unused ==> Repeats(b.bag.diags, WarningOf(c, d)))
    && (forall i :: |a.bag.diags| <= i < |b.bag.diags| ==> OneOf(c, b.bag.diags[i], unused))
  }

  lemma NothingRecorded(c: Context, a: Report)
    ensures Recorded(c, a, a, {})
  {
  }

  lemma RepeatsMore(a: seq<Diag>, b: seq<Diag>, d: Diag)
    requires a <= b && Repeats(a, d)
    ensures Repeats(b, d)
  {
    var i :| 0 <= i < |a| && Same(a[i], d);
    assert b[i] == a[i];
  }

  lemma RecordedThen(c: Context, a: Report, b: Report, e: Report, u: set<Decl>, v: set<Decl>)
    requires Recorded(c, a, b, u) && Recorded(c, b, e, v)
    ensures Recorded(c, a, e, u + v)
  {
    hide Repeats, WarningOf;
    forall d | d in u + v && a.emitWarnings ensures Repeats(e.bag.diags, WarningOf(c, d)) {
      if d in u { RepeatsMore(b.bag.diags, e.bag.diags, WarningOf(c, d)); }
    }
    forall i | |a.bag.diags| <= i < |e.bag.diags| ensures OneOf(c, e.bag.diags[i], u + v) {
      if i < |b.bag.diags| {
        assert OneOf(c, b.bag.diags[i], u);
      } else {
        assert OneOf(c, e.bag.diags[i], v);
      }
    }
  }

  lemma WarningIsRecorded(c: Context, r: Report, b: Binding)
    ensures Recorded(c, r, AddWarning(c, r, "SemanticWarning", "unused variable '" + b.name + "'", b.loc, |b.name|), {(b.name, b.loc)})
  {
    var d := (b.name, b.loc);
    var g := WarningOf(c, d);
    if r.emitWarnings {
      var b' := Emit(r.bag, g);
      if Repeats(r.bag.diags, g) {
        assert b' == r.bag;
      } else {
        assert b'.diags == r.bag.diags + [g];
        assert Same(b'.diags[|r.bag.diags|], g);
        assert OneOf(c, g, {d});
      }
    }
  }

  /** Leaving a frame warns about those of its declarations that are not marked. */
  lemma {:induction false} FrameIsRecorded(c: Context, r: Report, f: Frame)
    ensures Recorded(c, r, WarnUnused(c, r, f), UnusedOf(f, {}))
    decreases |f|
  {
    hide AddWarning, Recorded;
    if f == [] {
      NothingRecorded(c, r);
      assert UnusedOf(f, {}) == {};
    } else {
      var b, rest := f[|f| - 1], f[..|f| - 1];
      LastUnused(f);
      if b.warn && !b.used {
        var r' := AddWarning(c, r, "SemanticWarning", "unused variable '" + b.name + "'", b.loc, |b.name|);
        WarningIsRecorded(c, r, b);
        FrameIsRecorded(c, r', rest);
        RecordedThen(c, r, r', WarnUnused(c, r, f), {(b.name, b.loc)}, UnusedOf(rest, {}));
        assert {(b.name, b.loc)} + UnusedOf(rest, {}) == UnusedOf(f, {});
      } else {
        FrameIsRecorded(c, r, rest);
        assert UnusedOf(f, {}) == UnusedOf(rest, {});
      }
    }
  }

  lemma LastUnused(f: Frame)
    requires f != []
    ensures var b, rest := f[|f| - 1], f[..|f| - 1];
            UnusedOf(f, {}) == UnusedOf(rest, {}) + if b.warn && !b.used then {(b.name, b.loc)} else {}
  {
    var b, rest := f[|f| - 1], f[..|f| - 1];
    forall d | d in UnusedOf(f, {}) ensures d in UnusedOf(rest, {}) + if b.warn && !b.used then {(b.name, b.loc)} else {} {
      var j :| 0 <= j < |f| && f[j].warn && !f[j].used && d == (f[j].name, f[j].loc);
      if j < |rest| { assert rest[j] == f[j]; }
    }
    forall d | d in UnusedOf(rest, {}) ensures d in UnusedOf(f, {}) {
      var j :| 0 <= j < |rest| && rest[j].warn && !rest[j].used && d == (rest[j].name, rest[j].loc);
      assert f[j] == rest[j];
    }
  }
}
