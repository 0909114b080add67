/**
  When some arm takes every value of a type: what the test for exhaustive matches is for.
 */
module MatchCover {
  import opened Options
  import opened AdtLowering
  import opened AdtMeaning
  import AdtPreserved

  /** Some arm takes the value, and those before it turn it away. */
  ghost predicate Taken(w: World, patterns: seq<Exp>, v: Value, vars: map<string, Value>)
    requires Declared(w.adts)
  {
    exists k :: 0 <= k < |patterns| && Takes(w, patterns[k], v, vars) == Some(true)
                && forall i :: 0 <= i < k ==> Takes(w, patterns[i], v, vars) == Some(false)
  }

  /** A variant with nothing, a name or `_` in its parentheses. */
  predicate Plain(adts: seq<Adt>, p: Exp) {
    IsCtor(adts, p) && (p.tag == "ident" || p.args == [] || NamesPayload(adts, p.args[0]))
  }

  predicate OfType(adts: seq<Adt>, v: Value, d: nat) {
    v.Con? && FindVariant(adts, v.name) == d
  }

  predicate Says(p: Exp, name: string) {
    p.Exp? && p.text == name
  }

  lemma PlainTakes(w: World, p: Exp, v: Value, vars: map<string, Value>, d: nat)
    requires Declared(w.adts) && w.source && Plain(w.adts, p) && FindVariant(w.adts, p.text) == d && OfType(w.adts, v, d)
    ensures Takes(w, p, v, vars) == Some(Says(p, v.name))
  {
  }

  /** The first pattern from k on that has the name. */
  lemma {:induction false} FirstNamed(patterns: seq<Exp>, name: string, k: nat) returns (r: nat)
    requires exists i :: k <= i < |patterns| && Says(patterns[i], name)
    ensures k <= r < |patterns| && Says(patterns[r], name) && forall i :: k <= i < r ==> !Says(patterns[i], name)
    decreases |patterns| - k
  {
    if Says(patterns[k], name) { r := k; } else { r := FirstNamed(patterns, name, k + 1); }
  }

  /** A match whose patterns are variants of one type with nothing but names in them takes every
      value of the type exactly when every variant of the type is named. */
  lemma NamedIsTaken(w: World, patterns: seq<Exp>, d: nat, vars: map<string, Value>)
    requires Declared(w.adts) && w.source && d < |w.adts|
    requires forall k :: 0 <= k < |patterns| ==> Plain(w.adts, patterns[k]) && FindVariant(w.adts, patterns[k].text) == d
    ensures (forall v :: OfType(w.adts, v, d) ==> Taken(w, patterns, v, vars))
            <==> forall name :: name in w.adts[d].variants && FindVariant(w.adts, name) == d ==>
                   exists k :: 0 <= k < |patterns| && Says(patterns[k], name)
  {
    hide Plain, Takes, FindVariant;
    forall v | OfType(w.adts, v, d)
      ensures Taken(w, patterns, v, vars) <==> exists k :: 0 <= k < |patterns| && Says(patterns[k], v.name)
    {
      forall k | 0 <= k < |patterns| ensures Takes(w, patterns[k], v, vars) == Some(Says(patterns[k], v.name)) {
        PlainTakes(w, patterns[k], v, vars, d);
      }
      if exists k :: 0 <= k < |patterns| && Says(patterns[k], v.name) {
        var r := FirstNamed(patterns, v.name, 0);
        assert Takes(w, patterns[r], v, vars) == Some(true);
      }
    }
    if forall v :: OfType(w.adts, v, d) ==> Taken(w, patterns, v, vars) {
      forall name | name in w.adts[d].variants && FindVariant(w.adts, name) == d
        ensures exists k :: 0 <= k < |patterns| && Says(patterns[k], name)
      {
        assert OfType(w.adts, Con(name, []), d);
      }
    }
    if forall name :: name in w.adts[d].variants && FindVariant(w.adts, name) == d ==>
         exists k :: 0 <= k < |patterns| && Says(patterns[k], name)
    {
      forall v | OfType(w.adts, v, d) ensures Taken(w, patterns, v, vars) {
        FoundInIt(w.adts, v.name, d);
      }
    }
  }

  lemma FoundInIt(adts: seq<Adt>, name: string, d: nat)
    requires FindVariant(adts, name) == d
    ensures d < |adts| && name in adts[d].variants
  {
  }

  /** A variant with a number in its parentheses counts as named, and yet its other values are
      taken by no arm: the match does nothing for them. */
  lemma ANumberInAVariantIsNotCovered(w: World, x: string, y: string, n: int, m: int, bodies: seq<Stm>, st: State, fuel: nat)
    requires w.adts == [Adt("T", [x, y], ["i32", ""])] && w.source && x != y && |bodies| == 2
    requires n != m && -0x8000_0000 <= n < 0x8000_0000
    ensures Exec(w, Match(Call(x, [IntLit(n)]), [Call(x, [IntLit(m)]), Ident(y)], bodies), st, fuel) == Some(Next(st))
  {
    var patterns, v := [Call(x, [IntLit(m)]), Ident(y)], Con(x, [Int(n)]);
    TheOnlyType(w.adts, x, y);
    BuiltFrom(w, x, y, n, st.vars);
    NeitherTakes(w, x, y, n, m, st.vars);
    hide Eval, Takes, Bound;
    assert ExecArms(w, v, patterns, bodies, 2, st, fuel) == Some(Next(st));
    assert ExecArms(w, v, patterns, bodies, 1, st, fuel) == Some(Next(st));
  }

  lemma TheOnlyType(adts: seq<Adt>, x: string, y: string)
    requires adts == [Adt("T", [x, y], ["i32", ""])] && x != y
    ensures FindVariant(adts, x) == FindVariant(adts, y) == 0 && PayloadOf(adts, x) == "i32"
  {
  }

  lemma BuiltFrom(w: World, x: string, y: string, n: int, vars: map<string, Value>)
    requires w.adts == [Adt("T", [x, y], ["i32", ""])] && w.source && x != y && -0x8000_0000 <= n < 0x8000_0000
    ensures Eval(w, Call(x, [IntLit(n)]), vars) == Some(Con(x, [Int(n)]))
  {
    hide FindVariant, PayloadOf;
    TheOnlyType(w.adts, x, y);
    AdtPreserved.EvalOne(w, IntLit(n), vars, Int(n));
  }

  lemma NeitherTakes(w: World, x: string, y: string, n: int, m: int, vars: map<string, Value>)
    requires w.adts == [Adt("T", [x, y], ["i32", ""])] && w.source && x != y && n != m
    ensures Takes(w, Call(x, [IntLit(m)]), Con(x, [Int(n)]), vars) == Some(false)
    ensures Takes(w, Ident(y), Con(x, [Int(n)]), vars) == Some(false)
  {
    hide FindVariant;
    TheOnlyType(w.adts, x, y);
    assert Takes(w, IntLit(m), Int(n), vars) == Some(false);
  }
}
