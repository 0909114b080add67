/**
  What the rules say of matches: which names a pattern declares, and which matches count as
  exhaustive, with the types and texts that decide it.
 */
module MatchRules {
  import opened Options
  import opened Scoping
  import opened ScopeRules

  /** The argument of `Some`, and those arguments of a constructor that are names. */
  lemma {:induction false} BindersAre(p: Program, pattern: Expr, x: Expr)
    ensures x in Binders(p, pattern)
            <==> x.Ident? && (|| pattern == OptionOf(true, x)
                              || (pattern.Call? && x in pattern.args && exists a :: 0 <= a < |p.adts| && pattern.text in p.adts[a].variants))
  {
    if pattern.Call? { NamesAmong(pattern.args, x); }
  }

  lemma {:induction false} NamesAmong(es: seq<Expr>, x: Expr)
    ensures x in Identifiers(es) <==> x.Ident? && x in es
  {
    if es != [] { NamesAmong(es[1..], x); }
  }

  /** Pattern k is the first that says the name of a variant, and type a the first that has the
      variant. */
  ghost predicate Decides(p: Program, patterns: seq<Expr>, k: nat, a: nat) {
    && k < |patterns| && a < |p.adts| && Text(patterns[k]) in p.adts[a].variants
    && (forall b :: 0 <= b < a ==> Text(patterns[k]) !in p.adts[b].variants)
    && forall j, b :: 0 <= j < k && 0 <= b < |p.adts| ==> Text(patterns[j]) !in p.adts[b].variants
  }

  lemma {:induction false} MatchedIsDecided(p: Program, patterns: seq<Expr>, a: nat)
    ensures MatchedAdt(p, patterns) == Some(a) <==> exists k: nat :: Decides(p, patterns, k, a)
    decreases |patterns|
  {
    if patterns != [] {
      var rest := patterns[1..];
      var here := FindVariant(p.adts, Text(patterns[0]));
      if here.Some? {
        if here == Some(a) { assert Decides(p, patterns, 0, a); }
      } else {
        MatchedIsDecided(p, rest, a);
        if MatchedAdt(p, rest) == Some(a) {
          var k: nat :| Decides(p, rest, k, a);
          assert Decides(p, patterns, k + 1, a) by { assert patterns[k + 1] == rest[k]; }
        }
        if k: nat :| Decides(p, patterns, k, a) {
          assert patterns[0] == patterns[k] || k > 0;
          assert k > 0 && Decides(p, rest, k - 1, a) by { assert patterns[k] == rest[k - 1]; }
        }
      }
    }
  }

  /** A match is exhaustive when it has a wildcard, or when every variant of the type that
      decides is the text of some pattern; without such a type it is as well. */
  lemma ExhaustiveIs(p: Program, patterns: seq<Expr>)
    ensures Exhaustive(p, patterns)
            <==> || NoExpr in patterns
                 || forall k: nat, a: nat :: Decides(p, patterns, k, a) ==>
                      forall v :: v in p.adts[a].variants ==> exists i :: 0 <= i < |patterns| && Text(patterns[i]) == v
  {
    hide Decides, MatchedAdt;
    forall k: nat, a: nat | Decides(p, patterns, k, a) ensures MatchedAdt(p, patterns) == Some(a) {
      MatchedIsDecided(p, patterns, a);
    }
    if MatchedAdt(p, patterns).Some? {
      MatchedIsDecided(p, patterns, MatchedAdt(p, patterns).value);
    }
    assert forall v :: Names(patterns, v) <==> exists i :: 0 <= i < |patterns| && Text(patterns[i]) == v;
  }

  /** Only texts count: a string that is spelled like a variant stands for it. */
  lemma ATextCountsAsAVariant(p: Program, x: string, y: string)
    requires |p.adts| == 1 && p.adts[0].variants == [x, y] && x != y
    ensures Exhaustive(p, [Call(x, NoExpr, 0, [], Loc(0, 0)), Literal(y)])
    ensures !Exhaustive(p, [Call(x, NoExpr, 0, [], Loc(0, 0))])
  {
    var one := [Call(x, NoExpr, 0, [], Loc(0, 0))];
    var two := [Call(x, NoExpr, 0, [], Loc(0, 0)), Literal(y)];
    assert Decides(p, one, 0, 0) && Decides(p, two, 0, 0);
    MatchedIsDecided(p, one, 0);
    MatchedIsDecided(p, two, 0);
    assert Text(two[0]) == x && Text(two[1]) == y;
    assert y in p.adts[0].variants && Text(one[0]) == x;
  }
}
