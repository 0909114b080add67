/**
  Matching brackets: the validation, the two searches, and why they agree.
 */
module Brackets {
  import opened Options

  /** The brackets open before position i, less those closed. */
  function Depth(p: string, i: nat): int
    requires i <= |p|
  {
    if i == 0 then 0
    else Depth(p, i - 1) + if p[i - 1] == '[' then 1 else if p[i - 1] == ']' then -1 else 0
  }

  /** Never more closed than opened, and none left open. */
  ghost predicate Balanced(p: string) {
    Depth(p, |p|) == 0 && forall i :: 0 <= i <= |p| ==> Depth(p, i) >= 0
  }

  /** The bracket at j closes the one at i. */
  ghost predicate Match(p: string, i: nat, j: nat) {
    && i < j < |p| && p[i] == '[' && p[j] == ']' && Depth(p, j + 1) == Depth(p, i)
    && forall k :: i < k <= j ==> Depth(p, k) > Depth(p, i)
  }

  // ----- the searches -----

  function ForwardFrom(p: string, i: nat, depth: int): (r: Option<nat>)
    requires i <= |p|
    ensures r.Some? ==> i <= r.value < |p|
    decreases |p| - i
  {
    if i == |p| then None
    else if p[i] == '[' then ForwardFrom(p, i + 1, depth + 1)
    else if p[i] == ']' then if depth == 1 then Some(i) else ForwardFrom(p, i + 1, depth - 1)
    else ForwardFrom(p, i + 1, depth)
  }

  function Forward(p: string, pc: nat): (r: Option<nat>)
    requires pc < |p|
    ensures r.Some? ==> pc < r.value < |p|
  {
    ForwardFrom(p, pc + 1, 1)
  }

  /** From the position before i backwards. */
  function BackwardFrom(p: string, i: nat, depth: int): (r: Option<nat>)
    requires i <= |p|
    ensures r.Some? ==> r.value < i
  {
    if i == 0 then None
    else if p[i - 1] == ']' then BackwardFrom(p, i - 1, depth + 1)
    else if p[i - 1] == '[' then if depth == 1 then Some(i - 1) else BackwardFrom(p, i - 1, depth - 1)
    else BackwardFrom(p, i - 1, depth)
  }

  function Backward(p: string, pc: nat): (r: Option<nat>)
    requires pc < |p|
    ensures r.Some? ==> r.value < pc
  {
    BackwardFrom(p, pc, 1)
  }

  method FindForward(p: string, pc: nat) returns (at: Option<nat>)
    requires pc < |p|
    ensures at == Forward(p, pc)
  {
    var depth := 1;
    var i := pc + 1;
    while i < |p|
      invariant i <= |p| && ForwardFrom(p, i, depth) == Forward(p, pc)
    {
      if p[i] == '[' {
        depth := depth + 1;
      } else if p[i] == ']' {
        depth := depth - 1;
        if depth == 0 { return Some(i); }
      }
      i := i + 1;
    }
    at := None;
  }

  method FindBackward(p: string, pc: nat) returns (at: Option<nat>)
    requires pc < |p|
    ensures at == Backward(p, pc)
  {
    var depth := 1;
    var i: int := pc - 1;
    while i >= 0
      invariant -1 <= i < |p| && BackwardFrom(p, i + 1, depth) == Backward(p, pc)
    {
      if p[i] == ']' {
        depth := depth + 1;
      } else if p[i] == '[' {
        depth := depth - 1;
        if depth == 0 { return Some(i); }
      }
      i := i - 1;
    }
    at := None;
  }

  /** Accepts exactly the balanced programs. */
  method ValidateBrackets(p: string) returns (ok: bool)
    ensures ok <==> Balanced(p)
  {
    var depth := 0;
    for i := 0 to |p|
      invariant depth == Depth(p, i) && forall k :: 0 <= k <= i ==> Depth(p, k) >= 0
    {
      if p[i] == '[' {
        depth := depth + 1;
      } else if p[i] == ']' {
        if depth == 0 {
          assert Depth(p, i + 1) < 0;
          return false;
        }
        depth := depth - 1;
      }
    }
    ok := depth == 0;
  }

  // ----- what the searches find -----

  /** The search stops at the first place where the depth falls to the level sought. */
  lemma {:induction false} ForwardFinds(p: string, i: nat, depth: int)
    requires i <= |p| && depth > 0
    ensures match ForwardFrom(p, i, depth)
            case Some(j) => p[j] == ']' && Depth(p, j + 1) == Depth(p, i) - depth
                            && forall k :: i <= k <= j ==> Depth(p, k) > Depth(p, i) - depth
            case None => forall k :: i <= k <= |p| ==> Depth(p, k) > Depth(p, i) - depth
    decreases |p| - i
  {
    if i < |p| && !(p[i] == ']' && depth == 1) {
      var next := if p[i] == '[' then depth + 1 else if p[i] == ']' then depth - 1 else depth;
      ForwardFinds(p, i + 1, next);
      assert Depth(p, i + 1) - next == Depth(p, i) - depth;
    }
  }

  lemma {:induction false} BackwardFinds(p: string, i: nat, depth: int)
    requires i <= |p| && depth > 0
    ensures match BackwardFrom(p, i, depth)
            case Some(j) => p[j] == '[' && Depth(p, j) == Depth(p, i) - depth
                            && forall k :: j < k <= i ==> Depth(p, k) > Depth(p, i) - depth
            case None => forall k :: 0 <= k <= i ==> Depth(p, k) > Depth(p, i) - depth
    decreases i
  {
    if i > 0 && !(p[i - 1] == '[' && depth == 1) {
      var next := if p[i - 1] == ']' then depth + 1 else if p[i - 1] == '[' then depth - 1 else depth;
      BackwardFinds(p, i - 1, next);
      assert Depth(p, i - 1) - next == Depth(p, i) - depth;
    }
  }

  lemma ForwardIsMatch(p: string, i: nat, j: nat)
    requires i < |p| && p[i] == '['
    ensures Forward(p, i) == Some(j) <==> Match(p, i, j)
  {
    ForwardFinds(p, i + 1, 1);
    assert i < |p| ==> Depth(p, i + 1) == Depth(p, i) + 1;
  }

  lemma BackwardIsMatch(p: string, i: nat, j: nat)
    requires j < |p| && p[j] == ']'
    ensures Backward(p, j) == Some(i) <==> Match(p, i, j)
  {
    BackwardFinds(p, j, 1);
    assert Depth(p, j + 1) == Depth(p, j) - 1;
  }

  // ----- the main results -----

  /** The two searches are inverse to each other. */
  lemma SearchesAreInverse(p: string, i: nat, j: nat)
    requires i < |p| && j < |p|
    ensures p[i] == '[' && Forward(p, i) == Some(j) <==> p[j] == ']' && Backward(p, j) == Some(i)
  {
    if p[i] == '[' { ForwardIsMatch(p, i, j); }
    if p[j] == ']' { BackwardIsMatch(p, i, j); }
  }

  ghost predicate AllFound(p: string) {
    forall i :: 0 <= i < |p| ==> (p[i] == '[' ==> Forward(p, i).Some?) && (p[i] == ']' ==> Backward(p, i).Some?)
  }

  /** Validation is exactly what makes every search succeed. */
  lemma BalancedIffAllFound(p: string)
    ensures Balanced(p) <==> AllFound(p)
  {
    if Balanced(p) {
      forall i | 0 <= i < |p| ensures (p[i] == '[' ==> Forward(p, i).Some?) && (p[i] == ']' ==> Backward(p, i).Some?) {
        ForwardFinds(p, i + 1, 1);
        BackwardFinds(p, i, 1);
        assert Depth(p, 0) == 0 && Depth(p, i + 1) >= 0 && Depth(p, i) >= 0;
      }
    }
    if AllFound(p) {
      forall i | 0 <= i <= |p| ensures Depth(p, i) >= 0 {
        NeverNegative(p, i);
      }
      NeverLeftOpen(p, |p|);
    }
  }

  lemma {:induction false} NeverNegative(p: string, i: nat)
    requires AllFound(p) && i <= |p|
    ensures Depth(p, i) >= 0
    decreases i
  {
    if i > 0 {
      NeverNegative(p, i - 1);
      if p[i - 1] == ']' {
        BackwardFinds(p, i - 1, 1);
        NeverNegative(p, Backward(p, i - 1).value);
      }
    }
  }

  /** From any position on, the depth never stays above what it was before. */
  lemma {:induction false} NeverLeftOpen(p: string, i: nat)
    requires AllFound(p) && i <= |p|
    ensures Depth(p, |p|) <= Depth(p, |p| - i)
    decreases i
  {
    if i > 0 {
      var k := |p| - i;
      NeverLeftOpen(p, i - 1);
      if p[k] == '[' {
        ForwardFinds(p, k + 1, 1);
        var j := Forward(p, k).value;
        NeverLeftOpen(p, |p| - (j + 1));
      }
    }
  }
}
