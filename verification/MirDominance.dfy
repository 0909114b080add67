/**
  Paths, dominance, and why a copy stays true: between two executions of a definition no
  use of a copy of it is reached without making the copy again.
 */
module MirDominance {
  import opened MirLines
  import opened MirSemantics

  lemma PrefixPath(f: Code, p: seq<nat>, k: nat)
    requires Path(f, p) && k < |p|
    ensures PathTo(f, p[..k + 1], p[k])
  {
  }

  lemma ExtendPath(f: Code, p: seq<nat>, u: nat, v: nat)
    requires PathTo(f, p, u) && Edge(f, u, v)
    ensures PathTo(f, p + [v], v) && (p + [v])[..|p|] == p
  {
    var q := p + [v];
    forall k | 0 <= k < |q| - 1 ensures Edge(f, q[k], q[k + 1]) {
      if k < |p| - 1 { assert q[k] == p[k] && q[k + 1] == p[k + 1]; }
    }
  }

  lemma Transitive(f: Code, e: nat, d: nat, u: nat)
    requires Dominates(f, e, d) && Dominates(f, d, u)
    ensures Dominates(f, e, u)
  {
    forall p | PathTo(f, p, u) ensures e in p[..|p| - 1] {
      assert d in p[..|p| - 1];
      var k :| 0 <= k < |p| - 1 && p[k] == d;
      PrefixPath(f, p, k);
      assert p[..k + 1][..k] == p[..k];
      assert e in p[..k];
      var j :| 0 <= j < k && p[j] == e;
      assert p[..|p| - 1][j] == e;
    }
  }

  /** What dominates the next line is this line or dominates this line. */
  lemma DominatesNext(f: Code, d: nat, u: nat, v: nat)
    requires Edge(f, u, v) && Dominates(f, d, v) && d != u
    ensures Dominates(f, d, u)
  {
    forall p | PathTo(f, p, u) ensures d in p[..|p| - 1] {
      ExtendPath(f, p, u, v);
      assert d in (p + [v])[..|p|];
      var k :| 0 <= k < |p| && p[k] == d;
      assert k < |p| - 1;
      assert p[..|p| - 1][k] == d;
    }
  }

  /** The first arrival at a line. */
  lemma {:induction false} FirstArrival(f: Code, p: seq<nat>, d: nat) returns (k: nat)
    requires Path(f, p) && d in p
    ensures k < |p| && p[k] == d && d !in p[..k]
    decreases |p|
  {
    var last := |p| - 1;
    if d in p[..last] {
      PrefixPath(f, p, |p[..last]| - 1);
      k := FirstArrival(f, p[..last], d);
      assert p[..last][..k] == p[..k];
    } else {
      k := last;
    }
  }

  lemma NotWithout(f: Code, q: seq<nat>, d: nat, x: nat, j: nat)
    requires Path(f, q) && j < |q| && d !in q[..j] && Dominates(f, d, x)
    ensures q[j] != x
  {
    PrefixPath(f, q, j);
    assert q[..j + 1][..j] == q[..j];
  }

  /** Right after d is executed again, what d dominates has to be passed again: it does
      not dominate the next line. */
  lemma RedefinitionEndsCopies(f: Code, p: seq<nat>, d: nat, x: nat, v: nat)
    requires PathTo(f, p, d) && Edge(f, d, v) && Dominates(f, d, x) && x != d
    ensures !Dominates(f, x, v)
  {
    var k := FirstArrival(f, p, d);
    var q := p[..k + 1];
    PrefixPath(f, p, k);
    forall j | 0 <= j < |q| ensures q[j] != x {
      assert d !in p[..j] by { assert p[..j] <= p[..k]; }
      assert q[..j] == p[..j];
      NotWithout(f, q, d, x, j);
    }
    ExtendPath(f, q, d, v);
    assert x !in (q + [v])[..|q|];
  }
}
