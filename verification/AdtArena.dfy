/**
  The arenas that the lowering of variants appends to, and the trees of their nodes.
 */
module AdtArena {
  import opened AdtLowering

  datatype ENode = ENode(tag: string, text: string, num: int, flt: real, left: int, right: int, args: seq<int>, names: seq<string>)

  /** The second branch of an `if` is in `assign`. */
  datatype SNode = SNode(tag: string, name: string, ty: string, value: int, assign: int, body: int, stmts: seq<int>,
                         start: int, count: nat, patterns: seq<int>, bodies: seq<int>)

  /** A block lists its statements or gives a range of them. */
  function Children(n: SNode): seq<int> {
    if n.stmts != [] then n.stmts else seq(n.count, j => n.start + j)
  }

  predicate Below(idxs: seq<int>, n: nat) {
    forall j :: 0 <= j < |idxs| ==> idxs[j] < n
  }

  predicate InExprs(n: ENode, size: nat) {
    n.left < size && n.right < size && Below(n.args, size)
  }

  predicate InStmts(n: SNode, exprs: nat, size: nat) {
    && n.value < exprs && Below(n.patterns, exprs) && n.assign < (if n.tag == "if" then size else exprs)
    && n.body < size && Below(Children(n), size) && Below(n.bodies, size)
    && (n.tag == "match" ==> |n.bodies| == |n.patterns|)
  }

  /** Nodes refer to earlier nodes only. */
  predicate Sound(es: seq<ENode>, st: seq<SNode>) {
    && (forall i :: 0 <= i < |es| ==> InExprs(es[i], i))
    && (forall i :: 0 <= i < |st| ==> InStmts(st[i], |es|, i))
  }

  function Before(child: int, i: int): int {
    if child < i then child else -1
  }

  function ExpAt(es: seq<ENode>, i: int): Exp
    decreases i
  {
    if i < 0 || i >= |es| then Hole
    else
      var n := es[i];
      Exp(n.tag, n.text, n.num, n.flt, ExpAt(es, Before(n.left, i)), ExpAt(es, Before(n.right, i)),
          seq(|n.args|, j requires 0 <= j < |n.args| => ExpAt(es, Before(n.args[j], i))), n.names)
  }

  function ExpsAt(es: seq<ENode>, idxs: seq<int>): (r: seq<Exp>)
    ensures |r| == |idxs| && forall j :: 0 <= j < |idxs| ==> r[j] == ExpAt(es, idxs[j])
  {
    seq(|idxs|, j requires 0 <= j < |idxs| => ExpAt(es, idxs[j]))
  }

  function StmAt(es: seq<ENode>, st: seq<SNode>, i: int): Stm
    decreases i
  {
    if i < 0 || i >= |st| then NoStm
    else
      var n, cs := st[i], Children(st[i]);
      Stm(n.tag, n.name, n.ty, ExpAt(es, n.value), if n.tag == "if" then Hole else ExpAt(es, n.assign),
          StmAt(es, st, Before(n.body, i)), if n.tag == "if" then StmAt(es, st, Before(n.assign, i)) else NoStm,
          seq(|cs|, j requires 0 <= j < |cs| => StmAt(es, st, Before(cs[j], i))),
          ExpsAt(es, n.patterns),
          seq(|n.bodies|, j requires 0 <= j < |n.bodies| => StmAt(es, st, Before(n.bodies[j], i))))
  }

  function StmsAt(es: seq<ENode>, st: seq<SNode>, idxs: seq<int>): (r: seq<Stm>)
    ensures |r| == |idxs| && forall j :: 0 <= j < |idxs| ==> r[j] == StmAt(es, st, idxs[j])
  {
    seq(|idxs|, j requires 0 <= j < |idxs| => StmAt(es, st, idxs[j]))
  }

  /** Appending changes no tree. */
  lemma {:induction false} ExpKept(es: seq<ENode>, more: seq<ENode>, i: int)
    requires es <= more && i < |es|
    ensures ExpAt(more, i) == ExpAt(es, i)
    decreases i
  {
    if i >= 0 {
      var n := es[i];
      ExpKept(es, more, Before(n.left, i));
      ExpKept(es, more, Before(n.right, i));
      forall j | 0 <= j < |n.args| ensures ExpAt(more, Before(n.args[j], i)) == ExpAt(es, Before(n.args[j], i)) {
        ExpKept(es, more, Before(n.args[j], i));
      }
    }
  }

  lemma ExpsKept(es: seq<ENode>, more: seq<ENode>, idxs: seq<int>)
    requires es <= more && Below(idxs, |es|)
    ensures ExpsAt(more, idxs) == ExpsAt(es, idxs)
  {
    forall j | 0 <= j < |idxs| ensures ExpAt(more, idxs[j]) == ExpAt(es, idxs[j]) {
      ExpKept(es, more, idxs[j]);
    }
  }

  lemma {:induction false} StmKept(es: seq<ENode>, st: seq<SNode>, more: seq<ENode>, longer: seq<SNode>, i: int)
    requires Sound(es, st) && es <= more && st <= longer && i < |st|
    ensures StmAt(more, longer, i) == StmAt(es, st, i)
    decreases i
  {
    hide ExpAt, Sound, Children;
    if i >= 0 {
      var n, cs := st[i], Children(st[i]);
      assert InStmts(n, |es|, i) by { NodeIn(es, st, i); }
      ExpKept(es, more, n.value);
      ExpsKept(es, more, n.patterns);
      if n.tag == "if" { StmKept(es, st, more, longer, Before(n.assign, i)); } else { ExpKept(es, more, n.assign); }
      StmKept(es, st, more, longer, Before(n.body, i));
      forall j | 0 <= j < |cs| ensures StmAt(more, longer, Before(cs[j], i)) == StmAt(es, st, Before(cs[j], i)) {
        StmKept(es, st, more, longer, Before(cs[j], i));
      }
      forall j | 0 <= j < |n.bodies| ensures StmAt(more, longer, Before(n.bodies[j], i)) == StmAt(es, st, Before(n.bodies[j], i)) {
        StmKept(es, st, more, longer, Before(n.bodies[j], i));
      }
    }
  }

  lemma NodeIn(es: seq<ENode>, st: seq<SNode>, i: nat)
    requires Sound(es, st) && i < |st|
    ensures InStmts(st[i], |es|, i)
  {
  }

  lemma StmsKept(es: seq<ENode>, st: seq<SNode>, more: seq<ENode>, longer: seq<SNode>, idxs: seq<int>)
    requires Sound(es, st) && es <= more && st <= longer && Below(idxs, |st|)
    ensures StmsAt(more, longer, idxs) == StmsAt(es, st, idxs)
  {
    forall j | 0 <= j < |idxs| ensures StmAt(more, longer, idxs[j]) == StmAt(es, st, idxs[j]) {
      StmKept(es, st, more, longer, idxs[j]);
    }
  }

  lemma StaysSound(es: seq<ENode>, st: seq<SNode>, n: ENode)
    requires Sound(es, st) && InExprs(n, |es|)
    ensures Sound(es + [n], st)
  {
  }

  /** The tree of a new node has the trees of its children as they are. */
  lemma NewExp(es: seq<ENode>, st: seq<SNode>, n: ENode)
    requires Sound(es, st) && InExprs(n, |es|)
    ensures Sound(es + [n], st)
    ensures ExpAt(es + [n], |es|) == Exp(n.tag, n.text, n.num, n.flt, ExpAt(es, n.left), ExpAt(es, n.right), ExpsAt(es, n.args), n.names)
  {
    var more := es + [n];
    StaysSound(es, st, n);
    hide Sound;
    ExpKept(es, more, n.left);
    ExpKept(es, more, n.right);
    ExpsKept(es, more, n.args);
    assert more[|es|] == n;
    assert ExpAt(more, |es|).args == ExpsAt(more, n.args);
  }

  lemma NewStm(es: seq<ENode>, st: seq<SNode>, n: SNode)
    requires Sound(es, st) && InStmts(n, |es|, |st|)
    ensures Sound(es, st + [n])
    ensures StmAt(es, st + [n], |st|)
            == Stm(n.tag, n.name, n.ty, ExpAt(es, n.value), if n.tag == "if" then Hole else ExpAt(es, n.assign), StmAt(es, st, n.body),
                   if n.tag == "if" then StmAt(es, st, n.assign) else NoStm, StmsAt(es, st, Children(n)),
                   ExpsAt(es, n.patterns), StmsAt(es, st, n.bodies))
  {
    hide Children, ExpAt;
    var longer := st + [n];
    assert longer[|st|] == n;
    StmKept(es, st, es, longer, n.body);
    if n.tag == "if" { StmKept(es, st, es, longer, n.assign); }
    StmsKept(es, st, es, longer, Children(n));
    StmsKept(es, st, es, longer, n.bodies);
    assert forall j :: 0 <= j < |n.bodies| ==> Before(n.bodies[j], |st|) == n.bodies[j];
    assert forall j :: 0 <= j < |Children(n)| ==> Before(Children(n)[j], |st|) == Children(n)[j];
  }

  /** The tree of a node has the trees of its children. */
  lemma ExpParts(es: seq<ENode>, st: seq<SNode>, i: nat)
    requires Sound(es, st) && i < |es|
    ensures InExprs(es[i], i)
    ensures var n := es[i];
            ExpAt(es, i) == Exp(n.tag, n.text, n.num, n.flt, ExpAt(es, n.left), ExpAt(es, n.right), ExpsAt(es, n.args), n.names)
  {
    var n := es[i];
    assert InExprs(n, i);
    assert ExpAt(es, i).args == ExpsAt(es, n.args);
  }

  lemma StmParts(es: seq<ENode>, st: seq<SNode>, i: nat)
    requires Sound(es, st) && i < |st|
    ensures InStmts(st[i], |es|, i)
    ensures var n := st[i];
            StmAt(es, st, i)
            == Stm(n.tag, n.name, n.ty, ExpAt(es, n.value), if n.tag == "if" then Hole else ExpAt(es, n.assign), StmAt(es, st, n.body),
                   if n.tag == "if" then StmAt(es, st, n.assign) else NoStm, StmsAt(es, st, Children(n)),
                   ExpsAt(es, n.patterns), StmsAt(es, st, n.bodies))
  {
    hide Children, ExpAt, Sound;
    var n, t := st[i], StmAt(es, st, i);
    NodeIn(es, st, i);
    assert t.stmts == StmsAt(es, st, Children(n));
    assert t.bodies == StmsAt(es, st, n.bodies);
  }

  lemma {:induction false} LowerExpsAt(adts: seq<Adt>, es: seq<Exp>, j: nat)
    requires Declared(adts) && j < |es|
    ensures LowerExps(adts, es)[j] == LowerExp(adts, es[j])
  {
    if j > 0 { LowerExpsAt(adts, es[1..], j - 1); }
  }

  lemma {:induction false} LowerStmsAt(adts: seq<Adt>, ss: seq<Stm>, j: nat)
    requires Declared(adts) && j < |ss|
    ensures LowerStms(adts, ss)[j] == LowerStm(adts, ss[j])
  {
    if j > 0 { LowerStmsAt(adts, ss[1..], j - 1); }
  }
}
