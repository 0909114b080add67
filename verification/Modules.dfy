/**
  Merging a root program with the modules it loads: the arenas are concatenated with
  their positions relocated, and every function still decodes to its own tree.
 */
module Modules {
  import opened Options
  import opened Arena

  datatype Function = Function(name: string, body: int, payload: Payload)

  /** A global is a `let`: only its name and its value are touched. */
  datatype Global = Global(name: string, value: int, payload: Payload)

  datatype Program = Program(functions: seq<Function>, globals: seq<Global>, arenas: Arenas)

  /** A module of the graph. It has no program when its file is empty or does not parse. */
  datatype Loaded = Loaded(qualifiedName: string, program: Option<Program>)

  /** The namespace of a module: its name below `root`, and none below `root::sys`. */
  function Prefix(qualifiedName: string): string {
    if "root::sys::" <= qualifiedName then ""
    else if qualifiedName == "root" then ""
    else if |qualifiedName| > 6 && "root::" <= qualifiedName then qualifiedName[6..]
    else qualifiedName
  }

  function Qualify(prefix: string, name: string): string {
    if prefix == "" then name else prefix + "::" + name
  }

  /** What a declaration is called once merged: the path of its module below the root, two
      colons and its own name; below `root::sys`, and in the root itself, its own name. */
  ghost predicate CalledAs(qualifiedName: string, own: string, name: string) {
    && (qualifiedName == "root" || "root::sys::" <= qualifiedName ==> name == own)
    && (forall q :: q != "" && qualifiedName == "root::" + q && !("sys::" <= q) ==> name == q + "::" + own)
  }

  lemma BelowSys(q: string)
    ensures "root::sys::" <= "root::" + q <==> "sys::" <= q
  {
    assert "root::sys::" == "root::" + "sys::";
    assert |q| >= 5 ==> ("root::" + q)[..11] == "root::" + q[..5];
    if "root::sys::" <= "root::" + q {
      assert ("root::" + q)[..11] == "root::sys::" && q[..5] == ("root::" + q)[6..11];
    }
  }

  lemma QualifiedIsCalled(qualifiedName: string, own: string)
    ensures CalledAs(qualifiedName, own, Qualify(Prefix(qualifiedName), own))
  {
    forall q | q != "" && qualifiedName == "root::" + q && !("sys::" <= q)
      ensures Qualify(Prefix(qualifiedName), own) == q + "::" + own
    {
      assert qualifiedName[6..] == q;
      BelowSys(q);
    }
  }

  function RelocateFunction(f: Function, prefix: string, stmtOff: nat): Function {
    f.(name := Qualify(prefix, f.name), body := Shift(f.body, stmtOff))
  }

  function RelocateGlobal(g: Global, prefix: string, exprOff: nat): Global {
    g.(name := Qualify(prefix, g.name), value := Shift(g.value, exprOff))
  }

  function RelocateFunctions(fs: seq<Function>, prefix: string, stmtOff: nat): (r: seq<Function>)
    ensures |r| == |fs| && forall i :: 0 <= i < |fs| ==> r[i] == RelocateFunction(fs[i], prefix, stmtOff)
  {
    seq(|fs|, i requires 0 <= i < |fs| => RelocateFunction(fs[i], prefix, stmtOff))
  }

  function RelocateGlobals(gs: seq<Global>, prefix: string, exprOff: nat): (r: seq<Global>)
    ensures |r| == |gs| && forall i :: 0 <= i < |gs| ==> r[i] == RelocateGlobal(gs[i], prefix, exprOff)
  {
    seq(|gs|, i requires 0 <= i < |gs| => RelocateGlobal(gs[i], prefix, exprOff))
  }

  function RelocateExprs(es: seq<Expr>, exprOff: nat, stmtOff: nat): (r: seq<Expr>)
    ensures |r| == |es| && forall i :: 0 <= i < |es| ==> r[i] == RelocateExpr(es[i], exprOff, stmtOff)
  {
    seq(|es|, i requires 0 <= i < |es| => RelocateExpr(es[i], exprOff, stmtOff))
  }

  function RelocateStmts(ss: seq<Stmt>, exprOff: nat, stmtOff: nat): (r: seq<Stmt>)
    ensures |r| == |ss| && forall i :: 0 <= i < |ss| ==> r[i] == RelocateStmt(ss[i], exprOff, stmtOff)
  {
    seq(|ss|, i requires 0 <= i < |ss| => RelocateStmt(ss[i], exprOff, stmtOff))
  }

  function MergeArenas(dst: Arenas, src: Arenas): Arenas {
    Arenas(dst.exprs + RelocateExprs(src.exprs, |dst.exprs|, |dst.stmts|),
           dst.stmts + RelocateStmts(src.stmts, |dst.exprs|, |dst.stmts|))
  }

  function MergeOne(p: Program, m: Loaded): Program {
    match m.program
    case None => p
    case Some(q) =>
      var prefix := Prefix(m.qualifiedName);
      Program(p.functions + RelocateFunctions(q.functions, prefix, |p.arenas.stmts|),
              p.globals + RelocateGlobals(q.globals, prefix, |p.arenas.exprs|),
              MergeArenas(p.arenas, q.arenas))
  }

  function EmptyArenas(): Arenas {
    Arenas([], [])
  }

  function Start(root: Program): Program {
    root.(arenas := MergeArenas(EmptyArenas(), root.arenas))
  }

  /** The program after the modules 1 to k; module 0 is the root itself. */
  function MergeUpTo(root: Program, graph: seq<Loaded>, k: nat): Program
    requires k < |graph|
  {
    if k == 0 then Start(root) else MergeOne(MergeUpTo(root, graph, k - 1), graph[k])
  }

  function LoadAll(ok: bool, root: Program, graph: seq<Loaded>): Program {
    if !ok || |graph| <= 1 then root else MergeUpTo(root, graph, |graph| - 1)
  }

  // ----- merging changes nothing that was there -----

  lemma NoOffset(a: Arenas)
    ensures RelocateExprs(a.exprs, 0, 0) == a.exprs
    ensures RelocateStmts(a.stmts, 0, 0) == a.stmts
  {
    forall i | 0 <= i < |a.exprs| ensures RelocateExpr(a.exprs[i], 0, 0) == a.exprs[i] {
      NoOffsetExpr(a.exprs[i]);
    }
    forall i | 0 <= i < |a.stmts| ensures RelocateStmt(a.stmts[i], 0, 0) == a.stmts[i] {
      NoOffsetStmt(a.stmts[i]);
    }
  }

  lemma NoOffsetExpr(e: Expr)
    ensures RelocateExpr(e, 0, 0) == e
  {
    assert ShiftAll(e.args, 0) == e.args;
    assert ShiftPairs(e.args, 0) == e.args;
  }

  lemma NoOffsetStmt(s: Stmt)
    ensures RelocateStmt(s, 0, 0) == s
  {
    assert ShiftAll(s.stmts, 0) == s.stmts;
    assert ShiftAll(s.patterns, 0) == s.patterns;
    assert ShiftAll(s.bodies, 0) == s.bodies;
    assert RelocateArms(s.arms, 0, 0) == s.arms;
  }

  lemma StartIsRoot(root: Program)
    ensures Start(root) == root
  {
    NoOffset(root.arenas);
    assert [] + RelocateExprs(root.arenas.exprs, 0, 0) == root.arenas.exprs;
    assert [] + RelocateStmts(root.arenas.stmts, 0, 0) == root.arenas.stmts;
  }

  /** `p` is where `q` began: merging only appends. */
  ghost predicate Extends(p: Program, q: Program) {
    && p.functions <= q.functions && p.globals <= q.globals
    && p.arenas.exprs <= q.arenas.exprs && p.arenas.stmts <= q.arenas.stmts
  }

  lemma {:induction false} MergeAppends(root: Program, graph: seq<Loaded>, k: nat, n: nat)
    requires k <= n < |graph|
    ensures Extends(MergeUpTo(root, graph, k), MergeUpTo(root, graph, n))
    decreases n
  {
    if k < n {
      MergeAppends(root, graph, k, n - 1);
      OneAppends(MergeUpTo(root, graph, n - 1), graph[n]);
    }
  }

  lemma OneAppends(p: Program, m: Loaded)
    ensures Extends(p, MergeOne(p, m))
  {
  }

  /** A larger pair of arenas that starts with `a` decodes every position of `a` alike. */
  lemma PrefixEmbeds(a: Arenas, big: Arenas)
    requires a.exprs <= big.exprs && a.stmts <= big.stmts
    ensures Embeds(a, big, 0, 0)
  {
    forall i | 0 <= i < |a.exprs| ensures big.exprs[0 + i] == RelocateExpr(a.exprs[i], 0, 0) {
      NoOffsetExpr(a.exprs[i]);
    }
    forall i | 0 <= i < |a.stmts| ensures big.stmts[0 + i] == RelocateStmt(a.stmts[i], 0, 0) {
      NoOffsetStmt(a.stmts[i]);
    }
  }

  lemma MergedEmbeds(dst: Arenas, src: Arenas, big: Arenas)
    requires MergeArenas(dst, src).exprs <= big.exprs && MergeArenas(dst, src).stmts <= big.stmts
    ensures Embeds(src, big, |dst.exprs|, |dst.stmts|)
  {
    var m := MergeArenas(dst, src);
    forall i | 0 <= i < |src.exprs|
      ensures big.exprs[|dst.exprs| + i] == RelocateExpr(src.exprs[i], |dst.exprs|, |dst.stmts|)
    {
      assert m.exprs[|dst.exprs| + i] == RelocateExprs(src.exprs, |dst.exprs|, |dst.stmts|)[i];
    }
    forall i | 0 <= i < |src.stmts|
      ensures big.stmts[|dst.stmts| + i] == RelocateStmt(src.stmts[i], |dst.exprs|, |dst.stmts|)
    {
      assert m.stmts[|dst.stmts| + i] == RelocateStmts(src.stmts, |dst.exprs|, |dst.stmts|)[i];
    }
  }

  /** What one module brings, in the program it was merged into or any later one. */
  lemma MergedModule(before: Program, m: Loaded, all: Program)
    requires m.program.Some? && Extends(MergeOne(before, m), all)
    ensures var q := m.program.value;
            && Embeds(q.arenas, all.arenas, |before.arenas.exprs|, |before.arenas.stmts|)
            && |before.functions| + |q.functions| <= |all.functions| && |before.globals| + |q.globals| <= |all.globals|
    ensures forall i :: 0 <= i < |m.program.value.functions| ==>
              all.functions[|before.functions| + i]
              == RelocateFunctions(m.program.value.functions, Prefix(m.qualifiedName), |before.arenas.stmts|)[i]
    ensures forall i :: 0 <= i < |m.program.value.globals| ==>
              all.globals[|before.globals| + i]
              == RelocateGlobals(m.program.value.globals, Prefix(m.qualifiedName), |before.arenas.exprs|)[i]
  {
    hide RelocateFunctions, RelocateGlobals, RelocateExprs, RelocateStmts, Prefix, Embeds;
    var q, after := m.program.value, MergeOne(before, m);
    MergedEmbeds(before.arenas, q.arenas, all.arenas);
    assert all.functions[..|after.functions|] == after.functions && all.globals[..|after.globals|] == after.globals;
  }

  // ----- the main results -----

  /** Every function of every module is in the merged program, under its qualified
      name, and its body there is the tree it had in its own module. */
  lemma MergeKeepsFunctions(root: Program, graph: seq<Loaded>, k: nat, i: nat, depth: nat)
    requires 0 < k < |graph| && graph[k].program.Some?
    requires SaneArenas(graph[k].program.value.arenas)
    requires i < |graph[k].program.value.functions|
    ensures var q := graph[k].program.value;
            var before := MergeUpTo(root, graph, k - 1);
            var all := LoadAll(true, root, graph);
            && |before.functions| + i < |all.functions|
            && var f := all.functions[|before.functions| + i];
               && f.name == Qualify(Prefix(graph[k].qualifiedName), q.functions[i].name)
               && CalledAs(graph[k].qualifiedName, q.functions[i].name, f.name)
               && f.payload == q.functions[i].payload
               && f.body == Shift(q.functions[i].body, |before.arenas.stmts|)
               && (Decode(q.arenas, S(q.functions[i].body), depth).Some? ==>
                     Decode(all.arenas, S(f.body), depth) == Decode(q.arenas, S(q.functions[i].body), depth))
  {
    hide RelocateExprs, RelocateStmts, Decode, MergeOne, Extends, Embeds, Prefix, CalledAs;
    var q := graph[k].program.value;
    var before := MergeUpTo(root, graph, k - 1);
    var all := LoadAll(true, root, graph);
    MergeAppends(root, graph, k, |graph| - 1);
    assert MergeUpTo(root, graph, k) == MergeOne(before, graph[k]);
    MergedModule(before, graph[k], all);
    assert RelocateFunctions(q.functions, Prefix(graph[k].qualifiedName), |before.arenas.stmts|)[i].payload == q.functions[i].payload;
    QualifiedIsCalled(graph[k].qualifiedName, q.functions[i].name);
    if Decode(q.arenas, S(q.functions[i].body), depth).Some? {
      EmbeddedTree(q.arenas, all.arenas, |before.arenas.exprs|, |before.arenas.stmts|, S(q.functions[i].body), depth);
    }
  }

  lemma MergeKeepsGlobals(root: Program, graph: seq<Loaded>, k: nat, i: nat, depth: nat)
    requires 0 < k < |graph| && graph[k].program.Some?
    requires SaneArenas(graph[k].program.value.arenas)
    requires i < |graph[k].program.value.globals|
    ensures var q := graph[k].program.value;
            var before := MergeUpTo(root, graph, k - 1);
            var all := LoadAll(true, root, graph);
            && |before.globals| + i < |all.globals|
            && var g := all.globals[|before.globals| + i];
               && g.name == Qualify(Prefix(graph[k].qualifiedName), q.globals[i].name)
               && CalledAs(graph[k].qualifiedName, q.globals[i].name, g.name)
               && g.payload == q.globals[i].payload
               && (Decode(q.arenas, E(q.globals[i].value), depth).Some? ==>
                     Decode(all.arenas, E(g.value), depth) == Decode(q.arenas, E(q.globals[i].value), depth))
  {
    hide RelocateExprs, RelocateStmts, Decode, MergeOne, Extends, Embeds, Prefix, CalledAs;
    var q := graph[k].program.value;
    var before := MergeUpTo(root, graph, k - 1);
    var all := LoadAll(true, root, graph);
    MergeAppends(root, graph, k, |graph| - 1);
    assert MergeUpTo(root, graph, k) == MergeOne(before, graph[k]);
    MergedModule(before, graph[k], all);
    assert RelocateGlobals(q.globals, Prefix(graph[k].qualifiedName), |before.arenas.exprs|)[i].payload == q.globals[i].payload;
    QualifiedIsCalled(graph[k].qualifiedName, q.globals[i].name);
    if Decode(q.arenas, E(q.globals[i].value), depth).Some? {
      EmbeddedTree(q.arenas, all.arenas, |before.arenas.exprs|, |before.arenas.stmts|, E(q.globals[i].value), depth);
    }
  }

  /** What was merged up to some module, the root included, is there unchanged after
      all the others: same functions and globals, same trees. */
  lemma MergeKeepsEarlier(root: Program, graph: seq<Loaded>, k: nat, r: Ref, depth: nat)
    requires 1 < |graph| && k < |graph|
    requires SaneArenas(MergeUpTo(root, graph, k).arenas)
    ensures Extends(MergeUpTo(root, graph, k), LoadAll(true, root, graph))
    ensures Decode(MergeUpTo(root, graph, k).arenas, r, depth).Some? ==>
              Decode(LoadAll(true, root, graph).arenas, r, depth) == Decode(MergeUpTo(root, graph, k).arenas, r, depth)
    ensures MergeUpTo(root, graph, 0) == root
  {
    hide RelocateExprs, RelocateStmts, Decode;
    var before := MergeUpTo(root, graph, k);
    var all := LoadAll(true, root, graph);
    StartIsRoot(root);
    MergeAppends(root, graph, k, |graph| - 1);
    PrefixEmbeds(before.arenas, all.arenas);
    if Decode(before.arenas, r, depth).Some? {
      EmbeddedTree(before.arenas, all.arenas, 0, 0, r, depth);
      assert ShiftRef(r, 0, 0) == r;
    }
  }

  /** Relocation keeps arenas sane, so the results above apply after every module. */
  lemma {:induction false} MergeKeepsSane(root: Program, graph: seq<Loaded>, k: nat)
    requires k < |graph| && SaneArenas(root.arenas)
    requires forall i :: 0 < i < |graph| && graph[i].program.Some? ==> SaneArenas(graph[i].program.value.arenas)
    ensures SaneArenas(MergeUpTo(root, graph, k).arenas)
  {
    hide RelocateExprs, RelocateStmts, RelocateStmt;
    if k == 0 {
      StartIsRoot(root);
    } else {
      MergeKeepsSane(root, graph, k - 1);
      var p := MergeUpTo(root, graph, k - 1);
      if graph[k].program.Some? {
        var q := graph[k].program.value;
        forall i | 0 <= i < |q.arenas.stmts|
          ensures Sane(RelocateStmt(q.arenas.stmts[i], |p.arenas.exprs|, |p.arenas.stmts|))
        {
          RelocatedIsSane(q.arenas.stmts[i], |p.arenas.exprs|, |p.arenas.stmts|);
        }
      }
    }
  }

  lemma RelocatedIsSane(s: Stmt, exprOff: nat, stmtOff: nat)
    requires Sane(s)
    ensures Sane(RelocateStmt(s, exprOff, stmtOff))
  {
    var r := RelocateStmt(s, exprOff, stmtOff);
    assert r.tag == s.tag && r.blockCount == s.blockCount && |r.stmts| == |s.stmts|;
  }

  /** And nothing else is in the merged program: every function is one of the root's or
      one of some module's. */
  lemma {:induction false} MergedFunctionHasASource(root: Program, graph: seq<Loaded>, n: nat, j: nat)
    returns (k: nat, i: nat)
    requires n < |graph| && j < |MergeUpTo(root, graph, n).functions|
    ensures k <= n
    ensures k == 0 ==> i < |root.functions| && MergeUpTo(root, graph, n).functions[j] == root.functions[i]
    ensures k > 0 ==>
              && graph[k].program.Some?
              && i < |graph[k].program.value.functions|
              && j == |MergeUpTo(root, graph, k - 1).functions| + i
              && MergeUpTo(root, graph, n).functions[j]
                 == RelocateFunction(graph[k].program.value.functions[i], Prefix(graph[k].qualifiedName),
                                     |MergeUpTo(root, graph, k - 1).arenas.stmts|)
    decreases n
  {
    if n == 0 {
      k, i := 0, j;
    } else {
      var p := MergeUpTo(root, graph, n - 1);
      if j < |p.functions| {
        k, i := MergedFunctionHasASource(root, graph, n - 1, j);
      } else {
        k, i := n, j - |p.functions|;
      }
    }
  }
}
