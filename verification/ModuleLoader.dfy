/**
  The loader as it runs: nodes hold references to arrays of positions, a copied node
  shares its arrays with the original, and merging shifts those arrays in place.
 */
module ModuleLoader {
  import opened Options
  import opened Arena
  import opened Modules

  datatype ExprNode = ExprNode(tag: string, payload: Payload, left: int, right: int, args: array<int>)

  datatype StmtNode = StmtNode(
    tag: string,
    payload: Payload,
    name: string,
    value: int,
    assign: int,
    print_: int,
    direct: int,
    body: int,
    blockStart: int,
    blockCount: nat,
    stmts: array<int>,
    patterns: array<int>,
    bodies: array<int>,
    arms: array<MatchArm>)

  class ExprStore {
    var exprs: seq<ExprNode>

    constructor ()
      ensures exprs == []
    {
      exprs := [];
    }
  }

  class StmtStore {
    var stmts: seq<StmtNode>

    constructor ()
      ensures stmts == []
    {
      stmts := [];
    }
  }

  // ----- what a node stands for, and the arrays it owns -----

  /** The array itself, unless it is empty: nodes may share an array that holds nothing. */
  function Held<T>(a: array<T>): set<object> {
    if a.Length == 0 then {} else {a}
  }

  ghost function ExprValue(e: ExprNode): Expr
    reads Held(e.args)
  {
    Expr(e.tag, e.payload, e.left, e.right, e.args[..])
  }

  ghost function StmtValue(s: StmtNode): Stmt
    reads StmtArrays(s)
  {
    Stmt(s.tag, s.payload, s.name, s.value, s.assign, s.print_, s.direct, s.body, s.blockStart, s.blockCount,
         s.stmts[..], s.patterns[..], s.bodies[..], s.arms[..])
  }

  function StmtArrays(s: StmtNode): set<object> {
    Held(s.stmts) + Held(s.patterns) + Held(s.bodies) + Held(s.arms)
  }

  ghost function ExprsArrays(es: seq<ExprNode>): set<object> {
    set e, o | e in es && o in Held(e.args) :: o
  }

  ghost function StmtsArrays(ss: seq<StmtNode>): set<object> {
    set s, o | s in ss && o in StmtArrays(s) :: o
  }

  ghost function ExprValues(es: seq<ExprNode>): (r: seq<Expr>)
    reads ExprsArrays(es)
    ensures |r| == |es| && forall i :: 0 <= i < |es| ==> r[i] == ExprValue(es[i])
  {
    seq(|es|, i requires 0 <= i < |es| reads if 0 <= i < |es| then Held(es[i].args) else {} => ExprValue(es[i]))
  }

  ghost function StmtValues(ss: seq<StmtNode>): (r: seq<Stmt>)
    reads StmtsArrays(ss)
    ensures |r| == |ss| && forall i :: 0 <= i < |ss| ==> r[i] == StmtValue(ss[i])
  {
    seq(|ss|, i requires 0 <= i < |ss| reads if 0 <= i < |ss| then StmtArrays(ss[i]) else {} => StmtValue(ss[i]))
  }

  /** Every array that is not empty belongs to one node only. */
  ghost predicate ExprsOwn(es: seq<ExprNode>) {
    forall i, j :: 0 <= i < j < |es| ==> Held(es[i].args) !! Held(es[j].args)
  }

  ghost predicate StmtOwns(s: StmtNode) {
    Held(s.stmts) !! Held(s.patterns) && Held(s.stmts) !! Held(s.bodies) && Held(s.patterns) !! Held(s.bodies)
  }

  ghost predicate StmtsOwn(ss: seq<StmtNode>) {
    && (forall i :: 0 <= i < |ss| ==> StmtOwns(ss[i]))
    && (forall i, j :: 0 <= i < j < |ss| ==> StmtArrays(ss[i]) !! StmtArrays(ss[j]))
  }

  // ----- shifting arrays in place -----

  method ShiftArray(a: array<int>, off: nat)
    modifies Held(a)
    ensures a[..] == ShiftAll(old(a[..]), off)
  {
    for j := 0 to a.Length
      invariant forall x :: 0 <= x < j ==> a[x] == Shift(old(a[x]), off)
      invariant forall x :: j <= x < a.Length ==> a[x] == old(a[x])
    {
      if a[j] >= 0 { a[j] := a[j] + off; }
    }
  }

  method ShiftPairsOf(a: array<int>, off: nat)
    modifies Held(a)
    ensures a[..] == ShiftPairs(old(a[..]), off)
  {
    var j := 0;
    while j + 1 < a.Length
      invariant j <= a.Length && j % 2 == 0
      invariant forall x :: 0 <= x < j ==> a[x] == Shift(old(a[x]), off)
      invariant forall x :: j <= x < a.Length ==> a[x] == old(a[x])
    {
      if a[j] >= 0 { a[j] := a[j] + off; }
      if a[j + 1] >= 0 { a[j + 1] := a[j + 1] + off; }
      j := j + 2;
    }
    assert j == a.Length / 2 * 2;
  }

  method ShiftArms(a: array<MatchArm>, exprOff: nat, stmtOff: nat)
    modifies Held(a)
    ensures a[..] == RelocateArms(old(a[..]), exprOff, stmtOff)
  {
    for j := 0 to a.Length
      invariant forall x :: 0 <= x < j ==> a[x] == RelocateArm(old(a[x]), exprOff, stmtOff)
      invariant forall x :: j <= x < a.Length ==> a[x] == old(a[x])
    {
      if a[j].pattern >= 0 { a[j] := a[j].(pattern := a[j].pattern + exprOff); }
      if a[j].body >= 0 { a[j] := a[j].(body := a[j].body + stmtOff); }
    }
  }

  // ----- one node -----

  /** The node just pushed is fixed up field by field; its array is shifted in place. */
  method FixExpr(dst: ExprStore, di: nat, tag: string, exprOff: nat, stmtOff: nat)
    requires di < |dst.exprs| && tag == dst.exprs[di].tag
    modifies dst, Held(dst.exprs[di].args)
    ensures |dst.exprs| == |old(dst.exprs)| && dst.exprs[di].args == old(dst.exprs[di].args)
    ensures dst.exprs == old(dst.exprs)[di := dst.exprs[di]]
    ensures ExprValue(dst.exprs[di]) == RelocateExpr(old(ExprValue(dst.exprs[di])), exprOff, stmtOff)
  {
    var e := dst.exprs[di];
    if tag == "block_expr" {
      if e.left >= 0 { e := e.(left := e.left + stmtOff); }
      if e.right >= 0 { e := e.(right := e.right + exprOff); }
      dst.exprs := dst.exprs[di := e];
    } else if tag == "match_expr" {
      if e.left >= 0 { e := e.(left := e.left + exprOff); }
      dst.exprs := dst.exprs[di := e];
      ShiftPairsOf(dst.exprs[di].args, exprOff);
    } else {
      if e.left >= 0 { e := e.(left := e.left + exprOff); }
      if e.right >= 0 { e := e.(right := e.right + exprOff); }
      dst.exprs := dst.exprs[di := e];
      ShiftArray(dst.exprs[di].args, exprOff);
    }
  }

  /** The scalar positions of a statement. */
  function FixScalars(s: StmtNode, exprOff: nat, stmtOff: nat): StmtNode {
    s.(
    value := if HasValue(s.tag) then Shift(s.value, exprOff) else s.value,
    assign := if HasAssign(s.tag) then Shift(s.assign, exprOff)
              else if s.tag == "if" then Shift(s.assign, stmtOff) else s.assign,
    body := if s.tag in {"while", "for_range", "if"} then Shift(s.body, stmtOff) else s.body,
    print_ := if s.tag == "print" then Shift(s.print_, exprOff) else s.print_,
    direct := if s.tag == "store_index" then Shift(s.direct, exprOff) else s.direct,
    blockStart := if s.tag == "block" then Shift(s.blockStart, stmtOff) else s.blockStart)
  }

  method FixStmtFields(s0: StmtNode, exprOff: nat, stmtOff: nat) returns (s: StmtNode)
    ensures s == FixScalars(s0, exprOff, stmtOff)
  {
    s := s0;
    var tag := s.tag;
    if HasValue(tag) && s.value >= 0 { s := s.(value := s.value + exprOff); }
    if HasAssign(tag) && s.assign >= 0 { s := s.(assign := s.assign + exprOff); }
    if tag == "if" && s.assign >= 0 { s := s.(assign := s.assign + stmtOff); }
    if tag in {"while", "for_range", "if"} && s.body >= 0 { s := s.(body := s.body + stmtOff); }
    if tag == "print" && s.print_ >= 0 { s := s.(print_ := s.print_ + exprOff); }
    if tag == "store_index" && s.direct >= 0 { s := s.(direct := s.direct + exprOff); }
    if tag == "block" && s.blockStart >= 0 { s := s.(blockStart := s.blockStart + stmtOff); }
  }

  method FixStmtArrays(s: StmtNode, exprOff: nat, stmtOff: nat)
    requires StmtOwns(s)
    modifies StmtArrays(s)
    ensures s.stmts[..] == old(if s.tag == "block" then ShiftAll(s.stmts[..], stmtOff) else s.stmts[..])
    ensures s.patterns[..] == old(if s.tag == "match" then ShiftAll(s.patterns[..], exprOff) else s.patterns[..])
    ensures s.bodies[..] == old(if s.tag == "match" then ShiftAll(s.bodies[..], stmtOff) else s.bodies[..])
    ensures s.arms[..] == old(if s.tag == "match" then RelocateArms(s.arms[..], exprOff, stmtOff) else s.arms[..])
  {
    hide ShiftAll, RelocateArms;
    if s.tag == "block" {
      ShiftArray(s.stmts, stmtOff);
    } else if s.tag == "match" {
      ShiftArray(s.patterns, exprOff);
      ShiftArray(s.bodies, stmtOff);
      ShiftArms(s.arms, exprOff, stmtOff);
    }
  }

  method FixStmt(dst: StmtStore, di: nat, exprOff: nat, stmtOff: nat)
    requires di < |dst.stmts| && StmtOwns(dst.stmts[di])
    modifies dst, StmtArrays(dst.stmts[di])
    ensures |dst.stmts| == |old(dst.stmts)| && StmtArrays(dst.stmts[di]) == old(StmtArrays(dst.stmts[di]))
    ensures StmtOwns(dst.stmts[di])
    ensures dst.stmts == old(dst.stmts)[di := dst.stmts[di]]
    ensures StmtValue(dst.stmts[di]) == RelocateStmt(old(StmtValue(dst.stmts[di])), exprOff, stmtOff)
  {
    hide ShiftAll, RelocateArms, HasValue, HasAssign;
    var s := FixStmtFields(dst.stmts[di], exprOff, stmtOff);
    dst.stmts := dst.stmts[di := s];
    FixStmtArrays(s, exprOff, stmtOff);
  }

  // ----- whole stores -----

  method MergeExpr(src: seq<ExprNode>, i: nat, dst: ExprStore, exprOff: nat, stmtOff: nat)
    requires i < |src| && ExprsOwn(src)
    modifies dst, Held(src[i].args)
    ensures |dst.exprs| == |old(dst.exprs)| + 1 && dst.exprs[..|old(dst.exprs)|] == old(dst.exprs)
    ensures dst.exprs[|old(dst.exprs)|].args == src[i].args
    ensures ExprValue(dst.exprs[|old(dst.exprs)|]) == RelocateExpr(old(ExprValue(src[i])), exprOff, stmtOff)
    ensures forall j :: 0 <= j < |src| && j != i ==> ExprValue(src[j]) == old(ExprValue(src[j]))
    ensures forall j :: 0 <= j < |old(dst.exprs)| && Held(old(dst.exprs)[j].args) !! Held(src[i].args)
              ==> ExprValue(old(dst.exprs)[j]) == old(ExprValue(dst.exprs[j]))
  {
    hide RelocateExpr;
    dst.exprs := dst.exprs + [src[i]];
    FixExpr(dst, |dst.exprs| - 1, src[i].tag, exprOff, stmtOff);
  }

  lemma ArgsAreOwned(es: seq<ExprNode>)
    ensures forall j :: 0 <= j < |es| ==> Held(es[j].args) <= ExprsArrays(es)
  {
  }

  method MergeExprs(src: seq<ExprNode>, dst: ExprStore, exprOff: nat, stmtOff: nat, ghost arrays: set<object>)
    requires arrays == ExprsArrays(src)
    requires ExprsOwn(src) && arrays !! ExprsArrays(dst.exprs)
    modifies dst, arrays
    ensures ExprValues(dst.exprs) == old(ExprValues(dst.exprs)) + RelocateExprs(old(ExprValues(src)), exprOff, stmtOff)
    ensures ExprsArrays(dst.exprs) == old(ExprsArrays(dst.exprs)) + ExprsArrays(src)
  {
    hide RelocateExpr, ExprValue, ExprsArrays;
    var n := |dst.exprs|;
    ArgsAreOwned(dst.exprs);
    ArgsAreOwned(src);
    for i := 0 to |src|
      invariant |dst.exprs| == n + i && dst.exprs[..n] == old(dst.exprs)
      invariant forall j :: 0 <= j < i ==> dst.exprs[n + j].args == src[j].args
      invariant forall j :: 0 <= j < i ==> ExprValue(dst.exprs[n + j]) == RelocateExpr(old(ExprValue(src[j])), exprOff, stmtOff)
      invariant forall j :: i <= j < |src| ==> ExprValue(src[j]) == old(ExprValue(src[j]))
      invariant forall j :: 0 <= j < n ==> Held(dst.exprs[j].args) !! arrays
      invariant forall j :: 0 <= j < n ==> ExprValue(dst.exprs[j]) == old(ExprValue(dst.exprs[j]))
    {
      ghost var done := dst.exprs;
      MergeExpr(src, i, dst, exprOff, stmtOff);
      assert dst.exprs[..n + i] == done;
      assert forall k :: 0 <= k < n + i ==> dst.exprs[k] == done[k];
    }
    MergedExprArrays(old(dst.exprs), src, dst.exprs);
  }

  lemma MergedExprArrays(before: seq<ExprNode>, src: seq<ExprNode>, after: seq<ExprNode>)
    requires |after| == |before| + |src| && after[..|before|] == before
    requires forall j :: 0 <= j < |src| ==> after[|before| + j].args == src[j].args
    ensures ExprsArrays(after) == ExprsArrays(before) + ExprsArrays(src)
  {
    forall o | o in ExprsArrays(before) + ExprsArrays(src) ensures o in ExprsArrays(after) {
      if o in ExprsArrays(before) {
        var e :| e in before && o in Held(e.args);
        assert e in after[..|before|];
      } else {
        var j :| 0 <= j < |src| && o in Held(src[j].args);
        assert after[|before| + j] in after;
      }
    }
    forall o | o in ExprsArrays(after) ensures o in ExprsArrays(before) + ExprsArrays(src) {
      var j :| 0 <= j < |after| && o in Held(after[j].args);
      if j < |before| {
        assert after[j] == before[j];
      } else {
        assert o in Held(src[j - |before|].args);
      }
    }
  }

  lemma OwnedAt(ss: seq<StmtNode>, i: nat)
    requires i < |ss| && StmtsOwn(ss)
    ensures StmtOwns(ss[i]) && forall j :: 0 <= j < |ss| && j != i ==> StmtArrays(ss[j]) !! StmtArrays(ss[i])
  {
  }

  method MergeStmt(src: seq<StmtNode>, i: nat, dst: StmtStore, exprOff: nat, stmtOff: nat)
    requires i < |src| && StmtsOwn(src)
    modifies dst, StmtArrays(src[i])
    ensures |dst.stmts| == |old(dst.stmts)| + 1 && dst.stmts[..|old(dst.stmts)|] == old(dst.stmts)
    ensures StmtArrays(dst.stmts[|old(dst.stmts)|]) == StmtArrays(src[i])
    ensures StmtValue(dst.stmts[|old(dst.stmts)|]) == RelocateStmt(old(StmtValue(src[i])), exprOff, stmtOff)
    ensures forall j :: 0 <= j < |src| && j != i ==> StmtValue(src[j]) == old(StmtValue(src[j]))
    ensures forall j :: 0 <= j < |old(dst.stmts)| && StmtArrays(old(dst.stmts)[j]) !! StmtArrays(src[i])
              ==> StmtValue(old(dst.stmts)[j]) == old(StmtValue(dst.stmts[j]))
  {
    hide RelocateStmt, StmtValue, StmtsOwn;
    OwnedAt(src, i);
    dst.stmts := dst.stmts + [src[i]];
    FixStmt(dst, |dst.stmts| - 1, exprOff, stmtOff);
  }

  method MergeStmts(src: seq<StmtNode>, dst: StmtStore, exprOff: nat, stmtOff: nat, ghost arrays: set<object>)
    requires arrays == StmtsArrays(src)
    requires StmtsOwn(src) && arrays !! StmtsArrays(dst.stmts)
    modifies dst, arrays
    ensures StmtValues(dst.stmts) == old(StmtValues(dst.stmts)) + RelocateStmts(old(StmtValues(src)), exprOff, stmtOff)
    ensures StmtsArrays(dst.stmts) == old(StmtsArrays(dst.stmts)) + StmtsArrays(src)
  {
    hide RelocateStmt, StmtValue, StmtArrays;
    var n := |dst.stmts|;
    for i := 0 to |src|
      invariant |dst.stmts| == n + i && dst.stmts[..n] == old(dst.stmts)
      invariant forall j :: 0 <= j < i ==> StmtArrays(dst.stmts[n + j]) == StmtArrays(src[j])
      invariant forall j :: 0 <= j < i ==> StmtValue(dst.stmts[n + j]) == RelocateStmt(old(StmtValue(src[j])), exprOff, stmtOff)
      invariant forall j :: i <= j < |src| ==> StmtValue(src[j]) == old(StmtValue(src[j]))
      invariant forall j :: 0 <= j < n ==> StmtArrays(dst.stmts[j]) !! StmtsArrays(src)
      invariant forall j :: 0 <= j < n ==> StmtValue(dst.stmts[j]) == old(StmtValue(dst.stmts[j]))
    {
      ghost var done := dst.stmts;
      MergeStmt(src, i, dst, exprOff, stmtOff);
      assert dst.stmts[..n + i] == done;
      assert forall k :: 0 <= k < n + i ==> dst.stmts[k] == done[k];
    }
    MergedStmtArrays(old(dst.stmts), src, dst.stmts);
  }

  lemma MergedStmtArrays(before: seq<StmtNode>, src: seq<StmtNode>, after: seq<StmtNode>)
    requires |after| == |before| + |src| && after[..|before|] == before
    requires forall j :: 0 <= j < |src| ==> StmtArrays(after[|before| + j]) == StmtArrays(src[j])
    ensures StmtsArrays(after) == StmtsArrays(before) + StmtsArrays(src)
  {
    hide StmtArrays;
    forall o | o in StmtsArrays(before) + StmtsArrays(src) ensures o in StmtsArrays(after) {
      if o in StmtsArrays(before) {
        var s :| s in before && o in StmtArrays(s);
        assert s in after[..|before|];
      } else {
        var j :| 0 <= j < |src| && o in StmtArrays(src[j]);
        assert after[|before| + j] in after;
      }
    }
    forall o | o in StmtsArrays(after) ensures o in StmtsArrays(before) + StmtsArrays(src) {
      var j :| 0 <= j < |after| && o in StmtArrays(after[j]);
      if j < |before| {
        assert after[j] == before[j];
      } else {
        assert src[j - |before|] in src;
      }
    }
  }

  // ----- the whole graph -----

  datatype AstProgram = AstProgram(functions: seq<Function>, globals: seq<Global>, exprs: seq<ExprNode>, stmts: seq<StmtNode>)

  datatype ModuleNode = ModuleNode(qualifiedName: string, program: Option<AstProgram>)

  ghost function ArenasArrays(exprs: seq<ExprNode>, stmts: seq<StmtNode>): set<object> {
    ExprsArrays(exprs) + StmtsArrays(stmts)
  }

  ghost function ArenasValue(exprs: seq<ExprNode>, stmts: seq<StmtNode>): Arenas
    reads ArenasArrays(exprs, stmts)
  {
    Arenas(ExprValues(exprs), StmtValues(stmts))
  }

  ghost function ProgramArrays(p: AstProgram): set<object> {
    ArenasArrays(p.exprs, p.stmts)
  }

  ghost function ProgramValue(p: AstProgram): Program
    reads ProgramArrays(p)
  {
    Program(p.functions, p.globals, ArenasValue(p.exprs, p.stmts))
  }

  ghost predicate ProgramOwns(p: AstProgram) {
    ExprsOwn(p.exprs) && StmtsOwn(p.stmts) && ExprsArrays(p.exprs) !! StmtsArrays(p.stmts)
  }

  ghost function ModuleArrays(m: ModuleNode): set<object> {
    if m.program.Some? then ProgramArrays(m.program.value) else {}
  }

  ghost function ModuleValue(m: ModuleNode): Loaded
    reads ModuleArrays(m)
  {
    Loaded(m.qualifiedName, if m.program.Some? then Some(ProgramValue(m.program.value)) else None)
  }

  ghost function GraphArrays(graph: seq<ModuleNode>): set<object> {
    set m, o | m in graph && o in ModuleArrays(m) :: o
  }

  ghost function GraphValue(graph: seq<ModuleNode>): (r: seq<Loaded>)
    reads GraphArrays(graph)
    ensures |r| == |graph| && forall i :: 0 <= i < |graph| ==> r[i] == ModuleValue(graph[i])
  {
    seq(|graph|, i requires 0 <= i < |graph| reads if 0 <= i < |graph| then ModuleArrays(graph[i]) else {} => ModuleValue(graph[i]))
  }

  /** The parser hands over modules that share no array but empty ones. */
  ghost predicate GraphOwns(graph: seq<ModuleNode>) {
    && (forall i :: 0 <= i < |graph| && graph[i].program.Some? ==> ProgramOwns(graph[i].program.value))
    && (forall i, j :: 0 <= i < j < |graph| ==> ModuleArrays(graph[i]) !! ModuleArrays(graph[j]))
  }

  lemma StoresAreNotArrays(es: ExprStore, store: StmtStore, exprs: seq<ExprNode>, stmts: seq<StmtNode>)
    ensures es !in ExprsArrays(exprs) && store !in ExprsArrays(exprs)
    ensures es !in StmtsArrays(stmts) && store !in StmtsArrays(stmts)
  {
  }

  twostate lemma ExprsUnchanged(es: seq<ExprNode>)
    requires unchanged(ExprsArrays(es))
    ensures ExprValues(es) == old(ExprValues(es))
  {
  }

  twostate lemma StmtsUnchanged(ss: seq<StmtNode>)
    requires unchanged(StmtsArrays(ss))
    ensures StmtValues(ss) == old(StmtValues(ss))
  {
  }

  /** One program into the two stores that the merged program will have. The ghost sets
      are the arrays of the program's nodes and of the stores' nodes. */
  method MergeStores(exprs: seq<ExprNode>, stmts: seq<StmtNode>, es: ExprStore, store: StmtStore,
                     ghost ea: set<object>, ghost sa: set<object>, ghost held: set<object>, ghost heldStmts: set<object>)
    requires ExprsOwn(exprs) && StmtsOwn(stmts)
    requires ea == ExprsArrays(exprs) && sa == StmtsArrays(stmts)
    requires held == ExprsArrays(es.exprs) && heldStmts == StmtsArrays(store.stmts)
    requires ea !! sa && ea !! held && ea !! heldStmts && sa !! held && sa !! heldStmts
    modifies es, store, ea, sa
    ensures ArenasValue(es.exprs, store.stmts)
            == MergeArenas(old(ArenasValue(es.exprs, store.stmts)), old(ArenasValue(exprs, stmts)))
    ensures ExprsArrays(es.exprs) == held + ea && StmtsArrays(store.stmts) == heldStmts + sa
  {
    hide ExprValues, StmtValues, RelocateExprs, RelocateStmts, ExprsOwn, StmtsOwn, ExprsArrays, StmtsArrays;
    var exprOff, stmtOff := |es.exprs|, |store.stmts|;
    StoresAreNotArrays(es, store, exprs, stmts);
    StoresAreNotArrays(es, store, es.exprs, store.stmts);
    MergeExprs(exprs, es, exprOff, stmtOff, ea);
    StmtsUnchanged(store.stmts);
    StmtsUnchanged(stmts);
    label L:
    MergeStmts(stmts, store, exprOff, stmtOff, sa);
    ExprsUnchanged@L(es.exprs);
  }

  twostate lemma ModuleUnchanged(m: ModuleNode)
    requires unchanged(ModuleArrays(m))
    ensures ModuleValue(m) == old(ModuleValue(m))
  {
  }

  lemma ModuleArraysAllocated(m: ModuleNode)
    ensures forall o :: o in ModuleArrays(m) ==> allocated(o)
  {
  }

  /** The stores hold `p` so far, in arrays that no later module uses. */
  ghost predicate Holding(graph: seq<ModuleNode>, mi: nat, es: ExprStore, store: StmtStore)
    reads es, store
  {
    && ExprsArrays(es.exprs) !! StmtsArrays(store.stmts)
    && forall j :: mi <= j < |graph| ==>
         ModuleArrays(graph[j]) !! ExprsArrays(es.exprs) && ModuleArrays(graph[j]) !! StmtsArrays(store.stmts)
  }

  method RelocateFunctionsOf(fs: seq<Function>, prefix: string, stmtOff: nat, merged: seq<Function>)
    returns (r: seq<Function>)
    ensures r == merged + RelocateFunctions(fs, prefix, stmtOff)
  {
    r := merged;
    for i := 0 to |fs|
      invariant r == merged + RelocateFunctions(fs, prefix, stmtOff)[..i]
    {
      var body := if fs[i].body >= 0 then fs[i].body + stmtOff else fs[i].body;
      var name := if prefix == "" then fs[i].name else prefix + "::" + fs[i].name;
      r := r + [Function(name, body, fs[i].payload)];
    }
  }

  method RelocateGlobalsOf(gs: seq<Global>, prefix: string, exprOff: nat, merged: seq<Global>)
    returns (r: seq<Global>)
    ensures r == merged + RelocateGlobals(gs, prefix, exprOff)
  {
    r := merged;
    for i := 0 to |gs|
      invariant r == merged + RelocateGlobals(gs, prefix, exprOff)[..i]
    {
      var global := gs[i];
      if global.value >= 0 { global := global.(value := global.value + exprOff); }
      if prefix != "" { global := global.(name := prefix + "::" + global.name); }
      r := r + [global];
    }
  }

  /** One module into what was merged before it. */
  method MergeModule(m: ModuleNode, es: ExprStore, store: StmtStore, functions: seq<Function>, globals: seq<Global>)
    returns (functions': seq<Function>, globals': seq<Global>)
    requires m.program.Some? ==> ProgramOwns(m.program.value)
    requires ModuleArrays(m) !! ExprsArrays(es.exprs) && ModuleArrays(m) !! StmtsArrays(store.stmts)
    requires ExprsArrays(es.exprs) !! StmtsArrays(store.stmts)
    modifies es, store, ModuleArrays(m)
    ensures ExprsArrays(es.exprs) !! StmtsArrays(store.stmts)
    ensures ExprsArrays(es.exprs) <= old(ExprsArrays(es.exprs)) + ModuleArrays(m)
    ensures StmtsArrays(store.stmts) <= old(StmtsArrays(store.stmts)) + ModuleArrays(m)
    ensures Program(functions', globals', ArenasValue(es.exprs, store.stmts))
            == MergeOne(Program(functions, globals, old(ArenasValue(es.exprs, store.stmts))), old(ModuleValue(m)))
  {
    hide RelocateFunctions, RelocateGlobals, ExprValues, StmtValues, MergeArenas, Prefix, ExprsOwn, StmtsOwn, ExprsArrays, StmtsArrays;
    if m.program.None? { return functions, globals; }
    var prog := m.program.value;
    var prefix := Prefix(m.qualifiedName);
    var exprOff, stmtOff := |es.exprs|, |store.stmts|;
    ghost var ea, sa := ExprsArrays(prog.exprs), StmtsArrays(prog.stmts);
    ghost var held, heldStmts := ExprsArrays(es.exprs), StmtsArrays(store.stmts);
    assert ModuleArrays(m) == ea + sa;
    assert ea <= ModuleArrays(m) && sa <= ModuleArrays(m);
    MergeStores(prog.exprs, prog.stmts, es, store, ea, sa, held, heldStmts);
    functions' := RelocateFunctionsOf(prog.functions, prefix, stmtOff, functions);
    globals' := RelocateGlobalsOf(prog.globals, prefix, exprOff, globals);
  }

  /** The same, with what the remaining modules of the graph need. */
  method MergeNext(graph: seq<ModuleNode>, mi: nat, es: ExprStore, store: StmtStore,
                   functions: seq<Function>, globals: seq<Global>)
    returns (functions': seq<Function>, globals': seq<Global>)
    requires mi < |graph| && GraphOwns(graph) && Holding(graph, mi, es, store)
    modifies es, store, ModuleArrays(graph[mi])
    ensures Holding(graph, mi + 1, es, store)
    ensures Program(functions', globals', ArenasValue(es.exprs, store.stmts))
            == MergeOne(Program(functions, globals, old(ArenasValue(es.exprs, store.stmts))), old(ModuleValue(graph[mi])))
    ensures forall j :: mi < j < |graph| ==> ModuleValue(graph[j]) == old(ModuleValue(graph[j]))
  {
    hide MergeOne, ArenasValue, ModuleValue, ProgramOwns;
    functions', globals' := MergeModule(graph[mi], es, store, functions, globals);
    forall j | mi < j < |graph|
      ensures ModuleValue(graph[j]) == old(ModuleValue(graph[j]))
      ensures ModuleArrays(graph[j]) !! ModuleArrays(graph[mi])
    {
      assert ModuleArrays(graph[mi]) !! ModuleArrays(graph[j]);
      ModuleUnchanged(graph[j]);
    }
  }

  /** The root program and then every module of the graph but the first, which stands
      for the root and has no program of its own. */
  method ModuleGraphLoadAll(ok: bool, graph: seq<ModuleNode>, root: AstProgram) returns (merged: AstProgram)
    requires ProgramOwns(root) && GraphOwns(graph)
    requires |graph| > 0 ==> graph[0].program.None?
    requires forall j :: 0 <= j < |graph| ==>
               ModuleArrays(graph[j]) !! ExprsArrays(root.exprs) && ModuleArrays(graph[j]) !! StmtsArrays(root.stmts)
    modifies ProgramArrays(root), GraphArrays(graph)
    ensures ProgramValue(merged) == LoadAll(ok, old(ProgramValue(root)), old(GraphValue(graph)))
  {
    hide ArenasValue, ModuleValue, ProgramOwns, MergeOne, Holding, GraphOwns, Start;
    if !ok || |graph| == 0 { return root; }
    if |graph| == 1 { return root; }
    ghost var rootValue, graphValue := ProgramValue(root), GraphValue(graph);
    var es, store := StartStores(graph, root);
    var functions, globals := root.functions, root.globals;
    for mi := 1 to |graph|
      invariant fresh(es) && fresh(store)
      invariant Holding(graph, mi, es, store)
      invariant Program(functions, globals, ArenasValue(es.exprs, store.stmts)) == MergeUpTo(rootValue, graphValue, mi - 1)
      invariant forall j :: mi <= j < |graph| ==> ModuleValue(graph[j]) == graphValue[j]
    {
      functions, globals := MergeNext(graph, mi, es, store, functions, globals);
    }
    merged := AstProgram(functions, globals, es.exprs, store.stmts);
  }

  lemma NothingHeld(es: seq<ExprNode>, ss: seq<StmtNode>)
    requires es == [] && ss == []
    ensures ExprsArrays(es) == {} && StmtsArrays(ss) == {}
    ensures ArenasValue(es, ss) == EmptyArenas()
  {
  }

  method MergeRoot(root: AstProgram, es: ExprStore, store: StmtStore)
    requires ProgramOwns(root) && es.exprs == [] && store.stmts == []
    modifies es, store, ProgramArrays(root)
    ensures ExprsArrays(es.exprs) == ExprsArrays(root.exprs) && StmtsArrays(store.stmts) == StmtsArrays(root.stmts)
    ensures Program(root.functions, root.globals, ArenasValue(es.exprs, store.stmts)) == Start(old(ProgramValue(root)))
  {
    hide MergeArenas, ArenasValue, ExprsOwn, StmtsOwn, ExprsArrays, StmtsArrays;
    NothingHeld(es.exprs, store.stmts);
    ghost var ea, sa := ExprsArrays(root.exprs), StmtsArrays(root.stmts);
    assert ProgramArrays(root) == ea + sa;
    MergeStores(root.exprs, root.stmts, es, store, ea, sa, {}, {});
  }

  method StartStores(graph: seq<ModuleNode>, root: AstProgram) returns (es: ExprStore, store: StmtStore)
    requires ProgramOwns(root)
    requires forall j :: 0 <= j < |graph| ==>
               ModuleArrays(graph[j]) !! ExprsArrays(root.exprs) && ModuleArrays(graph[j]) !! StmtsArrays(root.stmts)
    modifies ProgramArrays(root)
    ensures fresh(es) && fresh(store) && Holding(graph, 1, es, store)
    ensures Program(root.functions, root.globals, ArenasValue(es.exprs, store.stmts)) == Start(old(ProgramValue(root)))
    ensures forall j :: 0 <= j < |graph| ==> ModuleValue(graph[j]) == old(ModuleValue(graph[j]))
  {
    hide ArenasValue, ModuleValue, ExprsOwn, StmtsOwn, Start, Holding;
    es := new ExprStore();
    store := new StmtStore();
    MergeRootFirst(graph, root, es, store);
  }

  /** The root program into empty stores, beside the modules of the graph. */
  method MergeRootFirst(graph: seq<ModuleNode>, root: AstProgram, es: ExprStore, store: StmtStore)
    requires ProgramOwns(root) && es.exprs == [] && store.stmts == []
    requires forall j :: 0 <= j < |graph| ==>
               ModuleArrays(graph[j]) !! ExprsArrays(root.exprs) && ModuleArrays(graph[j]) !! StmtsArrays(root.stmts)
    modifies es, store, ProgramArrays(root)
    ensures Holding(graph, 1, es, store)
    ensures Program(root.functions, root.globals, ArenasValue(es.exprs, store.stmts)) == Start(old(ProgramValue(root)))
    ensures forall j :: 0 <= j < |graph| ==> ModuleValue(graph[j]) == old(ModuleValue(graph[j]))
  {
    hide ArenasValue, ModuleValue, ExprsOwn, StmtsOwn, Start;
    MergeRoot(root, es, store);
    forall j | 0 <= j < |graph| ensures ModuleValue(graph[j]) == old(ModuleValue(graph[j])) {
      ModuleUnchanged(graph[j]);
    }
  }
}
