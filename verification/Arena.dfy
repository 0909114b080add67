/**
  The two index arenas of a program, as values: expression nodes and statement nodes
  that refer to each other by position, and the trees that positions stand for.
 */
module Arena {
  import opened Options

  /** What merging never looks at: texts, literal values, names and locations. */
  datatype Payload = Payload(text: string, ints: seq<int>, names: seq<string>)

  datatype Expr = Expr(tag: string, payload: Payload, left: int, right: int, args: seq<int>)

  datatype MatchArm = MatchArm(pattern: int, body: int)

  datatype Stmt = Stmt(
    tag: string,
    payload: Payload,
    name: string,
    value: int,
    assign: int,
    print_: int,
    direct: int,
    body: int,
    blockStart: int,
    blockCount: nat,
    stmts: seq<int>,
    patterns: seq<int>,
    bodies: seq<int>,
    arms: seq<MatchArm>)

  datatype Arenas = Arenas(exprs: seq<Expr>, stmts: seq<Stmt>)

  /** A position in one of the arenas; a negative one means that there is no child. */
  datatype Ref = E(idx: int) | S(idx: int)

  function Refs(make: int -> Ref, indices: seq<int>): (r: seq<Ref>)
    ensures |r| == |indices| && forall i :: 0 <= i < |r| ==> r[i] == make(indices[i])
  {
    seq(|indices|, i requires 0 <= i < |indices| => make(indices[i]))
  }

  /** The children that code generation reads from an expression, by tag. A match
      reads its arguments in pairs of a pattern and a body. */
  function ExprRefs(e: Expr): seq<Ref> {
    if e.tag == "block_expr" then [S(e.left), E(e.right)]
    else if e.tag == "match_expr" then [E(e.left)] + Refs(i => E(i), e.args[..|e.args| / 2 * 2])
    else [E(e.left), E(e.right)] + Refs(i => E(i), e.args)
  }

  /** The children that code generation reads from a statement, by tag. */
  function StmtRefs(s: Stmt): seq<Ref> {
    if s.tag in {"return_expr", "expr", "match_option_string"} then [E(s.value)]
    else if s.tag in {"let", "assign"} then [E(s.assign)]
    else if s.tag in {"field_assign", "store_deref"} then [E(s.value), E(s.assign)]
    else if s.tag == "store_index" then [E(s.value), E(s.direct), E(s.assign)]
    else if s.tag == "print" then [E(s.print_)]
    else if s.tag == "while" then [E(s.value), S(s.body)]
    else if s.tag == "for_range" then [E(s.value), E(s.assign), S(s.body)]
    else if s.tag == "if" then [E(s.value), S(s.body), S(s.assign)]
    else if s.tag == "match" then [E(s.value)] + Refs(i => E(i), s.patterns) + Refs(i => S(i), s.bodies)
    else if s.tag == "block" then
      if s.stmts != [] then Refs(i => S(i), s.stmts) else Refs(i => S(s.blockStart + i), Upto(s.blockCount))
    else []
  }

  function Upto(n: nat): seq<int> {
    seq(n, i => i)
  }

  /** A node without its positions. */
  function ExprLabel(e: Expr): Expr {
    e.(left := -1, right := -1, args := [])
  }

  function StmtLabel(s: Stmt): Stmt {
    s.(value := -1, assign := -1, print_ := -1, direct := if s.tag == "store_index" then -1 else s.direct, body := -1,
       blockStart := -1, stmts := [], patterns := [], bodies := [], arms := [])
  }

  datatype Tree =
    | Absent(idx: int)
    | ExprTree(expr: Expr, children: seq<Tree>)
    | StmtTree(stmt: Stmt, children: seq<Tree>)

  /** The tree at a position, down to `depth` levels; none if it is deeper or leaves
      the arenas. */
  function Decode(a: Arenas, r: Ref, depth: nat): Option<Tree>
    decreases depth, 0
  {
    if r.idx < 0 then Some(Absent(r.idx))
    else if depth == 0 then None
    else if r.E? then
      if r.idx >= |a.exprs| then None
      else
        var children := DecodeAll(a, ExprRefs(a.exprs[r.idx]), depth - 1);
        if children.None? then None else Some(ExprTree(ExprLabel(a.exprs[r.idx]), children.value))
    else
      if r.idx >= |a.stmts| then None
      else
        var children := DecodeAll(a, StmtRefs(a.stmts[r.idx]), depth - 1);
        if children.None? then None else Some(StmtTree(StmtLabel(a.stmts[r.idx]), children.value))
  }

  function DecodeAll(a: Arenas, refs: seq<Ref>, depth: nat): Option<seq<Tree>>
    decreases depth, 1, |refs|
  {
    if refs == [] then Some([])
    else
      var first := Decode(a, refs[0], depth);
      var rest := DecodeAll(a, refs[1..], depth);
      if first.None? || rest.None? then None else Some([first.value] + rest.value)
  }

  // ----- relocation -----

  function Shift(i: int, off: nat): int {
    if i >= 0 then i + off else i
  }

  function ShiftAll(s: seq<int>, off: nat): (r: seq<int>)
    ensures |r| == |s| && forall i :: 0 <= i < |s| ==> r[i] == Shift(s[i], off)
  {
    seq(|s|, i requires 0 <= i < |s| => Shift(s[i], off))
  }

  function ShiftRef(r: Ref, exprOff: nat, stmtOff: nat): Ref {
    match r
    case E(i) => E(Shift(i, exprOff))
    case S(i) => S(Shift(i, stmtOff))
  }

  function ShiftRefs(refs: seq<Ref>, exprOff: nat, stmtOff: nat): (r: seq<Ref>)
    ensures |r| == |refs| && forall i :: 0 <= i < |r| ==> r[i] == ShiftRef(refs[i], exprOff, stmtOff)
  {
    seq(|refs|, i requires 0 <= i < |refs| => ShiftRef(refs[i], exprOff, stmtOff))
  }

  /** Arguments that form pairs; an odd last one is left alone. */
  function ShiftPairs(s: seq<int>, off: nat): (r: seq<int>)
    ensures |r| == |s|
  {
    ShiftAll(s[..|s| / 2 * 2], off) + s[|s| / 2 * 2..]
  }

  function RelocateExpr(e: Expr, exprOff: nat, stmtOff: nat): Expr {
    if e.tag == "block_expr" then e.(left := Shift(e.left, stmtOff), right := Shift(e.right, exprOff))
    else if e.tag == "match_expr" then e.(left := Shift(e.left, exprOff), args := ShiftPairs(e.args, exprOff))
    else e.(left := Shift(e.left, exprOff), right := Shift(e.right, exprOff), args := ShiftAll(e.args, exprOff))
  }

  function RelocateArm(a: MatchArm, exprOff: nat, stmtOff: nat): MatchArm {
    MatchArm(Shift(a.pattern, exprOff), Shift(a.body, stmtOff))
  }

  function RelocateArms(arms: seq<MatchArm>, exprOff: nat, stmtOff: nat): (r: seq<MatchArm>)
    ensures |r| == |arms| && forall i :: 0 <= i < |r| ==> r[i] == RelocateArm(arms[i], exprOff, stmtOff)
  {
    seq(|arms|, i requires 0 <= i < |arms| => RelocateArm(arms[i], exprOff, stmtOff))
  }

  predicate HasValue(tag: string) {
    tag in {"return_expr", "expr", "print", "match_option_string", "while", "for_range", "if", "match",
            "field_assign", "store_deref", "store_index"}
  }

  predicate HasAssign(tag: string) {
    tag in {"let", "assign", "field_assign", "store_deref", "store_index", "for_range"}
  }

  /** The positions that merging adds an offset to, tag by tag. */
  function RelocateStmt(s: Stmt, exprOff: nat, stmtOff: nat): Stmt {
    s.(
    value := if HasValue(s.tag) then Shift(s.value, exprOff) else s.value,
    assign := if HasAssign(s.tag) then Shift(s.assign, exprOff)
              else if s.tag == "if" then Shift(s.assign, stmtOff) else s.assign,
    body := if s.tag in {"while", "for_range", "if"} then Shift(s.body, stmtOff) else s.body,
    print_ := if s.tag == "print" then Shift(s.print_, exprOff) else s.print_,
    direct := if s.tag == "store_index" then Shift(s.direct, exprOff) else s.direct,
    blockStart := if s.tag == "block" then Shift(s.blockStart, stmtOff) else s.blockStart,
    stmts := if s.tag == "block" then ShiftAll(s.stmts, stmtOff) else s.stmts,
    patterns := if s.tag == "match" then ShiftAll(s.patterns, exprOff) else s.patterns,
    bodies := if s.tag == "match" then ShiftAll(s.bodies, stmtOff) else s.bodies,
    arms := if s.tag == "match" then RelocateArms(s.arms, exprOff, stmtOff) else s.arms)
  }

  /** A block that lists its statements as a range starts the range inside the arena. */
  predicate Sane(s: Stmt) {
    s.tag == "block" && s.stmts == [] && s.blockCount > 0 ==> s.blockStart >= 0
  }

  predicate SaneArenas(a: Arenas) {
    forall i :: 0 <= i < |a.stmts| ==> Sane(a.stmts[i])
  }

  lemma RelocatedExpr(e: Expr, exprOff: nat, stmtOff: nat)
    ensures ExprLabel(RelocateExpr(e, exprOff, stmtOff)) == ExprLabel(e)
    ensures ExprRefs(RelocateExpr(e, exprOff, stmtOff)) == ShiftRefs(ExprRefs(e), exprOff, stmtOff)
  {
    var r := RelocateExpr(e, exprOff, stmtOff);
    if e.tag == "match_expr" {
      assert r.args[..|r.args| / 2 * 2] == ShiftAll(e.args[..|e.args| / 2 * 2], exprOff);
    }
  }

  lemma RelocatedStmtLabel(s: Stmt, exprOff: nat, stmtOff: nat)
    ensures StmtLabel(RelocateStmt(s, exprOff, stmtOff)) == StmtLabel(s)
  {
  }

  lemma RelocatedStmt(s: Stmt, exprOff: nat, stmtOff: nat)
    requires Sane(s)
    ensures StmtRefs(RelocateStmt(s, exprOff, stmtOff)) == ShiftRefs(StmtRefs(s), exprOff, stmtOff)
  {
  }

  /** `big` holds the nodes of `a`, relocated, from the two offsets on. */
  ghost predicate Embeds(a: Arenas, big: Arenas, exprOff: nat, stmtOff: nat) {
    && exprOff + |a.exprs| <= |big.exprs| && stmtOff + |a.stmts| <= |big.stmts|
    && (forall i :: 0 <= i < |a.exprs| ==> big.exprs[exprOff + i] == RelocateExpr(a.exprs[i], exprOff, stmtOff))
    && (forall i :: 0 <= i < |a.stmts| ==> big.stmts[stmtOff + i] == RelocateStmt(a.stmts[i], exprOff, stmtOff))
  }

  /** Relocated nodes decode to the tree they had. */
  lemma {:induction false} EmbeddedTree(a: Arenas, big: Arenas, exprOff: nat, stmtOff: nat, r: Ref, depth: nat)
    requires SaneArenas(a) && Embeds(a, big, exprOff, stmtOff) && Decode(a, r, depth).Some?
    ensures Decode(big, ShiftRef(r, exprOff, stmtOff), depth) == Decode(a, r, depth)
    decreases depth, 0
  {
    hide RelocateExpr, RelocateStmt, ExprRefs, StmtRefs, ExprLabel, StmtLabel;
    if r.idx >= 0 {
      if r.E? {
        RelocatedExpr(a.exprs[r.idx], exprOff, stmtOff);
        EmbeddedTrees(a, big, exprOff, stmtOff, ExprRefs(a.exprs[r.idx]), depth - 1);
      } else {
        RelocatedStmtLabel(a.stmts[r.idx], exprOff, stmtOff);
        RelocatedStmt(a.stmts[r.idx], exprOff, stmtOff);
        EmbeddedTrees(a, big, exprOff, stmtOff, StmtRefs(a.stmts[r.idx]), depth - 1);
      }
    }
  }

  lemma {:induction false} EmbeddedTrees(a: Arenas, big: Arenas, exprOff: nat, stmtOff: nat, refs: seq<Ref>, depth: nat)
    requires SaneArenas(a) && Embeds(a, big, exprOff, stmtOff) && DecodeAll(a, refs, depth).Some?
    ensures DecodeAll(big, ShiftRefs(refs, exprOff, stmtOff), depth) == DecodeAll(a, refs, depth)
    decreases depth, 1, |refs|
  {
    if refs != [] {
      EmbeddedTree(a, big, exprOff, stmtOff, refs[0], depth);
      EmbeddedTrees(a, big, exprOff, stmtOff, refs[1..], depth);
      assert ShiftRefs(refs, exprOff, stmtOff)[1..] == ShiftRefs(refs[1..], exprOff, stmtOff);
    }
  }
}
