/**
  Emitted control flow is well formed: nothing is ever appended after a
  terminator, and every block that emission opens is ended exactly once.
 */
module CodegenShape {
  import opened Options
  import opened Ir
  import opened Source
  import opened Codegen

  lemma ExtRefl(b: Builder)
    requires !b.bad && b.cur < |b.blocks|
    ensures Ext(b, b, {})
  {
  }

  lemma ExtLater(b0: Builder, b1: Builder, pending: set<nat>)
    requires Ext(b0, b1, pending)
    ensures Later(b0, b1)
  {
  }

  lemma LaterThen(b0: Builder, b1: Builder, b2: Builder)
    requires Later(b0, b1) && Later(b1, b2)
    ensures Later(b0, b2)
  {
    forall i | 0 <= i < |b0.blocks|
      ensures BlockGrows(b0.blocks[i], b2.blocks[i])
    {
      assert BlockGrows(b0.blocks[i], b1.blocks[i]);
      assert BlockGrows(b1.blocks[i], b2.blocks[i]);
    }
  }

  lemma ExtThen(b0: Builder, b1: Builder, b2: Builder, pending: set<nat>)
    requires Ext(b0, b1, pending) && Ext(b1, b2, {})
    ensures Ext(b0, b2, pending)
  {
    forall i | 0 <= i < |b2.blocks| && (i == b0.cur || |b0.blocks| <= i) && i != b2.cur && i !in pending
      ensures b2.blocks[i].term.Some?
    {
      if i != b1.cur && i < |b1.blocks| {
        assert b1.blocks[i].term.Some?;
      }
    }
  }

  lemma ExtTrans(b0: Builder, b1: Builder, b2: Builder, pending: set<nat>)
    requires Ext(b0, b1, {}) && Ext(b1, b2, pending)
    ensures Ext(b0, b2, pending)
  {
    forall i | 0 <= i < |b2.blocks| && (i == b0.cur || |b0.blocks| <= i) && i != b2.cur && i !in pending
      ensures b2.blocks[i].term.Some?
    {
      if i != b1.cur && i < |b1.blocks| {
        assert b1.blocks[i].term.Some?;
      }
    }
  }

  lemma ExtAppend(b0: Builder, b1: Builder, n: nat, added: set<nat>)
    requires Ext(b0, b1, {})
    requires forall i :: i in added <==> |b1.blocks| <= i < |b1.blocks| + n
    ensures Ext(b0, Append(b1, n), added)
  {
  }

  lemma ExtMove(b0: Builder, b1: Builder, next: nat, pending: set<nat>, rest: set<nat>)
    requires Ext(b0, b1, pending) && b1.Terminated()
    requires next in pending && rest == pending - {next}
    ensures Ext(b0, At(b1, next), rest) && AtStart(At(b1, next))
  {
  }

  /** Lowering an expression always comes back to an open block. */
  lemma {:induction false} ExprFlows(b: Builder, e: Expr)
    requires b.Open()
    ensures Flows(b, LowerExpr(b, e).0) && LowerExpr(b, e).0.vars == b.vars
    decreases e, 1
  {
    hide Ext, EmitOp, EmitBin, EmitCompare, EmitLoad, EmitTemp, LowerArgs;
    match e
    case Lit(_) =>
      ExtRefl(b);
    case Var(_) =>
    case Binary(op, l, r) =>
      var (b1, vl) := LowerExpr(b, l);
      ExprFlows(b, l);
      var (b2, vr) := LowerExpr(b1, r);
      ExprFlows(b1, r);
      ExtThen(b, b1, b2, {});
      ExtThen(b, b2, EmitOp(b2, op, vl, vr).0, {});
    case Neg(e0) =>
      var (b1, v) := LowerExpr(b, e0);
      ExprFlows(b, e0);
      ExtThen(b, b1, EmitBin(b1, Sub, Const(0), v).0, {});
    case Not(e0) =>
      var (b1, v) := LowerExpr(b, e0);
      ExprFlows(b, e0);
      ExtThen(b, b1, EmitCompare(b1, Eq, v, Const(0)).0, {});
    case And(l, r) =>
      LogicalFlows(b, e);
    case Or(l, r) =>
      LogicalFlows(b, e);
    case IfExpr(c, t, f) =>
      IfExprFlows(b, e);
    case Invoke(name, args) =>
      var (b1, vs) := LowerArgs(b, args);
      ArgsFlow(b, args);
      ExtThen(b, b1, EmitTemp(b1, CallFn(b1.temps, name, vs)).0, {});
  }

  lemma {:induction false} ArgsFlow(b: Builder, es: seq<Expr>)
    requires b.Open()
    ensures Flows(b, LowerArgs(b, es).0) && LowerArgs(b, es).0.vars == b.vars
    decreases es, 0
  {
    hide Ext, LowerExpr;
    if es == [] {
      ExtRefl(b);
    } else {
      var b1 := LowerExpr(b, es[0]).0;
      ExprFlows(b, es[0]);
      ArgsFlow(b1, es[1..]);
      ExtThen(b, b1, LowerArgs(b1, es[1..]).0, {});
    }
  }

  lemma LogicalTestShape(b: Builder, v: Val, isAnd: bool)
    requires b.Open()
    ensures
      var r := LogicalTest(b, v, isAnd);
      && Ext(b, r, {ShortBlock(isAnd, r.cur), MergeBlock(isAnd, r.cur)}) && AtStart(r)
      && r.vars == b.vars && r.cur > |b.blocks| - 1 && ShortBlock(isAnd, r.cur) != MergeBlock(isAnd, r.cur)
  {
    var (b1, c) := EmitBin(b, Ne, v, Const(0));
    var n := |b1.blocks|;
    var b2 := Append(b1, 3);
    ExtAppend(b, b1, 3, {n, n + 1, n + 2});
    var b3 := Terminate(b2, CondBr(c, n, n + 1));
    ExtThen(b, b2, b3, {n, n + 1, n + 2});
    var r := LogicalTest(b, v, isAnd);
    ExtMove(b, b3, r.cur, {n, n + 1, n + 2}, {ShortBlock(isAnd, r.cur), MergeBlock(isAnd, r.cur)});
  }

  lemma LogicalMergeShape(b0: Builder, b: Builder, isAnd: bool, rhs: nat)
    requires ShortBlock(isAnd, rhs) != MergeBlock(isAnd, rhs)
    requires Ext(b0, b, {ShortBlock(isAnd, rhs), MergeBlock(isAnd, rhs)}) && b.Terminated()
    ensures Flows(b0, LogicalMerge(b, isAnd, rhs).0) && LogicalMerge(b, isAnd, rhs).0.vars == b.vars
  {
    var short, merge := ShortBlock(isAnd, rhs), MergeBlock(isAnd, rhs);
    ExtMove(b0, b, short, {short, merge}, {merge});
    var b1 := Terminate(At(b, short), Br(merge));
    ExtThen(b0, At(b, short), b1, {merge});
    ExtMove(b0, b1, merge, {merge}, {});
    ExtThen(b0, At(b1, merge), LogicalMerge(b, isAnd, rhs).0, {});
  }

  lemma {:induction false} LogicalFlows(b: Builder, e: Expr)
    requires b.Open() && (e.And? || e.Or?)
    ensures Flows(b, LowerLogical(b, e).0) && LowerLogical(b, e).0.vars == b.vars
    decreases e, 0
  {
    hide Ext, LogicalTest, LogicalMerge, ShortBlock, MergeBlock;
    var (b1, vl) := LowerExpr(b, e.left);
    ExprFlows(b, e.left);
    var b2 := LogicalTest(b1, vl, e.And?);
    LogicalTestShape(b1, vl, e.And?);
    var pending := {ShortBlock(e.And?, b2.cur), MergeBlock(e.And?, b2.cur)};
    ExtTrans(b, b1, b2, pending);
    var (b3, vr) := LowerExpr(b2, e.right);
    ExprFlows(b2, e.right);
    ExtThen(b, b2, b3, pending);
    var b4 := LogicalDecide(b3, vr, e.And?, b2.cur);
    ExtThen(b, b3, b4, pending);
    LogicalMergeShape(b, b4, e.And?, b2.cur);
  }

  lemma BranchToShape(b0: Builder, b: Builder, v: Val, block: nat, pending: set<nat>, rest: set<nat>)
    requires Ext(b0, b, pending) && b.Open() && block in pending && rest == pending - {block}
    ensures var r := BranchTo(b, v, block); Ext(b0, r, rest) && AtStart(r)
  {
    var b1 := Branch(b, v, block, block + 1);
    ExtThen(b0, b, b1, pending);
    ExtMove(b0, b1, block, pending, rest);
  }

  lemma {:induction false} IfExprFlows(b: Builder, e: Expr)
    requires b.Open() && e.IfExpr?
    ensures Flows(b, LowerIfExpr(b, e).0) && LowerIfExpr(b, e).0.vars == b.vars
    decreases e, 0
  {
    hide Ext, IfExprHead, BranchTo, EmitLoad, LowerInto;
    var thn := |b.blocks|;
    var pending := {thn, thn + 1, thn + 2};
    IfExprHeadShape(b, pending);
    var b0 := IfExprHead(b);
    var (b1, vc) := LowerExpr(b0, e.cond);
    ExprFlows(b0, e.cond);
    ExtThen(b, b0, b1, pending);
    BranchToShape(b, b1, vc, thn, pending, {thn + 1, thn + 2});
    var b2 := BranchTo(b1, vc, thn);
    IntoFlows(b, b2, e.thn, b.slots, thn + 2, thn + 1, {thn + 1, thn + 2}, {thn + 2});
    var b3 := LowerInto(b2, e.thn, b.slots, thn + 2, thn + 1);
    IntoFlows(b, b3, e.els, b.slots, thn + 2, thn + 2, {thn + 2}, {});
    var b4 := LowerInto(b3, e.els, b.slots, thn + 2, thn + 2);
    ExtThen(b, b4, EmitLoad(b4, b.slots).0, {});
  }

  lemma IfExprHeadShape(b: Builder, added: set<nat>)
    requires b.Open() && added == {|b.blocks|, |b.blocks| + 1, |b.blocks| + 2}
    ensures Ext(b, IfExprHead(b), added) && IfExprHead(b).Open() && IfExprHead(b).vars == b.vars
  {
    ExtAppend(b, Labels(EmitAlloca(b), 3).(temps := b.temps + 1), 3, added);
  }

  lemma {:induction false} IntoFlows(b0: Builder, b: Builder, e: Expr, slot: nat, end: nat, next: nat, pending: set<nat>, rest: set<nat>)
    requires b.Open() && Ext(b0, b, pending)
    requires next in pending && rest == pending - {next}
    ensures var r := LowerInto(b, e, slot, end, next); Ext(b0, r, rest) && AtStart(r) && r.vars == b.vars && r.cur == next && Later(b, r)
    decreases e, 2
  {
    var (b1, v) := LowerExpr(b, e);
    ExprFlows(b, e);
    ExtThen(b0, b, b1, pending);
    var b2 := Emit(b1, Store(v, slot));
    ExtThen(b0, b1, b2, pending);
    ExtThen(b0, b2, Seal(b2, end), pending);
    ExtMove(b0, Seal(b2, end), next, pending, rest);
    ExtThen(b, b1, b2, {});
    ExtLater(b, b2, {});
    LaterThen(b, b2, LowerInto(b, e, slot, end, next));
  }

  // ----- statements -----

  lemma {:induction false} StmtExt(b: Builder, s: Stmt, to: Targets, isVoid: bool)
    requires b.Open()
    ensures Ext(b, LowerStmt(b, s, to, isVoid), {})
    decreases s, 1
  {
    hide Ext, Define, Emit, Terminate, LowerExpr;
    match s
    case Let(x, e) =>
      var (b1, v) := LowerExpr(b, e);
      ExprFlows(b, e);
      ExtThen(b, b1, Define(b1, User(x), v), {});
    case Assign(x, e) =>
      var (b1, v) := LowerExpr(b, e);
      ExprFlows(b, e);
      ExtThen(b, b1, Emit(b1, Store(v, SlotOf(b1.vars, User(x)))), {});
    case PrintStmt(e) =>
      var (b1, v) := LowerExpr(b, e);
      ExprFlows(b, e);
      ExtThen(b, b1, Emit(b1, Print(v)), {});
    case ExprStmt(e) =>
      ExprFlows(b, e);
    case Block(body) =>
      SeqExt(b, body, to, isVoid);
    case If(_, _, _) =>
      IfExt(b, s, to, isVoid);
    case While(_, _) =>
      WhileExt(b, s, isVoid);
    case ForRange(_, _, _, _) =>
      ForExt(b, s, isVoid);
    case Match(_, _) =>
      MatchExt(b, s, to, isVoid);
    case Break =>
      ExtRefl(b);
    case Continue =>
      ExtRefl(b);
    case Return =>
    case ReturnExpr(e) =>
      var (b1, v) := LowerExpr(b, e);
      ExprFlows(b, e);
      ExtThen(b, b1, Terminate(b1, Ret(v)), {});
  }

  lemma {:induction false} SeqExt(b: Builder, ss: seq<Stmt>, to: Targets, isVoid: bool)
    requires !b.bad && b.cur < |b.blocks|
    ensures Ext(b, LowerSeq(b, ss, to, isVoid), {})
    decreases ss, 0
  {
    if ss == [] || b.Terminated() {
      ExtRefl(b);
    } else {
      var b1 := LowerStmt(b, ss[0], to, isVoid);
      StmtExt(b, ss[0], to, isVoid);
      SeqExt(b1, ss[1..], to, isVoid);
      ExtThen(b, b1, LowerSeq(b1, ss[1..], to, isVoid), {});
    }
  }

  /** Ending the current block and going on in a pending one. */
  lemma SealToShape(b0: Builder, b1: Builder, target: nat, next: nat, pending: set<nat>, rest: set<nat>)
    requires Ext(b0, b1, pending) && next in pending && rest == pending - {next}
    ensures var r := SealTo(b1, target, next); Ext(b0, r, rest) && AtStart(r)
  {
    hide Ext, Seal;
    assert !b1.bad && b1.cur < |b1.blocks| by { ExtCurrent(b0, b1, pending); }
    ExtThen(b0, b1, Seal(b1, target), pending);
    ExtMove(b0, Seal(b1, target), next, pending, rest);
  }

  lemma ExtCurrent(b0: Builder, b1: Builder, pending: set<nat>)
    requires Ext(b0, b1, pending)
    ensures !b1.bad && b1.cur < |b1.blocks|
  {
  }

  /** Appending blocks to an open builder. */
  lemma AppendShape(b: Builder, labels: nat, n: nat, added: set<nat>)
    requires b.Open()
    requires forall i :: i in added <==> |b.blocks| <= i < |b.blocks| + n
    ensures var r := Append(Labels(b, labels), n); Ext(b, r, added) && r.Open()
  {
    ExtAppend(b, Labels(b, labels), n, added);
  }

  lemma {:induction false} IfExt(b: Builder, s: Stmt, to: Targets, isVoid: bool)
    requires b.Open() && s.If?
    ensures Flows(b, LowerIf(b, s, to, isVoid))
    decreases s, 0
  {
    hide Ext, Builder.Open, LowerExpr, Append, BranchTo, SealTo, Labels;
    var thn := |b.blocks|;
    var b0 := Append(Labels(b, 3), 3);
    AppendShape(b, 3, 3, {thn, thn + 1, thn + 2});
    var (b1, v) := LowerExpr(b0, s.cond);
    ExprFlows(b0, s.cond);
    ExtThen(b, b0, b1, {thn, thn + 1, thn + 2});
    var b2 := BranchTo(b1, v, thn);
    BranchToShape(b, b1, v, thn, {thn, thn + 1, thn + 2}, {thn + 1, thn + 2});
    var b3 := LowerStmt(b2, s.thn, to, isVoid);
    StmtExt(b2, s.thn, to, isVoid);
    ExtThen(b, b2, b3, {thn + 1, thn + 2});
    var b4 := SealTo(b3, thn + 2, thn + 1);
    SealToShape(b, b3, thn + 2, thn + 1, {thn + 1, thn + 2}, {thn + 2});
    if s.els.Some? {
      var b5 := LowerStmt(b4, s.els.value, to, isVoid);
      StmtExt(b4, s.els.value, to, isVoid);
      ExtThen(b, b4, b5, {thn + 2});
      SealToShape(b, b5, thn + 2, thn + 2, {thn + 2}, {});
    } else {
      SealToShape(b, b4, thn + 2, thn + 2, {thn + 2}, {});
    }
  }

  lemma {:induction false} WhileExt(b: Builder, s: Stmt, isVoid: bool)
    requires b.Open() && s.While?
    ensures Flows(b, LowerWhile(b, s, isVoid))
    decreases s, 0
  {
    hide Ext, Builder.Open, LowerExpr, Append, BranchTo, SealTo, Labels;
    var cond := |b.blocks|;
    var b0 := Append(Labels(b, 3), 3);
    AppendShape(b, 3, 3, {cond, cond + 1, cond + 2});
    var b1 := SealTo(b0, cond, cond);
    SealToShape(b, b0, cond, cond, {cond, cond + 1, cond + 2}, {cond + 1, cond + 2});
    var (b2, v) := LowerExpr(b1, s.cond);
    ExprFlows(b1, s.cond);
    ExtThen(b, b1, b2, {cond + 1, cond + 2});
    var b3 := BranchTo(b2, v, cond + 1);
    BranchToShape(b, b2, v, cond + 1, {cond + 1, cond + 2}, {cond + 2});
    var to := Targets(Some(cond + 2), Some(cond));
    var b4 := LowerStmt(b3, s.loop, to, isVoid);
    StmtExt(b3, s.loop, to, isVoid);
    ExtThen(b, b3, b4, {cond + 2});
    SealToShape(b, b4, cond, cond + 2, {cond + 2}, {});
  }

  lemma ForHeadShape(b: Builder, x: string, from: Expr, limit: Expr)
    requires b.Open()
    ensures
      var r, cond := LowerForHead(b, x, from, limit).0, |b.blocks|;
      Ext(b, r, {cond + 1, cond + 2, cond + 3}) && AtStart(r)
  {
    hide Ext, LowerExpr, Append, SealTo, Builder.Open, Define, Labels;
    var cond := |b.blocks|;
    var pending := {cond, cond + 1, cond + 2, cond + 3};
    var b0 := Append(Labels(b, 4), 4);
    AppendShape(b, 4, 4, pending);
    var (b1, v1) := LowerExpr(b0, from);
    ExprFlows(b0, from);
    ExtThen(b, b0, b1, pending);
    var (b2, v2) := LowerExpr(b1, limit);
    ExprFlows(b1, limit);
    ExtThen(b, b1, b2, pending);
    var b3 := Define(b2, User(x), v1);
    ExtThen(b, b2, b3, pending);
    LabelsShape(b, b3, 1, pending);
    var b4 := Labels(b3, 1);
    var b5 := Define(b4, LoopEnd(x, b3.labels), v2);
    ExtThen(b, b4, b5, pending);
    SealToShape(b, b5, cond, cond, pending, {cond + 1, cond + 2, cond + 3});
  }

  lemma LabelsShape(b0: Builder, b1: Builder, n: nat, pending: set<nat>)
    requires Ext(b0, b1, pending) && b1.Open()
    ensures Ext(b0, Labels(b1, n), pending) && Labels(b1, n).Open()
  {
  }

  lemma ForTestShape(b0: Builder, b: Builder, x: Name, limit: Name, body: nat, end: nat, pending: set<nat>, rest: set<nat>)
    requires Ext(b0, b, pending) && b.Open() && body in pending && rest == pending - {body}
    ensures var r := LowerForTest(b, x, limit, body, end); Ext(b0, r, rest) && AtStart(r) && r.vars == b.vars
  {
    hide Ext, EmitLoad, EmitCompare, Branch, Builder.Open;
    var (b1, vi) := EmitLoad(b, SlotOf(b.vars, x));
    ExtThen(b0, b, b1, pending);
    var (b2, vl) := EmitLoad(b1, SlotOf(b.vars, limit));
    ExtThen(b0, b1, b2, pending);
    var (b3, c) := EmitCompare(b2, Lt, vi, vl);
    ExtThen(b0, b2, b3, pending);
    ExtThen(b0, b3, Branch(b3, c, body, end), pending);
    ExtMove(b0, Branch(b3, c, body, end), body, pending, rest);
  }

  lemma ForStepShape(b0: Builder, b: Builder, x: Name, cond: nat, end: nat)
    requires Ext(b0, b, {end}) && b.Open()
    ensures var r := LowerForStep(b, x, cond, end); Flows(b0, r) && AtStart(r) && r.vars == b.vars
  {
    hide Ext, EmitLoad, EmitBin, Emit, Terminate, Builder.Open;
    var (b1, vi) := EmitLoad(b, SlotOf(b.vars, x));
    ExtThen(b0, b, b1, {end});
    var (b2, vn) := EmitBin(b1, Add, vi, Const(1));
    ExtThen(b0, b1, b2, {end});
    var b3 := Emit(b2, Store(vn, SlotOf(b.vars, x)));
    ExtThen(b0, b2, b3, {end});
    ExtThen(b0, b3, Terminate(b3, Br(cond)), {end});
    ExtMove(b0, Terminate(b3, Br(cond)), end, {end}, {});
  }

  lemma {:induction false} ForExt(b: Builder, s: Stmt, isVoid: bool)
    requires b.Open() && s.ForRange?
    ensures Flows(b, LowerFor(b, s, isVoid))
    decreases s, 0
  {
    hide Ext, LowerForHead, LowerForTest, LowerForStep, SealTo, Builder.Open;
    var cond := |b.blocks|;
    var (b1, limit) := LowerForHead(b, s.name, s.from, s.to);
    ForHeadShape(b, s.name, s.from, s.to);
    var b2 := LowerForTest(b1, User(s.name), limit, cond + 1, cond + 3);
    ForTestShape(b, b1, User(s.name), limit, cond + 1, cond + 3, {cond + 1, cond + 2, cond + 3}, {cond + 2, cond + 3});
    var to := Targets(Some(cond + 3), Some(cond + 2));
    var b3 := LowerStmt(b2, s.loop, to, isVoid);
    StmtExt(b2, s.loop, to, isVoid);
    ExtThen(b, b2, b3, {cond + 2, cond + 3});
    SealToShape(b, b3, cond + 2, cond + 2, {cond + 2, cond + 3}, {cond + 3});
    ForStepShape(b, SealTo(b3, cond + 2, cond + 2), User(s.name), cond, cond + 3);
  }

  lemma {:induction false} MatchExt(b: Builder, s: Stmt, to: Targets, isVoid: bool)
    requires b.Open() && s.Match?
    ensures Flows(b, LowerMatch(b, s, to, isVoid))
    decreases s, 0
  {
    hide Ext, LowerExpr, Append, SealTo, Builder.Open, LowerArms, Labels;
    var (b1, v) := LowerExpr(b, s.subject);
    ExprFlows(b, s.subject);
    var end := |b1.blocks|;
    var b2 := Append(Labels(b1, 2), 2);
    AppendShape(b1, 2, 2, {end, end + 1});
    ExtTrans(b, b1, b2, {end, end + 1});
    var b3 := SealTo(b2, end + 1, end + 1);
    SealToShape(b, b2, end + 1, end + 1, {end, end + 1}, {end});
    var b4 := LowerArms(b3, s.arms, 0, v, None, end, to, isVoid);
    ArmsExt(b3, s.arms, 0, v, None, end, to, isVoid);
    ExtThen(b, b3, b4, {end});
    ExtMove(b, b4, end, {end}, {});
  }

  lemma {:induction false} ArmsExt(b: Builder, arms: seq<Arm>, i: nat, v: Val, dflt: Option<nat>, end: nat, to: Targets, isVoid: bool)
    requires i <= |arms| && (dflt.Some? ==> dflt.value < |arms|)
    requires b.Open()
    ensures var r := LowerArms(b, arms, i, v, dflt, end, to, isVoid); Ext(b, r, {}) && r.Terminated()
    decreases arms, |arms| - i
  {
    hide Ext, Seal, SealTo, LowerTest;
    if i == |arms| {
      var b1 := if dflt.Some? then LowerArmBody(b, arms[dflt.value], to, isVoid) else b;
      if dflt.Some? {
        ArmBodyExt(b, arms[dflt.value], to, isVoid);
      } else {
        ExtRefl(b);
      }
      ExtCurrent(b, b1, {});
      ExtThen(b, b1, Seal(b1, end), {});
    } else if arms[i].pattern.None? {
      ArmsExt(b, arms, i + 1, v, Some(i), end, to, isVoid);
    } else {
      var body := |b.blocks|;
      var b1 := LowerTest(b, v, arms[i].pattern.value);
      TestShape(b, v, arms[i].pattern.value);
      var b2 := LowerArmBody(b1, arms[i], to, isVoid);
      ArmBodyExt(b1, arms[i], to, isVoid);
      ExtThen(b, b1, b2, {body + 1});
      var b3 := SealTo(b2, end, body + 1);
      SealToShape(b, b2, end, body + 1, {body + 1}, {});
      ArmsExt(b3, arms, i + 1, v, dflt, end, to, isVoid);
      ExtThen(b, b3, LowerArms(b3, arms, i + 1, v, dflt, end, to, isVoid), {});
    }
  }

  lemma {:induction false} ArmBodyExt(b: Builder, arm: Arm, to: Targets, isVoid: bool)
    requires b.Open()
    ensures Ext(b, LowerArmBody(b, arm, to, isVoid), {})
    decreases arm, 0
  {
    StmtExt(b, arm.body, to, isVoid);
  }

  lemma TestShape(b: Builder, v: Val, pattern: Expr)
    requires b.Open()
    ensures
      var r := LowerTest(b, v, pattern);
      Ext(b, r, {|b.blocks| + 1}) && AtStart(r) && r.vars == b.vars
  {
    hide Ext, LowerExpr, Append, EmitCompare, BranchTo, Builder.Open;
    var body := |b.blocks|;
    var b0 := Append(Labels(b, 2), 2);
    AppendShape(b, 2, 2, {body, body + 1});
    var (b1, p) := LowerExpr(b0, pattern);
    ExprFlows(b0, pattern);
    ExtThen(b, b0, b1, {body, body + 1});
    var (b2, c) := EmitCompare(b1, Eq, v, p);
    ExtThen(b, b1, b2, {body, body + 1});
    BranchToShape(b, b2, c, body, {body, body + 1}, {body + 1});
  }
}
