/**
  The flat variable table during lowering: slots stay distinct, and names in scope
  keep their slots as long as no declaration shadows them.
 */
module CodegenTable {
  import opened Options
  import opened Ir
  import opened Source
  import opened Codegen
  import opened CodegenSim

  /** `v1` still has, for every name of `scope`, the slot `v0` has. */
  ghost predicate Agree(scope: set<string>, v0: map<Name, nat>, v1: map<Name, nat>) {
    forall x :: x in scope && User(x) in v0 ==> User(x) in v1 && v1[User(x)] == v0[User(x)]
  }

  ghost predicate Keeps(b0: Builder, b1: Builder, scope: set<string>) {
    && b0.slots <= b1.slots
    && (TableOk(b0.vars, b0.slots) ==> TableOk(b1.vars, b1.slots))
    && Agree(scope, b0.vars, b1.vars)
  }

  lemma KeepsThen(b0: Builder, b1: Builder, b2: Builder, scope: set<string>)
    requires Keeps(b0, b1, scope) && Keeps(b1, b2, scope)
    ensures Keeps(b0, b2, scope)
  {
  }

  /** Emission that defines no name. */
  lemma KeepsSame(b0: Builder, b1: Builder, scope: set<string>)
    requires b1.vars == b0.vars && b0.slots <= b1.slots
    ensures Keeps(b0, b1, scope)
  {
  }

  lemma KeepsDefine(b: Builder, name: Name, v: Val, scope: set<string>)
    requires name.User? ==> name.name !in scope
    ensures Keeps(b, Define(b, name, v), scope)
  {
  }

  lemma {:induction false} ExprTable(b: Builder, e: Expr)
    ensures LowerExpr(b, e).0.vars == b.vars && b.slots <= LowerExpr(b, e).0.slots
    decreases e, 1
  {
    hide Ext, Flows, EmitOp, EmitBin, EmitCompare, EmitLoad;
    match e
    case Lit(_) =>
    case Var(_) =>
    case Binary(_, l, r) =>
      ExprTable(b, l);
      ExprTable(LowerExpr(b, l).0, r);
    case Neg(e0) =>
      ExprTable(b, e0);
    case Not(e0) =>
      ExprTable(b, e0);
    case And(_, _) =>
      LogicalTable(b, e);
    case Or(_, _) =>
      LogicalTable(b, e);
    case IfExpr(_, _, _) =>
      IfExprTable(b, e);
    case Invoke(_, args) =>
      ArgsTable(b, args);
  }

  lemma {:induction false} ArgsTable(b: Builder, es: seq<Expr>)
    ensures LowerArgs(b, es).0.vars == b.vars && b.slots <= LowerArgs(b, es).0.slots
    decreases es, 0
  {
    hide LowerExpr;
    if es != [] {
      ExprTable(b, es[0]);
      ArgsTable(LowerExpr(b, es[0]).0, es[1..]);
    }
  }

  lemma {:induction false} LogicalTable(b: Builder, e: Expr)
    requires e.And? || e.Or?
    ensures LowerLogical(b, e).0.vars == b.vars && b.slots <= LowerLogical(b, e).0.slots
    decreases e, 0
  {
    hide Ext, Flows;
    ExprTable(b, e.left);
    var (b1, vl) := LowerExpr(b, e.left);
    ExprTable(LogicalTest(b1, vl, e.And?), e.right);
  }

  lemma {:induction false} IfExprTable(b: Builder, e: Expr)
    requires e.IfExpr?
    ensures LowerIfExpr(b, e).0.vars == b.vars && b.slots <= LowerIfExpr(b, e).0.slots
    decreases e, 0
  {
    hide Ext, Flows;
    var thn := |b.blocks|;
    ExprTable(IfExprHead(b), e.cond);
    var (b1, vc) := LowerExpr(IfExprHead(b), e.cond);
    var b2 := BranchTo(b1, vc, thn);
    ExprTable(b2, e.thn);
    ExprTable(LowerInto(b2, e.thn, b.slots, thn + 2, thn + 1), e.els);
  }

  lemma {:induction false} StmtTable(b: Builder, s: Stmt, to: Targets, isVoid: bool, scope: set<string>)
    requires Scoped(s, scope)
    ensures Keeps(b, LowerStmt(b, s, to, isVoid), scope)
    decreases s, 1
  {
    hide Keeps, LowerExpr, Define, Emit;
    match s
    case Let(x, e) =>
      var (b1, v) := LowerExpr(b, e);
      ExprTable(b, e);
      KeepsSame(b, b1, scope);
      KeepsDefine(b1, User(x), v, scope);
      KeepsThen(b, b1, LowerStmt(b, s, to, isVoid), scope);
    case Assign(x, e) =>
      ExprTable(b, e);
      SimpleTable(b, s, to, isVoid, scope);
    case PrintStmt(e) =>
      ExprTable(b, e);
      SimpleTable(b, s, to, isVoid, scope);
    case ExprStmt(e) =>
      ExprTable(b, e);
      KeepsSame(b, LowerExpr(b, e).0, scope);
    case Block(body) =>
      SeqTable(b, body, to, isVoid, scope);
    case If(_, _, _) =>
      IfTable(b, s, to, isVoid, scope);
    case While(_, _) =>
      WhileTable(b, s, isVoid, scope);
    case ForRange(_, _, _, _) =>
      ForTable(b, s, isVoid, scope);
    case Match(_, _) =>
      MatchTable(b, s, to, isVoid, scope);
    case Break =>
      KeepsSame(b, LowerStmt(b, s, to, isVoid), scope);
    case Continue =>
      KeepsSame(b, LowerStmt(b, s, to, isVoid), scope);
    case Return =>
      KeepsSame(b, LowerStmt(b, s, to, isVoid), scope);
    case ReturnExpr(e) =>
      ExprTable(b, e);
      KeepsSame(b, LowerStmt(b, s, to, isVoid), scope);
  }

  lemma SimpleTable(b: Builder, s: Stmt, to: Targets, isVoid: bool, scope: set<string>)
    requires s.Assign? || s.PrintStmt?
    requires LowerExpr(b, s.e).0.vars == b.vars && b.slots <= LowerExpr(b, s.e).0.slots
    ensures Keeps(b, LowerStmt(b, s, to, isVoid), scope)
  {
    hide LowerExpr;
  }

  lemma {:induction false} SeqTable(b: Builder, ss: seq<Stmt>, to: Targets, isVoid: bool, scope: set<string>)
    requires ScopedSeq(ss, scope)
    ensures Keeps(b, LowerSeq(b, ss, to, isVoid), scope)
    decreases ss, 0
  {
    hide LowerStmt;
    if ss == [] || b.Terminated() {
      KeepsSame(b, b, scope);
    } else {
      var b1 := LowerStmt(b, ss[0], to, isVoid);
      StmtTable(b, ss[0], to, isVoid, scope);
      SeqTable(b1, ss[1..], to, isVoid, if ss[0].Let? then scope + {ss[0].name} else scope);
    }
  }

  lemma {:induction false} IfTable(b: Builder, s: Stmt, to: Targets, isVoid: bool, scope: set<string>)
    requires s.If? && Scoped(s, scope)
    ensures Keeps(b, LowerIf(b, s, to, isVoid), scope)
    decreases s, 0
  {
    hide Keeps, LowerExpr, LowerStmt, Ext, Flows, Later;
    var thn := |b.blocks|;
    var b0 := Append(Labels(b, 3), 3);
    ExprTable(b0, s.cond);
    var (b1, v) := LowerExpr(b0, s.cond);
    var b2 := BranchTo(b1, v, thn);
    KeepsSame(b, b2, scope);
    var b3 := LowerStmt(b2, s.thn, to, isVoid);
    StmtTable(b2, s.thn, to, isVoid, scope);
    KeepsThen(b, b2, b3, scope);
    var b4 := SealTo(b3, thn + 2, thn + 1);
    KeepsSame(b3, b4, scope);
    KeepsThen(b, b3, b4, scope);
    if s.els.Some? {
      var b5 := LowerStmt(b4, s.els.value, to, isVoid);
      StmtTable(b4, s.els.value, to, isVoid, scope);
      KeepsThen(b, b4, b5, scope);
      KeepsSame(b5, SealTo(b5, thn + 2, thn + 2), scope);
      KeepsThen(b, b5, SealTo(b5, thn + 2, thn + 2), scope);
    } else {
      KeepsSame(b4, SealTo(b4, thn + 2, thn + 2), scope);
      KeepsThen(b, b4, SealTo(b4, thn + 2, thn + 2), scope);
    }
  }

  lemma {:induction false} WhileTable(b: Builder, s: Stmt, isVoid: bool, scope: set<string>)
    requires s.While? && Scoped(s, scope)
    ensures Keeps(b, LowerWhile(b, s, isVoid), scope)
    decreases s, 0
  {
    hide Keeps, LowerExpr, LowerStmt, Ext, Flows, Later;
    var cond := |b.blocks|;
    var b1 := SealTo(Append(Labels(b, 3), 3), cond, cond);
    var (b2, v) := LowerExpr(b1, s.cond);
    ExprTable(b1, s.cond);
    var b3 := BranchTo(b2, v, cond + 1);
    KeepsSame(b, b3, scope);
    var to := Targets(Some(cond + 2), Some(cond));
    var b4 := LowerStmt(b3, s.loop, to, isVoid);
    StmtTable(b3, s.loop, to, isVoid, scope);
    KeepsThen(b, b3, b4, scope);
    KeepsSame(b4, SealTo(b4, cond, cond + 2), scope);
    KeepsThen(b, b4, SealTo(b4, cond, cond + 2), scope);
  }

  /** The head of a range loop names the iterator and the hidden limit. */
  lemma ForHeadTable(b: Builder, x: string, from: Expr, limit: Expr, scope: set<string>)
    requires x !in scope
    ensures
      var (r, end) := LowerForHead(b, x, from, limit);
      && Keeps(b, r, scope) && end.LoopEnd?
      && User(x) in r.vars && end in r.vars && r.vars[User(x)] >= b.slots && r.vars[end] >= b.slots
  {
    hide Keeps, LowerExpr, Ext, Flows, Later, Emit;
    var b0 := Append(Labels(b, 4), 4);
    var (b1, vFrom) := LowerExpr(b0, from);
    ExprTable(b0, from);
    var (b2, vLimit) := LowerExpr(b1, limit);
    ExprTable(b1, limit);
    KeepsSame(b, b2, scope);
    var b3 := Define(b2, User(x), vFrom);
    KeepsDefine(b2, User(x), vFrom, scope);
    KeepsThen(b, b2, b3, scope);
    var b4 := Labels(b3, 1);
    KeepsSame(b3, b4, scope);
    KeepsThen(b, b3, b4, scope);
    var end := LoopEnd(x, b3.labels);
    var b5 := Define(b4, end, vLimit);
    KeepsDefine(b4, end, vLimit, scope);
    KeepsThen(b, b4, b5, scope);
    var r := LowerForHead(b, x, from, limit).0;
    KeepsSame(b5, r, scope);
    KeepsThen(b, b5, r, scope);
  }

  lemma {:induction false} ForTable(b: Builder, s: Stmt, isVoid: bool, scope: set<string>)
    requires s.ForRange? && Scoped(s, scope)
    ensures Keeps(b, LowerFor(b, s, isVoid), scope)
    decreases s, 0
  {
    hide LowerForHead, LowerExpr, LowerStmt, Ext, Flows, Later, TableOk;
    var cond := |b.blocks|;
    var (b1, limit) := LowerForHead(b, s.name, s.from, s.to);
    ForHeadTable(b, s.name, s.from, s.to, scope);
    var b2 := LowerForTest(b1, User(s.name), limit, cond + 1, cond + 3);
    KeepsSame(b1, b2, scope);
    var to := Targets(Some(cond + 3), Some(cond + 2));
    var b3 := LowerStmt(b2, s.loop, to, isVoid);
    StmtTable(b2, s.loop, to, isVoid, scope + {s.name});
    var b4 := SealTo(b3, cond + 2, cond + 2);
    KeepsSame(b3, b4, scope);
    KeepsSame(b4, LowerForStep(b4, User(s.name), cond, cond + 3), scope);
  }

  lemma {:induction false} MatchTable(b: Builder, s: Stmt, to: Targets, isVoid: bool, scope: set<string>)
    requires s.Match? && Scoped(s, scope)
    ensures Keeps(b, LowerMatch(b, s, to, isVoid), scope)
    decreases s, 0
  {
    hide LowerExpr, LowerArms, Ext, Flows, Later, TableOk, Keeps;
    var (b1, v) := LowerExpr(b, s.subject);
    ExprTable(b, s.subject);
    var end := |b1.blocks|;
    var b2 := SealTo(Append(Labels(b1, 2), 2), end + 1, end + 1);
    KeepsSame(b, b2, scope);
    var b3 := LowerArms(b2, s.arms, 0, v, None, end, to, isVoid);
    ArmsScoped(s.arms, scope);
    ArmsTable(b2, s.arms, 0, v, None, end, to, isVoid, scope);
    KeepsThen(b, b2, b3, scope);
    KeepsSame(b3, At(b3, end), scope);
    KeepsThen(b, b3, At(b3, end), scope);
  }

  /** Arms that lie in scope, by position. */
  ghost predicate AllScoped(arms: seq<Arm>, scope: set<string>) {
    forall k :: 0 <= k < |arms| ==> ScopedArm(arms[k], scope)
  }

  lemma {:induction false} ArmsScoped(arms: seq<Arm>, scope: set<string>)
    requires ScopedArms(arms, scope)
    ensures AllScoped(arms, scope)
    ensures forall k :: 0 <= k < |arms| && arms[k].pattern.None? ==> k == |arms| - 1
  {
    if arms != [] {
      ArmsScoped(arms[1..], scope);
      assert forall k :: 1 <= k < |arms| ==> arms[k] == arms[1..][k - 1];
    }
  }

  lemma {:induction false} ArmsTable(b: Builder, arms: seq<Arm>, i: nat, v: Val, dflt: Option<nat>, end: nat, to: Targets, isVoid: bool, scope: set<string>)
    requires i <= |arms| && (dflt.Some? ==> dflt.value < |arms|)
    requires AllScoped(arms, scope)
    ensures Keeps(b, LowerArms(b, arms, i, v, dflt, end, to, isVoid), scope)
    decreases arms, |arms| - i
  {
    hide LowerExpr, LowerStmt, Ext, Flows, Later, TableOk, Keeps;
    if i == |arms| {
      var b1 := if dflt.Some? then LowerArmBody(b, arms[dflt.value], to, isVoid) else b;
      if dflt.Some? {
        ArmTable(b, arms[dflt.value], to, isVoid, scope);
      } else {
        KeepsSame(b, b, scope);
      }
      KeepsSame(b1, Seal(b1, end), scope);
      KeepsThen(b, b1, Seal(b1, end), scope);
    } else if arms[i].pattern.None? {
      ArmsTable(b, arms, i + 1, v, Some(i), end, to, isVoid, scope);
    } else {
      var body := |b.blocks|;
      ExprTable(Append(Labels(b, 2), 2), arms[i].pattern.value);
      var b1 := LowerTest(b, v, arms[i].pattern.value);
      KeepsSame(b, b1, scope);
      var b2 := LowerArmBody(b1, arms[i], to, isVoid);
      ArmTable(b1, arms[i], to, isVoid, scope);
      KeepsThen(b, b1, b2, scope);
      var b3 := SealTo(b2, end, body + 1);
      KeepsSame(b2, b3, scope);
      KeepsThen(b, b2, b3, scope);
      ArmsTable(b3, arms, i + 1, v, dflt, end, to, isVoid, scope);
      KeepsThen(b, b3, LowerArms(b3, arms, i + 1, v, dflt, end, to, isVoid), scope);
    }
  }

  lemma {:induction false} ArmTable(b: Builder, arm: Arm, to: Targets, isVoid: bool, scope: set<string>)
    requires ScopedArm(arm, scope)
    ensures Keeps(b, LowerArmBody(b, arm, to, isVoid), scope)
    decreases arm, 0
  {
    StmtTable(b, arm.body, to, isVoid, scope);
  }
}
