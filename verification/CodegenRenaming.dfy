/**
  Lowering does not look at names but to find their slots: a statement and its renamed form
  are lowered to the same blocks, as long as every name that is used still finds its own
  declaration.
 */
module CodegenRenaming {
  import opened Options
  import opened Ir
  import opened Source
  import opened Codegen
  import opened CodegenSim
  import opened CodegenTable
  import opened CodegenCorrect
  import opened CodegenNames
  import opened Renaming

  // ----- builders that differ in their tables only -----

  predicate Same(b: Builder, c: Builder) {
    c == b.(vars := c.vars)
  }

  /** The good names have the slots that their new names have. */
  ghost predicate Twin(m: Numbers, good: set<string>, v: map<Name, nat>, w: map<Name, nat>) {
    forall x :: x in good ==> TwinAt(m, x, v, w)
  }

  predicate TwinAt(m: Numbers, x: string, v: map<Name, nat>, w: map<Name, nat>) {
    x in m && User(x) in v && User(Fresh(m[x])) in w && w[User(Fresh(m[x]))] == v[User(x)]
  }

  lemma TwinLess(m: Numbers, good: set<string>, less: set<string>, v: map<Name, nat>, w: map<Name, nat>)
    requires Twin(m, good, v, w) && less <= good
    ensures Twin(m, less, v, w)
  {
  }

  lemma SameOpen(b: Builder, c: Builder)
    requires Same(b, c)
    ensures b.Open() == c.Open() && b.Terminated() == c.Terminated()
  {
  }

  lemma SameEmit(b: Builder, c: Builder, i: Instr)
    requires Same(b, c)
    ensures Same(Emit(b, i), Emit(c, i))
  {
    hide Ext, Flows;
  }

  lemma SameTerminate(b: Builder, c: Builder, t: Term)
    requires Same(b, c)
    ensures Same(Terminate(b, t), Terminate(c, t))
  {
    hide Ext, Flows;
  }

  lemma SameAppend(b: Builder, c: Builder, labels: nat, n: nat)
    requires Same(b, c)
    ensures Same(Append(Labels(b, labels), n), Append(Labels(c, labels), n))
  {
  }

  lemma SameTemp(b: Builder, c: Builder, i: Instr)
    requires Same(b, c)
    ensures Same(EmitTemp(b, i).0, EmitTemp(c, i).0) && EmitTemp(b, i).1 == EmitTemp(c, i).1
  {
    hide Ext, Flows, Emit;
    SameEmit(b, c, i);
  }

  lemma SameBin(b: Builder, c: Builder, op: Op, l: Val, r: Val)
    requires Same(b, c)
    ensures Same(EmitBin(b, op, l, r).0, EmitBin(c, op, l, r).0) && EmitBin(b, op, l, r).1 == EmitBin(c, op, l, r).1
  {
    hide Ext, Flows, EmitTemp;
    SameTemp(b, c, Bin(b.temps, op, l, r));
  }

  lemma SameCall(b: Builder, c: Builder, name: string, vs: seq<Val>)
    requires Same(b, c)
    ensures var i, j := CallFn(b.temps, name, vs), CallFn(c.temps, name, vs);
            Same(EmitTemp(b, i).0, EmitTemp(c, j).0) && EmitTemp(b, i).1 == EmitTemp(c, j).1
  {
    hide Ext, Flows, EmitTemp;
    SameTemp(b, c, CallFn(b.temps, name, vs));
  }

  lemma SameOp(b: Builder, c: Builder, op: Op, l: Val, r: Val)
    requires Same(b, c)
    ensures Same(EmitOp(b, op, l, r).0, EmitOp(c, op, l, r).0) && EmitOp(b, op, l, r).1 == EmitOp(c, op, l, r).1
    ensures Same(EmitCompare(b, op, l, r).0, EmitCompare(c, op, l, r).0) && EmitCompare(b, op, l, r).1 == EmitCompare(c, op, l, r).1
  {
    hide Ext, Flows, EmitTemp, EmitBin;
    SameBin(b, c, op, l, r);
    var (b1, v) := EmitBin(b, op, l, r);
    SameTemp(b1, EmitBin(c, op, l, r).0, Zext(b1.temps, v));
  }

  lemma SameLoad(b: Builder, c: Builder, slot: nat)
    requires Same(b, c)
    ensures Same(EmitLoad(b, slot).0, EmitLoad(c, slot).0) && EmitLoad(b, slot).1 == EmitLoad(c, slot).1
  {
    hide Ext, Flows, EmitTemp;
    SameTemp(b, c, Load(b.temps, slot));
  }

  lemma SameDefine(b: Builder, c: Builder, x: Name, y: Name, v: Val)
    requires Same(b, c)
    ensures Same(Define(b, x, v), Define(c, y, v))
    ensures Define(b, x, v).vars == b.vars[x := b.slots] && Define(b, x, v).slots == b.slots + 1
  {
    hide Ext, Flows;
  }

  lemma SameBranchTo(b: Builder, c: Builder, v: Val, block: nat)
    requires Same(b, c)
    ensures Same(BranchTo(b, v, block), BranchTo(c, v, block))
    ensures Same(Branch(b, v, block, block + 1), Branch(c, v, block, block + 1))
  {
    hide Ext, Flows, EmitBin, Terminate, Later;
    SameBin(b, c, Ne, v, Const(0));
    var (b1, t) := EmitBin(b, Ne, v, Const(0));
    SameTerminate(b1, EmitBin(c, Ne, v, Const(0)).0, CondBr(t, block, block + 1));
  }

  lemma SameSeal(b: Builder, c: Builder, target: nat, next: nat)
    requires Same(b, c)
    ensures Same(Seal(b, target), Seal(c, target)) && Same(SealTo(b, target, next), SealTo(c, target, next))
  {
    hide Ext, Flows, Later, Terminate;
    SameTerminate(b, c, Br(target));
  }

  // ----- expressions -----

  lemma {:induction false} ExprSame(b: Builder, c: Builder, e: Expr, m: Numbers)
    requires Same(b, c) && Twin(m, Reads(e), b.vars, c.vars)
    ensures Same(LowerExpr(b, e).0, LowerExpr(c, RenameExpr(e, m)).0) && LowerExpr(b, e).1 == LowerExpr(c, RenameExpr(e, m)).1
    decreases e, 1
  {
    hide Same, Twin, EmitOp, EmitBin, EmitCompare, EmitLoad, EmitTemp, Ext, Flows, LowerLogical, LowerIfExpr, LowerArgs, RenameArgs;
    var f := RenameExpr(e, m);
    match e
    case Lit(_) =>
    case Var(x) => VarSame(b, c, x, m);
    case Binary(op, l, r) =>
      TwoReads(m, e, l, r, b.vars, c.vars);
      OperandSame(b, c, l, m);
      var (b1, vl) := LowerExpr(b, l);
      var c1 := LowerExpr(c, f.left).0;
      OperandSame(b1, c1, r, m);
      SameOp(LowerExpr(b1, r).0, LowerExpr(c1, f.right).0, op, vl, LowerExpr(b1, r).1);
    case Neg(e0) =>
      OperandSame(b, c, e0, m);
      SameBin(LowerExpr(b, e0).0, LowerExpr(c, f.e).0, Sub, Const(0), LowerExpr(b, e0).1);
    case Not(e0) =>
      OperandSame(b, c, e0, m);
      SameOp(LowerExpr(b, e0).0, LowerExpr(c, f.e).0, Eq, LowerExpr(b, e0).1, Const(0));
    case And(_, _) => LogicalSame(b, c, e, m);
    case Or(_, _) => LogicalSame(b, c, e, m);
    case IfExpr(_, _, _) => IfExprSame(b, c, e, m);
    case Invoke(name, args) =>
      TwinArgs(m, e, b.vars, c.vars);
      ArgsSame(b, c, args, m);
      SameCall(LowerArgs(b, args).0, LowerArgs(c, f.args).0, name, LowerArgs(b, args).1);
  }

  lemma TwinArgs(m: Numbers, e: Expr, v: map<Name, nat>, w: map<Name, nat>)
    requires e.Invoke? && Twin(m, Reads(e), v, w)
    ensures Twin(m, ReadsOfAll(e.args), v, w)
  {
  }

  lemma {:induction false} ArgsSame(b: Builder, c: Builder, es: seq<Expr>, m: Numbers)
    requires Same(b, c) && Twin(m, ReadsOfAll(es), b.vars, c.vars)
    ensures Same(LowerArgs(b, es).0, LowerArgs(c, RenameArgs(es, m)).0) && LowerArgs(b, es).1 == LowerArgs(c, RenameArgs(es, m)).1
    decreases es, 0
  {
    hide Same, Twin, LowerExpr, RenameExpr, Reads;
    if es != [] {
      TwinLess(m, ReadsOfAll(es), Reads(es[0]), b.vars, c.vars);
      TwinLess(m, ReadsOfAll(es), ReadsOfAll(es[1..]), b.vars, c.vars);
      OperandSame(b, c, es[0], m);
      ArgsSame(LowerExpr(b, es[0]).0, LowerExpr(c, RenameExpr(es[0], m)).0, es[1..], m);
      var rest := RenameArgs(es[1..], m);
      assert ([RenameExpr(es[0], m)] + rest)[1..] == rest;
    }
  }

  lemma VarSame(b: Builder, c: Builder, x: string, m: Numbers)
    requires Same(b, c) && Twin(m, Reads(Var(x)), b.vars, c.vars)
    ensures Same(LowerExpr(b, Var(x)).0, LowerExpr(c, RenameExpr(Var(x), m)).0)
    ensures LowerExpr(b, Var(x)).1 == LowerExpr(c, RenameExpr(Var(x), m)).1
  {
    hide Same, EmitLoad;
    assert TwinAt(m, x, b.vars, c.vars);
    SameLoad(b, c, SlotOf(b.vars, User(x)));
  }

  lemma TwoReads(m: Numbers, e: Expr, l: Expr, r: Expr, v: map<Name, nat>, w: map<Name, nat>)
    requires Twin(m, Reads(e), v, w) && Reads(l) <= Reads(e) && Reads(r) <= Reads(e)
    ensures Twin(m, Reads(l), v, w) && Twin(m, Reads(r), v, w)
  {
  }

  /** An expression and the tables behind it. */
  lemma {:induction false} OperandSame(b: Builder, c: Builder, e: Expr, m: Numbers)
    requires Same(b, c) && Twin(m, Reads(e), b.vars, c.vars)
    ensures var (b1, v) := LowerExpr(b, e);
            var (c1, w) := LowerExpr(c, RenameExpr(e, m));
            Same(b1, c1) && v == w && b1.vars == b.vars && c1.vars == c.vars && b.slots <= b1.slots
    decreases e, 2
  {
    hide Same, Twin, LowerExpr;
    ExprSame(b, c, e, m);
    ExprTable(b, e);
    ExprTable(c, RenameExpr(e, m));
  }

  lemma SameLogical(b: Builder, c: Builder, v: Val, isAnd: bool, rhs: nat)
    requires Same(b, c)
    ensures Same(LogicalTest(b, v, isAnd), LogicalTest(c, v, isAnd))
    ensures Same(LogicalMerge(LogicalDecide(b, v, isAnd, rhs), isAnd, rhs).0, LogicalMerge(LogicalDecide(c, v, isAnd, rhs), isAnd, rhs).0)
    ensures LogicalMerge(LogicalDecide(b, v, isAnd, rhs), isAnd, rhs).1 == LogicalMerge(LogicalDecide(c, v, isAnd, rhs), isAnd, rhs).1
  {
    SameTest(b, c, v, isAnd);
    SameDecide(b, c, v, isAnd, rhs);
    hide LogicalDecide, LogicalTest;
    SameMerge(LogicalDecide(b, v, isAnd, rhs), LogicalDecide(c, v, isAnd, rhs), isAnd, rhs);
  }

  lemma SameTest(b: Builder, c: Builder, v: Val, isAnd: bool)
    requires Same(b, c)
    ensures Same(LogicalTest(b, v, isAnd), LogicalTest(c, v, isAnd))
  {
    hide Ext, Flows, EmitBin, Terminate;
    SameBin(b, c, Ne, v, Const(0));
    var (b1, t) := EmitBin(b, Ne, v, Const(0));
    var c1 := EmitBin(c, Ne, v, Const(0)).0;
    SameAppend(b1, c1, 0, 3);
    SameTerminate(Append(b1, 3), Append(c1, 3), CondBr(t, |b1.blocks|, |b1.blocks| + 1));
  }

  lemma SameDecide(b: Builder, c: Builder, v: Val, isAnd: bool, rhs: nat)
    requires Same(b, c)
    ensures Same(LogicalDecide(b, v, isAnd, rhs), LogicalDecide(c, v, isAnd, rhs))
  {
    hide Ext, Flows, EmitBin, Terminate, ShortBlock, MergeBlock;
    SameBin(b, c, Ne, v, Const(0));
    var (b1, t) := EmitBin(b, Ne, v, Const(0));
    var short, merge := ShortBlock(isAnd, rhs), MergeBlock(isAnd, rhs);
    SameTerminate(b1, EmitBin(c, Ne, v, Const(0)).0, if isAnd then CondBr(t, merge, short) else CondBr(t, short, merge));
  }

  lemma SameMerge(b: Builder, c: Builder, isAnd: bool, rhs: nat)
    requires Same(b, c)
    ensures Same(LogicalMerge(b, isAnd, rhs).0, LogicalMerge(c, isAnd, rhs).0)
    ensures LogicalMerge(b, isAnd, rhs).1 == LogicalMerge(c, isAnd, rhs).1
  {
    hide Ext, Flows, EmitTemp, Terminate, ShortBlock, MergeBlock;
    var short, merge := ShortBlock(isAnd, rhs), MergeBlock(isAnd, rhs);
    SameTerminate(At(b, short), At(c, short), Br(merge));
    var b1 := Terminate(At(b, short), Br(merge));
    var c1 := Terminate(At(c, short), Br(merge));
    SameTemp(At(b1, merge), At(c1, merge), if isAnd then Phi(b1.temps, Const(1), b.cur, Const(0), short)
                                           else Phi(b1.temps, Const(1), short, Const(0), b.cur));
  }

  lemma {:induction false} LogicalSame(b: Builder, c: Builder, e: Expr, m: Numbers)
    requires (e.And? || e.Or?) && Same(b, c) && Twin(m, Reads(e), b.vars, c.vars)
    ensures var f := RenameExpr(e, m);
            Same(LowerLogical(b, e).0, LowerLogical(c, f).0) && LowerLogical(b, e).1 == LowerLogical(c, f).1
    decreases e, 0
  {
    hide Twin, LogicalTest, LogicalDecide, LogicalMerge, LowerExpr, Ext, Flows;
    var f, isAnd := RenameExpr(e, m), e.And?;
    TwoReads(m, e, e.left, e.right, b.vars, c.vars);
    OperandSame(b, c, e.left, m);
    var (b1, v) := LowerExpr(b, e.left);
    var c1 := LowerExpr(c, f.left).0;
    SameTest(b1, c1, v, isAnd);
    var b2, c2 := LogicalTest(b1, v, isAnd), LogicalTest(c1, v, isAnd);
    TestKeeps(b1, v, isAnd);
    TestKeeps(c1, v, isAnd);
    OperandSame(b2, c2, e.right, m);
    SameLogical(LowerExpr(b2, e.right).0, LowerExpr(c2, f.right).0, LowerExpr(b2, e.right).1, isAnd, b2.cur);
  }

  lemma TestKeeps(b: Builder, v: Val, isAnd: bool)
    ensures LogicalTest(b, v, isAnd).vars == b.vars
  {
    hide Ext, Flows;
  }

  lemma SameHead(b: Builder, c: Builder)
    requires Same(b, c)
    ensures Same(IfExprHead(b), IfExprHead(c)) && IfExprHead(b).vars == b.vars
  {
    hide Ext, Flows, Emit;
    SameEmit(b, c, Alloca(b.slots));
  }

  lemma {:induction false} IfExprSame(b: Builder, c: Builder, e: Expr, m: Numbers)
    requires e.IfExpr? && Same(b, c) && Twin(m, Reads(e), b.vars, c.vars)
    ensures var f := RenameExpr(e, m);
            Same(LowerIfExpr(b, e).0, LowerIfExpr(c, f).0) && LowerIfExpr(b, e).1 == LowerIfExpr(c, f).1
    decreases e, 0
  {
    hide Same, Twin, IfExprHead, BranchTo, LowerInto, EmitLoad, LowerExpr, Ext, Flows, Later;
    var f, thn := RenameExpr(e, m), |b.blocks|;
    SamePlace(b, c);
    TwoReads(m, e, e.cond, e.thn, b.vars, c.vars);
    TwoReads(m, e, e.els, e.thn, b.vars, c.vars);
    SameHead(b, c);
    SameHead(c, c) by { SelfSame(c); }
    OperandSame(IfExprHead(b), IfExprHead(c), e.cond, m);
    var (b1, v) := LowerExpr(IfExprHead(b), e.cond);
    var c1 := LowerExpr(IfExprHead(c), f.cond).0;
    SameBranchTo(b1, c1, v, thn);
    var b2, c2 := BranchTo(b1, v, thn), BranchTo(c1, v, thn);
    IntoSame(b2, c2, e.thn, m, b.slots, thn + 2, thn + 1);
    var b3, c3 := LowerInto(b2, e.thn, b.slots, thn + 2, thn + 1), LowerInto(c2, f.thn, b.slots, thn + 2, thn + 1);
    IntoSame(b3, c3, e.els, m, b.slots, thn + 2, thn + 2);
    SameLoad(LowerInto(b3, e.els, b.slots, thn + 2, thn + 2), LowerInto(c3, f.els, b.slots, thn + 2, thn + 2), b.slots);
  }

  lemma SelfSame(b: Builder)
    ensures Same(b, b)
  {
  }

  lemma SamePlace(b: Builder, c: Builder)
    requires Same(b, c)
    ensures c.blocks == b.blocks && c.slots == b.slots && c.cur == b.cur && c.temps == b.temps && c.labels == b.labels && c.bad == b.bad
  {
  }

  lemma {:induction false} IntoSame(b: Builder, c: Builder, e: Expr, m: Numbers, slot: nat, end: nat, next: nat)
    requires Same(b, c) && Twin(m, Reads(e), b.vars, c.vars)
    ensures var b1, c1 := LowerInto(b, e, slot, end, next), LowerInto(c, RenameExpr(e, m), slot, end, next);
            Same(b1, c1) && b1.vars == b.vars && c1.vars == c.vars
    decreases e, 3
  {
    hide Same, Twin, LowerExpr, Emit, SealTo, Ext, Flows, Later;
    OperandSame(b, c, e, m);
    var (b1, v) := LowerExpr(b, e);
    var c1 := LowerExpr(c, RenameExpr(e, m)).0;
    SameEmit(b1, c1, Store(v, slot));
    SameSeal(Emit(b1, Store(v, slot)), Emit(c1, Store(v, slot)), end, next);
  }

  // ----- names after a statement -----

  /** Renamed statements declare names with numbers from `n` on. */
  ghost predicate FreshFrom(names: set<string>, n: nat) {
    forall x :: x in names ==> |x| >= n
  }

  lemma {:induction false} DefinesFresh(s: Stmt, m: Numbers, n: nat, inLoop: bool)
    ensures FreshFrom(Defines(Rename(s, m, n, inLoop), inLoop), n)
    decreases s, 1
  {
    hide RenameExpr, Stops;
    match s
    case Block(body) => DefinesFreshSeq(body, m, n, inLoop);
    case If(_, t, f) =>
      DefinesFresh(t, m, n, inLoop);
      if f.Some? { DefinesFresh(f.value, m, n, inLoop); }
    case While(_, body) => DefinesFresh(body, m, n, true);
    case ForRange(x, _, _, body) => DefinesFresh(body, m[x := n], n + 1, true);
    case Match(_, arms) => DefinesFreshArms(arms, m, n, inLoop);
    case _ =>
  }

  lemma {:induction false} DefinesFreshSeq(ss: seq<Stmt>, m: Numbers, n: nat, inLoop: bool)
    ensures FreshFrom(DefinesSeq(RenameSeq(ss, m, n, inLoop), inLoop), n)
    decreases ss, 0
  {
    hide Stops, Rename, Defines;
    if ss != [] {
      var s0, rest := Rename(ss[0], m, n, inLoop), RenameSeq(ss, m, n, inLoop)[1..];
      DefinesFresh(ss[0], m, n, inLoop);
      if Stops(ss[0], inLoop) {
        assert rest == [];
      } else {
        assert rest == RenameSeq(ss[1..], NumbersAfter(ss[0], m, n), CountAfter(ss[0], n), inLoop);
        DefinesFreshSeq(ss[1..], NumbersAfter(ss[0], m, n), CountAfter(ss[0], n), inLoop);
      }
    }
  }

  lemma {:induction false} DefinesFreshArms(arms: seq<Arm>, m: Numbers, n: nat, inLoop: bool)
    ensures FreshFrom(DefinesArms(RenameArms(arms, m, n, inLoop), inLoop), n)
    decreases arms, 0
  {
    hide Rename, Defines, HasWildcard;
    if arms != [] {
      DefinesFreshArm(arms[0], m, n, inLoop);
      DefinesFreshArms(arms[1..], m, n, inLoop);
      var rest := RenameArms(arms[1..], m, n, inLoop);
      assert ([RenameArm(arms[0], m, n, inLoop)] + rest)[1..] == rest;
    }
  }

  lemma {:induction false} DefinesFreshArm(arm: Arm, m: Numbers, n: nat, inLoop: bool)
    ensures FreshFrom(DefinesArm(RenameArm(arm, m, n, inLoop), inLoop), n)
    decreases arm, 0
  {
    DefinesFresh(arm.body, m, n, inLoop);
  }

  /** The names that a statement does not declare still find their declarations behind it. */
  lemma StmtTwin(b: Builder, c: Builder, s: Stmt, m: Numbers, n: nat, good: set<string>, to: Targets, isVoid: bool)
    requires b.Open() && c.Open() && SameTargets(to) && Numbered(m, n) && Twin(m, good, b.vars, c.vars)
    ensures Twin(m, good - Defines(s, to.brk.Some?), LowerStmt(b, s, to, isVoid).vars,
                 LowerStmt(c, Rename(s, m, n, to.brk.Some?), to, isVoid).vars)
  {
    hide LowerStmt, Defines, Rename;
    var inLoop := to.brk.Some?;
    var t := Rename(s, m, n, inLoop);
    var b1, c1 := LowerStmt(b, s, to, isVoid), LowerStmt(c, t, to, isVoid);
    TableMoves(b, s, to, isVoid);
    TableMoves(c, t, to, isVoid);
    DefinesFresh(s, m, n, inLoop);
    forall x | x in good - Defines(s, inLoop) ensures TwinAt(m, x, b1.vars, c1.vars) {
      assert TwinAt(m, x, b.vars, c.vars);
      MovedName(b, b1, Defines(s, inLoop), x);
      MovedName(c, c1, Defines(t, inLoop), Fresh(m[x]));
      assert |Fresh(m[x])| < n;
    }
  }

  // ----- statements -----

  /** What lowering a statement and its renamed form starts from. */
  ghost predicate Paired(b: Builder, c: Builder, m: Numbers, n: nat, good: set<string>, to: Targets) {
    b.Open() && Same(b, c) && SameTargets(to) && Numbered(m, n) && Twin(m, good, b.vars, c.vars)
  }

  lemma {:induction false} StmtSame(b: Builder, c: Builder, s: Stmt, m: Numbers, n: nat, good: set<string>, to: Targets, isVoid: bool)
    requires Paired(b, c, m, n, good, to) && Found(s, good, to.brk.Some?)
    ensures Same(LowerStmt(b, s, to, isVoid), LowerStmt(c, Rename(s, m, n, to.brk.Some?), to, isVoid))
    decreases s, 1
  {
    hide Same, Twin, LowerExpr, Define, Emit, Terminate, Ext, LowerIf, LowerWhile, LowerFor, LowerMatch, RenameExpr, Reads, Numbered;
    var inLoop := to.brk.Some?;
    match s
    case Let(x, e) =>
      TwinLess(m, good, Reads(e), b.vars, c.vars);
      OperandSame(b, c, e, m);
      SameDefine(LowerExpr(b, e).0, LowerExpr(c, RenameExpr(e, m)).0, User(x), User(Fresh(n)), LowerExpr(b, e).1);
    case Assign(x, e) => AssignSame(b, c, s, m, n, good, to, isVoid);
    case PrintStmt(e) =>
      TwinLess(m, good, Reads(e), b.vars, c.vars);
      OperandSame(b, c, e, m);
      SameEmit(LowerExpr(b, e).0, LowerExpr(c, RenameExpr(e, m)).0, Print(LowerExpr(b, e).1));
    case ExprStmt(e) =>
      TwinLess(m, good, Reads(e), b.vars, c.vars);
      OperandSame(b, c, e, m);
    case Block(body) => SeqSame(b, c, body, m, n, good, to, isVoid);
    case If(_, _, _) => IfSame(b, c, s, m, n, good, to, isVoid);
    case While(_, _) => WhileSame(b, c, s, m, n, good, isVoid, to);
    case ForRange(_, _, _, _) => ForSame(b, c, s, m, n, good, isVoid, to);
    case Match(_, _) => MatchSame(b, c, s, m, n, good, to, isVoid);
    case Break => if inLoop { SameTerminate(b, c, Br(to.brk.value)); }
    case Continue => if inLoop { SameTerminate(b, c, Br(to.cont.value)); }
    case Return => SameTerminate(b, c, if isVoid then RetVoid else Ret(Const(0)));
    case ReturnExpr(e) =>
      TwinLess(m, good, Reads(e), b.vars, c.vars);
      OperandSame(b, c, e, m);
      SameTerminate(LowerExpr(b, e).0, LowerExpr(c, RenameExpr(e, m)).0, Ret(LowerExpr(b, e).1));
  }

  lemma AssignSame(b: Builder, c: Builder, s: Stmt, m: Numbers, n: nat, good: set<string>, to: Targets, isVoid: bool)
    requires s.Assign? && Paired(b, c, m, n, good, to) && Found(s, good, to.brk.Some?)
    ensures Same(LowerStmt(b, s, to, isVoid), LowerStmt(c, Rename(s, m, n, to.brk.Some?), to, isVoid))
  {
    hide Same, LowerExpr, Emit, Ext, RenameExpr, Reads, Numbered;
    TwinLess(m, good, Reads(s.e), b.vars, c.vars);
    OperandSame(b, c, s.e, m);
    assert TwinAt(m, s.name, b.vars, c.vars);
    SameEmit(LowerExpr(b, s.e).0, LowerExpr(c, RenameExpr(s.e, m)).0, Store(LowerExpr(b, s.e).1, SlotOf(b.vars, User(s.name))));
  }

  /** Behind a statement that does not stop. */
  lemma NextPaired(b: Builder, c: Builder, s: Stmt, m: Numbers, n: nat, good: set<string>, to: Targets, isVoid: bool)
    requires Paired(b, c, m, n, good, to) && Found(s, good, to.brk.Some?) && !Stops(s, to.brk.Some?)
    requires Same(LowerStmt(b, s, to, isVoid), LowerStmt(c, Rename(s, m, n, to.brk.Some?), to, isVoid))
    ensures Paired(LowerStmt(b, s, to, isVoid), LowerStmt(c, Rename(s, m, n, to.brk.Some?), to, isVoid), NumbersAfter(s, m, n),
                   CountAfter(s, n), GoodAfter(s, good, to.brk.Some?), to)
  {
    hide Same, Twin, LowerStmt, Rename, Stops, Numbered, Found, Defines;
    StmtEnds(b, s, to, isVoid);
    SameOpen(b, c);
    if s.Let? {
      NumberedMore(m, n, s.name);
      LetTwin(b, c, s, m, n, good, to, isVoid);
    } else {
      StmtTwin(b, c, s, m, n, good, to, isVoid);
    }
  }

  lemma LetTwin(b: Builder, c: Builder, s: Stmt, m: Numbers, n: nat, good: set<string>, to: Targets, isVoid: bool)
    requires s.Let? && Paired(b, c, m, n, good, to) && Found(s, good, to.brk.Some?)
    ensures Twin(m[s.name := n], good + {s.name}, LowerStmt(b, s, to, isVoid).vars,
                 LowerStmt(c, Rename(s, m, n, to.brk.Some?), to, isVoid).vars)
  {
    hide Same, LowerExpr, Define, Ext, RenameExpr, Reads;
    TwinLess(m, good, Reads(s.e), b.vars, c.vars);
    OperandSame(b, c, s.e, m);
    DefineTwin(LowerExpr(b, s.e).0, LowerExpr(c, RenameExpr(s.e, m)).0, s.name, m, n, good, LowerExpr(b, s.e).1);
  }

  lemma DefineTwin(b: Builder, c: Builder, x: string, m: Numbers, n: nat, good: set<string>, v: Val)
    requires Same(b, c) && Numbered(m, n) && Twin(m, good, b.vars, c.vars)
    ensures Twin(m[x := n], good + {x}, Define(b, User(x), v).vars, Define(c, User(Fresh(n)), v).vars)
    ensures Same(Define(b, User(x), v), Define(c, User(Fresh(n)), v))
  {
    hide Define;
    SameDefine(b, c, User(x), User(Fresh(n)), v);
    SameDefine(c, c, User(Fresh(n)), User(Fresh(n)), v);
    forall y | y in good + {x} ensures TwinAt(m[x := n], y, Define(b, User(x), v).vars, Define(c, User(Fresh(n)), v).vars) {
      if y != x {
        assert TwinAt(m, y, b.vars, c.vars);
        assert |Fresh(m[y])| < n == |Fresh(n)|;
      }
    }
  }

  lemma {:induction false} SeqSame(b: Builder, c: Builder, ss: seq<Stmt>, m: Numbers, n: nat, good: set<string>, to: Targets, isVoid: bool)
    requires Paired(b, c, m, n, good, to) && FoundSeq(ss, good, to.brk.Some?)
    ensures Same(LowerSeq(b, ss, to, isVoid), LowerSeq(c, RenameSeq(ss, m, n, to.brk.Some?), to, isVoid))
    decreases ss, 0
  {
    hide Same, Twin, LowerStmt, Rename, Stops, Numbered, Found, GoodAfter;
    var inLoop := to.brk.Some?;
    SameOpen(b, c);
    if ss != [] {
      var s0, rest := Rename(ss[0], m, n, inLoop), RenameSeq(ss, m, n, inLoop)[1..];
      StmtSame(b, c, ss[0], m, n, good, to, isVoid);
      StmtEnds(b, ss[0], to, isVoid);
      var b1, c1 := LowerStmt(b, ss[0], to, isVoid), LowerStmt(c, s0, to, isVoid);
      SameOpen(b1, c1);
      assert LowerSeq(c, RenameSeq(ss, m, n, inLoop), to, isVoid) == LowerSeq(c1, rest, to, isVoid);
      if Stops(ss[0], inLoop) {
        assert rest == [];
        assert LowerSeq(b1, ss[1..], to, isVoid) == b1;
      } else {
        NextPaired(b, c, ss[0], m, n, good, to, isVoid);
        assert rest == RenameSeq(ss[1..], NumbersAfter(ss[0], m, n), CountAfter(ss[0], n), inLoop);
        SeqSame(b1, c1, ss[1..], NumbersAfter(ss[0], m, n), CountAfter(ss[0], n), GoodAfter(ss[0], good, inLoop), to, isVoid);
      }
    }
  }

  lemma {:induction false} IfSame(b: Builder, c: Builder, s: Stmt, m: Numbers, n: nat, good: set<string>, to: Targets, isVoid: bool)
    requires s.If? && Paired(b, c, m, n, good, to) && Found(s, good, to.brk.Some?)
    ensures Same(LowerIf(b, s, to, isVoid), LowerIf(c, Rename(s, m, n, to.brk.Some?), to, isVoid))
    decreases s, 0
  {
    hide Same, Twin, LowerExpr, LowerStmt, BranchTo, SealTo, Append, Ext, RenameExpr, Reads, Numbered, LowerIf, AtStart, Within, Defines;
    var inLoop, thn := to.brk.Some?, |b.blocks|;
    var t := Rename(s, m, n, inLoop);
    SamePlace(b, c);
    CodegenNames.WithinSelf(LowerIf(b, s, to, isVoid));
    IfStages(Self(LowerIf(b, s, to, isVoid)), b, s, to, isVoid);
    IfIs(b, s, to, isVoid);
    IfIs(c, t, to, isVoid);
    SameAppend(b, c, 3, 3);
    var b0, c0 := Append(Labels(b, 3), 3), Append(Labels(c, 3), 3);
    AppendKeeps(b, 3, 3);
    AppendKeeps(c, 3, 3);
    TwinLess(m, good, Reads(s.cond), b.vars, c.vars);
    OperandSame(b0, c0, s.cond, m);
    var (b1, v) := LowerExpr(b0, s.cond);
    var c1 := LowerExpr(c0, t.cond).0;
    SameBranchTo(b1, c1, v, thn);
    var b2, c2 := BranchTo(b1, v, thn), BranchTo(c1, v, thn);
    StartOpen(b2);
    SameOpen(b2, c2);
    StmtSame(b2, c2, s.thn, m, n, good, to, isVoid);
    StmtTwin(b2, c2, s.thn, m, n, good, to, isVoid);
    var b3, c3 := LowerStmt(b2, s.thn, to, isVoid), LowerStmt(c2, t.thn, to, isVoid);
    SameSeal(b3, c3, thn + 2, thn + 1);
    var b4, c4 := SealTo(b3, thn + 2, thn + 1), SealTo(c3, thn + 2, thn + 1);
    StartOpen(b4);
    if s.els.Some? {
      StmtSame(b4, c4, s.els.value, m, n, good - Defines(s.thn, inLoop), to, isVoid);
      SameSeal(LowerStmt(b4, s.els.value, to, isVoid), LowerStmt(c4, t.els.value, to, isVoid), thn + 2, thn + 2);
    } else {
      SameSeal(b4, c4, thn + 2, thn + 2);
    }
  }

  lemma {:induction false} WhileSame(b: Builder, c: Builder, s: Stmt, m: Numbers, n: nat, good: set<string>, isVoid: bool, to: Targets)
    requires s.While? && Paired(b, c, m, n, good, to) && Found(s, good, to.brk.Some?)
    ensures Same(LowerWhile(b, s, isVoid), LowerWhile(c, Rename(s, m, n, to.brk.Some?), isVoid))
    decreases s, 0
  {
    hide Same, Twin, LowerExpr, LowerStmt, BranchTo, SealTo, Append, Ext, RenameExpr, Reads, Numbered, LowerWhile, AtStart, Within;
    var cond, t := |b.blocks|, Rename(s, m, n, to.brk.Some?);
    SamePlace(b, c);
    CodegenNames.WithinSelf(LowerWhile(b, s, isVoid));
    WhileStages(Self(LowerWhile(b, s, isVoid)), b, s, isVoid);
    WhileIs(b, s, isVoid);
    WhileIs(c, t, isVoid);
    SameAppend(b, c, 3, 3);
    AppendKeeps(b, 3, 3);
    AppendKeeps(c, 3, 3);
    SameSeal(Append(Labels(b, 3), 3), Append(Labels(c, 3), 3), cond, cond);
    var b1, c1 := SealTo(Append(Labels(b, 3), 3), cond, cond), SealTo(Append(Labels(c, 3), 3), cond, cond);
    TwinLess(m, good, Reads(s.cond), b.vars, c.vars);
    OperandSame(b1, c1, s.cond, m);
    var (b2, v) := LowerExpr(b1, s.cond);
    var c2 := LowerExpr(c1, t.cond).0;
    SameBranchTo(b2, c2, v, cond + 1);
    var b3, c3 := BranchTo(b2, v, cond + 1), BranchTo(c2, v, cond + 1);
    StartOpen(b3);
    var inner := LoopTargets(cond + 2, cond);
    StmtSame(b3, c3, s.loop, m, n, good, inner, isVoid);
    SameSeal(LowerStmt(b3, s.loop, inner, isVoid), LowerStmt(c3, t.loop, inner, isVoid), cond, cond + 2);
  }

  // ----- range loops -----

  lemma HeadSame(b: Builder, c: Builder, s: Stmt, m: Numbers, n: nat, good: set<string>)
    requires s.ForRange? && Same(b, c) && Numbered(m, n) && Twin(m, good, b.vars, c.vars) && Reads(s.from) <= good && Reads(s.to) <= good
    ensures var (b1, end) := LowerForHead(b, s.name, s.from, s.to);
            var (c1, end') := LowerForHead(c, Fresh(n), RenameExpr(s.from, m), RenameExpr(s.to, m));
            Same(b1, c1) && Twin(m[s.name := n], good + {s.name}, b1.vars, c1.vars) && SlotOf(b1.vars, end) == SlotOf(c1.vars, end')
  {
    hide Same, Twin, LowerExpr, SealTo, Append, Define, Ext, RenameExpr, Reads, Numbered, SlotOf;
    var cond := |b.blocks|;
    SamePlace(b, c);
    SameAppend(b, c, 4, 4);
    AppendKeeps(b, 4, 4);
    AppendKeeps(c, 4, 4);
    TwinLess(m, good, Reads(s.from), b.vars, c.vars);
    TwinLess(m, good, Reads(s.to), b.vars, c.vars);
    var b0, c0 := Append(Labels(b, 4), 4), Append(Labels(c, 4), 4);
    OperandSame(b0, c0, s.from, m);
    var (b1, vFrom) := LowerExpr(b0, s.from);
    var c1 := LowerExpr(c0, RenameExpr(s.from, m)).0;
    OperandSame(b1, c1, s.to, m);
    var (b2, vTo) := LowerExpr(b1, s.to);
    var c2 := LowerExpr(c1, RenameExpr(s.to, m)).0;
    DefineTwin(b2, c2, s.name, m, n, good, vFrom);
    var b3, c3 := Define(b2, User(s.name), vFrom), Define(c2, User(Fresh(n)), vFrom);
    SamePlace(b3, c3);
    SameLabels(b3, c3);
    var end, end' := LoopEnd(s.name, b3.labels), LoopEnd(Fresh(n), c3.labels);
    LimitTwin(Labels(b3, 1), Labels(c3, 1), end, end', m[s.name := n], good + {s.name}, vTo);
    var b4, c4 := Define(Labels(b3, 1), end, vTo), Define(Labels(c3, 1), end', vTo);
    SameSeal(b4, c4, cond, cond);
    SealKeeps(b4, cond, cond);
    SealKeeps(c4, cond, cond);
  }

  lemma SameLabels(b: Builder, c: Builder)
    requires Same(b, c)
    ensures Same(Labels(b, 1), Labels(c, 1))
  {
  }

  lemma LimitTwin(b: Builder, c: Builder, end: Name, end': Name, m: Numbers, good: set<string>, v: Val)
    requires Same(b, c) && Twin(m, good, b.vars, c.vars) && end.LoopEnd? && end'.LoopEnd?
    ensures var b1, c1 := Define(b, end, v), Define(c, end', v);
            Same(b1, c1) && Twin(m, good, b1.vars, c1.vars) && SlotOf(b1.vars, end) == SlotOf(c1.vars, end')
  {
    hide Define;
    SameDefine(b, c, end, end', v);
    SameDefine(c, c, end', end', v);
    forall x | x in good ensures TwinAt(m, x, Define(b, end, v).vars, Define(c, end', v).vars) {
      assert TwinAt(m, x, b.vars, c.vars);
    }
  }

  lemma TestSame(b: Builder, c: Builder, x: Name, y: Name, end: Name, end': Name, body: nat, after: nat)
    requires Same(b, c) && SlotOf(b.vars, x) == SlotOf(c.vars, y) && SlotOf(b.vars, end) == SlotOf(c.vars, end')
    ensures Same(LowerForTest(b, x, end, body, after), LowerForTest(c, y, end', body, after))
  {
    hide Same, EmitLoad, EmitCompare, Branch, SlotOf, Ext, Flows, Later;
    var slot, limit := SlotOf(b.vars, x), SlotOf(b.vars, end);
    SameLoad(b, c, slot);
    var (b1, vi) := EmitLoad(b, slot);
    var c1 := EmitLoad(c, slot).0;
    SameLoad(b1, c1, limit);
    var (b2, vl) := EmitLoad(b1, limit);
    var c2 := EmitLoad(c1, limit).0;
    SameOp(b2, c2, Lt, vi, vl);
    var (b3, v) := EmitCompare(b2, Lt, vi, vl);
    SameAnyBranch(b3, EmitCompare(c2, Lt, vi, vl).0, v, body, after);
    SameAt(Branch(b3, v, body, after), Branch(EmitCompare(c2, Lt, vi, vl).0, v, body, after), body);
  }

  lemma SameAt(b: Builder, c: Builder, block: nat)
    requires Same(b, c)
    ensures Same(At(b, block), At(c, block))
  {
  }

  lemma SameAnyBranch(b: Builder, c: Builder, v: Val, yes: nat, no: nat)
    requires Same(b, c)
    ensures Same(Branch(b, v, yes, no), Branch(c, v, yes, no))
  {
    hide Same, Ext, Flows, EmitBin, Terminate, Later;
    SameBin(b, c, Ne, v, Const(0));
    var (b1, t) := EmitBin(b, Ne, v, Const(0));
    SameTerminate(b1, EmitBin(c, Ne, v, Const(0)).0, CondBr(t, yes, no));
  }

  lemma StepSame(b: Builder, c: Builder, x: Name, y: Name, cond: nat, end: nat)
    requires Same(b, c) && SlotOf(b.vars, x) == SlotOf(c.vars, y)
    ensures Same(LowerForStep(b, x, cond, end), LowerForStep(c, y, cond, end))
  {
    hide Same, EmitLoad, EmitBin, Emit, Terminate, SlotOf, Ext, Flows, Later;
    var slot := SlotOf(b.vars, x);
    SameLoad(b, c, slot);
    var (b1, vi) := EmitLoad(b, slot);
    var c1 := EmitLoad(c, slot).0;
    SameBin(b1, c1, Add, vi, Const(1));
    var (b2, vn) := EmitBin(b1, Add, vi, Const(1));
    var c2 := EmitBin(c1, Add, vi, Const(1)).0;
    SameEmit(b2, c2, Store(vn, slot));
    SameTerminate(Emit(b2, Store(vn, slot)), Emit(c2, Store(vn, slot)), Br(cond));
    SameAt(Terminate(Emit(b2, Store(vn, slot)), Br(cond)), Terminate(Emit(c2, Store(vn, slot)), Br(cond)), end);
  }

  lemma TwinSlot(m: Numbers, good: set<string>, x: string, v: map<Name, nat>, w: map<Name, nat>)
    requires Twin(m, good, v, w) && x in good
    ensures x in m && SlotOf(v, User(x)) == SlotOf(w, User(Fresh(m[x])))
  {
    assert TwinAt(m, x, v, w);
  }

  lemma {:induction false} ForSame(b: Builder, c: Builder, s: Stmt, m: Numbers, n: nat, good: set<string>, isVoid: bool, to: Targets)
    requires s.ForRange? && Paired(b, c, m, n, good, to) && Found(s, good, to.brk.Some?)
    ensures Same(LowerFor(b, s, isVoid), LowerFor(c, Rename(s, m, n, to.brk.Some?), isVoid))
    decreases s, 0
  {
    hide Same, Twin, LowerForHead, LowerForTest, LowerForStep, LowerStmt, SealTo, Ext, RenameExpr, Reads, Numbered, LowerFor, AtStart, Within, Defines, SlotOf, Later;
    var cond, t := |b.blocks|, Rename(s, m, n, to.brk.Some?);
    var m1, good1 := m[s.name := n], good + {s.name};
    SamePlace(b, c);
    CodegenNames.WithinSelf(LowerFor(b, s, isVoid));
    ForStages(Self(LowerFor(b, s, isVoid)), b, s, isVoid);
    ForIs(b, s, isVoid);
    ForIs(c, t, isVoid);
    HeadSame(b, c, s, m, n, good);
    NumberedMore(m, n, s.name);
    var (b1, end) := LowerForHead(b, s.name, s.from, s.to);
    var (c1, end') := LowerForHead(c, t.name, t.from, t.to);
    TwinSlot(m1, good1, s.name, b1.vars, c1.vars);
    TestSame(b1, c1, User(s.name), User(t.name), end, end', cond + 1, cond + 3);
    var b2, c2 := LowerForTest(b1, User(s.name), end, cond + 1, cond + 3), LowerForTest(c1, User(t.name), end', cond + 1, cond + 3);
    StartOpen(b2);
    SameOpen(b2, c2);
    var inner := LoopTargets(cond + 3, cond + 2);
    StmtSame(b2, c2, s.loop, m1, n + 1, good1, inner, isVoid);
    StmtTwin(b2, c2, s.loop, m1, n + 1, good1, inner, isVoid);
    var b3, c3 := LowerStmt(b2, s.loop, inner, isVoid), LowerStmt(c2, t.loop, inner, isVoid);
    SameSeal(b3, c3, cond + 2, cond + 2);
    SealKeeps(b3, cond + 2, cond + 2);
    SealKeeps(c3, cond + 2, cond + 2);
    TwinSlot(m1, good1 - Defines(s.loop, true), s.name, b3.vars, c3.vars);
    StepSame(SealTo(b3, cond + 2, cond + 2), SealTo(c3, cond + 2, cond + 2), User(s.name), User(t.name), cond, cond + 3);
  }

  // ----- match -----

  lemma {:induction false} RenamedAt(arms: seq<Arm>, m: Numbers, n: nat, inLoop: bool, i: nat)
    requires i < |arms|
    ensures RenameArms(arms, m, n, inLoop)[i] == RenameArm(arms[i], m, n, inLoop)
    decreases i
  {
    if i > 0 { RenamedAt(arms[1..], m, n, inLoop, i - 1); }
  }

  lemma PatternSame(b: Builder, c: Builder, v: Val, pattern: Expr, m: Numbers)
    requires Same(b, c) && Twin(m, Reads(pattern), b.vars, c.vars)
    ensures var b1, c1 := LowerTest(b, v, pattern), LowerTest(c, v, RenameExpr(pattern, m));
            Same(b1, c1) && b1.vars == b.vars && c1.vars == c.vars
  {
    hide Same, Twin, LowerExpr, EmitCompare, BranchTo, Append, Ext, Flows, RenameExpr, Reads, Later;
    SamePlace(b, c);
    SameAppend(b, c, 2, 2);
    AppendKeeps(b, 2, 2);
    AppendKeeps(c, 2, 2);
    var b0, c0 := Append(Labels(b, 2), 2), Append(Labels(c, 2), 2);
    OperandSame(b0, c0, pattern, m);
    var (b1, p) := LowerExpr(b0, pattern);
    var c1 := LowerExpr(c0, RenameExpr(pattern, m)).0;
    SameOp(b1, c1, Eq, v, p);
    var (b2, t) := EmitCompare(b1, Eq, v, p);
    SameBranchTo(b2, EmitCompare(c1, Eq, v, p).0, t, |b.blocks|);
  }

  lemma {:induction false} ArmsSame(b: Builder, c: Builder, arms: seq<Arm>, i: nat, v: Val, dflt: Option<nat>, end: nat,
                                    m: Numbers, n: nat, good: set<string>, to: Targets, isVoid: bool)
    requires i <= |arms| && (dflt.Some? ==> dflt.value < |arms| && i == |arms|)
    requires Paired(b, c, m, n, good, to) && FoundArms(arms[i..], good, to.brk.Some?)
    requires dflt.Some? ==> FoundArm(arms[dflt.value], good, to.brk.Some?)
    ensures Same(LowerArms(b, arms, i, v, dflt, end, to, isVoid),
                 LowerArms(c, RenameArms(arms, m, n, to.brk.Some?), i, v, dflt, end, to, isVoid))
    decreases arms, |arms| - i
  {
    hide Same, Twin, LowerTest, LowerArmBody, SealTo, Seal, Numbered, RenameArms, DefinesArm, Later;
    var inLoop, arms' := to.brk.Some?, RenameArms(arms, m, n, to.brk.Some?);
    if i == |arms| {
      if dflt.Some? {
        var k := dflt.value;
        RenamedAt(arms, m, n, inLoop, k);
        ArmSame(b, c, arms[k], m, n, good, to, isVoid);
        SameSeal(LowerArmBody(b, arms[k], to, isVoid), LowerArmBody(c, arms'[k], to, isVoid), end, end);
      } else {
        SameSeal(b, c, end, end);
      }
    } else {
      RenamedAt(arms, m, n, inLoop, i);
      assert arms[i..][0] == arms[i] && arms[i..][1..] == arms[i + 1..];
      if arms[i].pattern.None? {
        assert i + 1 == |arms| && arms[i + 1..] == [];
        ArmsSame(b, c, arms, i + 1, v, Some(i), end, m, n, good, to, isVoid);
      } else {
        OneArmSame(b, c, arms, i, v, end, m, n, good, to, isVoid);
        var b1, c1 := LowerTest(b, v, arms[i].pattern.value), LowerTest(c, v, arms'[i].pattern.value);
        var b2, c2 := LowerArmBody(b1, arms[i], to, isVoid), LowerArmBody(c1, arms'[i], to, isVoid);
        SamePlace(b, c);
        ArmsSame(SealTo(b2, end, |b.blocks| + 1), SealTo(c2, end, |b.blocks| + 1), arms, i + 1, v, dflt, end, m, n,
                 good - DefinesArm(arms[i], inLoop), to, isVoid);
      }
    }
  }

  /** One arm with a pattern, and what holds behind it. */
  lemma {:induction false} OneArmSame(b: Builder, c: Builder, arms: seq<Arm>, i: nat, v: Val, end: nat, m: Numbers, n: nat,
                                      good: set<string>, to: Targets, isVoid: bool)
    requires i < |arms| && arms[i].pattern.Some? && Paired(b, c, m, n, good, to) && FoundArm(arms[i], good, to.brk.Some?)
    ensures var arm' := RenameArm(arms[i], m, n, to.brk.Some?);
            var b1, c1 := LowerTest(b, v, arms[i].pattern.value), LowerTest(c, v, arm'.pattern.value);
            var b2, c2 := LowerArmBody(b1, arms[i], to, isVoid), LowerArmBody(c1, arm', to, isVoid);
            Paired(SealTo(b2, end, |b.blocks| + 1), SealTo(c2, end, |b.blocks| + 1), m, n, good - DefinesArm(arms[i], to.brk.Some?), to)
    decreases arms, 0
  {
    hide Same, Twin, LowerTest, SealTo, Numbered, LowerStmt, Rename, RenameExpr, Later, Reads, Defines;
    var arm', pattern := RenameArm(arms[i], m, n, to.brk.Some?), arms[i].pattern.value;
    TwinLess(m, good, Reads(pattern), b.vars, c.vars);
    PatternSame(b, c, v, pattern, m);
    ArmOpens(b, arms, i, v, end, to, isVoid);
    var b1, c1 := LowerTest(b, v, pattern), LowerTest(c, v, arm'.pattern.value);
    SameOpen(b1, c1);
    ArmSame(b1, c1, arms[i], m, n, good, to, isVoid);
    StmtTwin(b1, c1, arms[i].body, m, n, good, to, isVoid);
    var b2, c2 := LowerArmBody(b1, arms[i], to, isVoid), LowerArmBody(c1, arm', to, isVoid);
    SameSeal(b2, c2, end, |b.blocks| + 1);
    SealKeeps(b2, end, |b.blocks| + 1);
    SealKeeps(c2, end, |b.blocks| + 1);
  }

  lemma {:induction false} ArmSame(b: Builder, c: Builder, arm: Arm, m: Numbers, n: nat, good: set<string>, to: Targets, isVoid: bool)
    requires Paired(b, c, m, n, good, to) && FoundArm(arm, good, to.brk.Some?)
    ensures Same(LowerArmBody(b, arm, to, isVoid), LowerArmBody(c, RenameArm(arm, m, n, to.brk.Some?), to, isVoid))
    decreases arm, 0
  {
    hide Same, Rename, LowerStmt, Paired;
    StmtSame(b, c, arm.body, m, n, good, to, isVoid);
  }

  lemma {:induction false} MatchSame(b: Builder, c: Builder, s: Stmt, m: Numbers, n: nat, good: set<string>, to: Targets, isVoid: bool)
    requires s.Match? && Paired(b, c, m, n, good, to) && Found(s, good, to.brk.Some?)
    ensures Same(LowerMatch(b, s, to, isVoid), LowerMatch(c, Rename(s, m, n, to.brk.Some?), to, isVoid))
    decreases s, 0
  {
    hide Same, Twin, LowerExpr, LowerArms, SealTo, Append, Ext, RenameExpr, Reads, Numbered, AtStart, Within, RenameArms, FoundArms, Later;
    var t := Rename(s, m, n, to.brk.Some?);
    TwinLess(m, good, Reads(s.subject), b.vars, c.vars);
    OperandSame(b, c, s.subject, m);
    var (b1, v) := LowerExpr(b, s.subject);
    var c1 := LowerExpr(c, t.subject).0;
    SamePlace(b1, c1);
    var end := |b1.blocks|;
    SameAppend(b1, c1, 2, 2);
    AppendKeeps(b1, 2, 2);
    AppendKeeps(c1, 2, 2);
    SameSeal(Append(Labels(b1, 2), 2), Append(Labels(c1, 2), 2), end + 1, end + 1);
    var b3, c3 := SealTo(Append(Labels(b1, 2), 2), end + 1, end + 1), SealTo(Append(Labels(c1, 2), 2), end + 1, end + 1);
    CodegenNames.WithinSelf(LowerMatch(b, s, to, isVoid));
    MatchStages(Self(LowerMatch(b, s, to, isVoid)), b, s, to, isVoid);
    StartOpen(b3);
    assert s.arms[0..] == s.arms;
    ArmsSame(b3, c3, s.arms, 0, v, None, end, m, n, good, to, isVoid);
    SameAt(LowerArms(b3, s.arms, 0, v, None, end, to, isVoid), LowerArms(c3, t.arms, 0, v, None, end, to, isVoid), end);
  }

  // ----- the good names are exact -----

  /** Of the names in scope, with the slots of their declarations, the good ones are exactly
      those whose table entry is that slot. */
  ghost predicate FoundByTable(scope: map<string, nat>, good: set<string>, vars: map<Name, nat>) {
    forall x :: x in scope ==> (x in good <==> InTable(x, scope[x], vars))
  }

  predicate InTable(x: string, slot: nat, vars: map<Name, nat>) {
    User(x) in vars && vars[User(x)] == slot
  }

  /** Behind any statement, the names that are good are again exactly those that the table
      takes to their declaration. */
  lemma GoodIsExact(b: Builder, s: Stmt, scope: map<string, nat>, good: set<string>, to: Targets, isVoid: bool)
    requires b.Open() && SameTargets(to) && FoundByTable(scope, good, b.vars) && forall x :: x in scope ==> scope[x] < b.slots
    ensures var b1 := LowerStmt(b, s, to, isVoid);
            if s.Let? then
              User(s.name) in b1.vars && b.slots <= b1.vars[User(s.name)] < b1.slots
              && FoundByTable(scope[s.name := b1.vars[User(s.name)]], GoodAfter(s, good, to.brk.Some?), b1.vars)
            else FoundByTable(scope, GoodAfter(s, good, to.brk.Some?), b1.vars)
  {
    hide LowerStmt, Defines;
    var b1 := LowerStmt(b, s, to, isVoid);
    TableMoves(b, s, to, isVoid);
    if s.Let? {
      LetIsLast(b, s, to, isVoid);
      LetDefines(s, to.brk.Some?);
    }
    var scope1 := if s.Let? then scope[s.name := b1.vars[User(s.name)]] else scope;
    forall x | x in scope1 ensures x in GoodAfter(s, good, to.brk.Some?) <==> InTable(x, scope1[x], b1.vars) {
      MovedName(b, b1, Defines(s, to.brk.Some?), x);
    }
  }

  lemma LetDefines(s: Stmt, inLoop: bool)
    requires s.Let?
    ensures Defines(s, inLoop) == {s.name}
  {
  }

  lemma LetIsLast(b: Builder, s: Stmt, to: Targets, isVoid: bool)
    requires s.Let?
    ensures var b1 := LowerStmt(b, s, to, isVoid);
            User(s.name) in b1.vars && b.slots <= b1.vars[User(s.name)] < b1.slots
  {
    hide LowerExpr, Define, Ext;
    ExprTable(b, s.e);
    var (b1, v) := LowerExpr(b, s.e);
    SameDefine(b1, b1, User(s.name), User(s.name), v) by { SelfSame(b1); }
  }
}
