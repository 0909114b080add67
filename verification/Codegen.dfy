/**
  Control-flow lowering: the builder with its mutable current block, and the
  recursive emission of expressions and statements into it.

  Functions over `Builder` values say what each emission leaves in the builder;
  the methods of class `LlvmBuilder` emit in place and are proved against them.
 */
module Codegen {
  import opened Options
  import opened Ir
  import opened Source

  /** Entries of the flat variable table. The hidden limit of a range loop gets a
      name made unique by a label number. */
  datatype Name = User(name: string) | LoopEnd(name: string, unique: nat)

  /** The builder. `bad` records that something was appended where no open block
      was current; LLVM would be left with a malformed function. */
  datatype Builder = Builder(
    blocks: seq<Block>,
    cur: nat,
    temps: nat,
    labels: nat,
    slots: nat,
    vars: map<Name, nat>,
    bad: bool)
  {
    predicate Terminated() {
      cur < |blocks| && blocks[cur].term.Some?
    }

    /** The current block exists and has no terminator yet. */
    predicate Open() {
      !bad && cur < |blocks| && blocks[cur].term.None?
    }
  }

  const EMPTY := Block.Block([], None)

  // ----- what every emission keeps -----

  ghost predicate BlockGrows(x: Block, y: Block) {
    && x.code <= y.code
    && (x.term.Some? ==> x == y)
  }

  /** `b1` grew out of `b0`: terminated blocks are final, open ones only get longer. */
  ghost predicate Grows(b0: seq<Block>, b1: seq<Block>) {
    && |b0| <= |b1|
    && forall i :: 0 <= i < |b0| ==> BlockGrows(b0[i], b1[i])
  }

  /** `b1` was reached from `b0` by emitting only into the current block of `b0` and
      into blocks appended since. Of those, all have ended but the current block of
      `b1` and the blocks `pending`, which were appended but are still empty. */
  ghost predicate Ext(b0: Builder, b1: Builder, pending: set<nat>) {
    && !b1.bad
    && b0.temps <= b1.temps && b0.slots <= b1.slots
    && b0.cur < |b0.blocks| <= |b1.blocks| && b1.cur < |b1.blocks|
    && (b1.cur == b0.cur || |b0.blocks| <= b1.cur)
    && BlockGrows(b0.blocks[b0.cur], b1.blocks[b0.cur])
    && (forall i :: 0 <= i < |b0.blocks| && i != b0.cur ==> b1.blocks[i] == b0.blocks[i])
    && (forall i :: i in pending ==> |b0.blocks| <= i < |b1.blocks| && i != b1.cur && b1.blocks[i] == EMPTY)
    && (forall i :: 0 <= i < |b1.blocks| && (i == b0.cur || |b0.blocks| <= i) && i != b1.cur && i !in pending
          ==> b1.blocks[i].term.Some?)
  }

  /** Emission that is self-contained and leaves the current block open. */
  ghost predicate Flows(b0: Builder, b1: Builder) {
    Ext(b0, b1, {}) && b1.Open()
  }

  /** Everything in `b0` is still in `b1`. */
  ghost predicate Later(b0: Builder, b1: Builder) {
    Grows(b0.blocks, b1.blocks) && b0.temps <= b1.temps && b0.slots <= b1.slots
  }

  /** The current block is open and still empty. */
  ghost predicate AtStart(b: Builder) {
    b.Open() && b.blocks[b.cur] == EMPTY
  }

  // ----- single builder calls -----

  /** The slot of a name; 0, the null pointer, when the table has no entry. */
  function SlotOf(vars: map<Name, nat>, name: Name): nat {
    if name in vars then vars[name] else 0
  }

  function Emit(b: Builder, i: Instr): (r: Builder)
    ensures b.Open() ==> Flows(b, r)
    ensures r.vars == b.vars && r.cur == b.cur && r.slots == b.slots
  {
    if b.Open() then
      b.(blocks := b.blocks[b.cur := b.blocks[b.cur].(code := b.blocks[b.cur].code + [i])])
    else
      b.(bad := true)
  }

  function Terminate(b: Builder, t: Term): (r: Builder)
    ensures b.Open() ==> Ext(b, r, {}) && r.Terminated()
    ensures r.vars == b.vars && r.cur == b.cur && r.slots == b.slots
  {
    if b.Open() then
      b.(blocks := b.blocks[b.cur := b.blocks[b.cur].(term := Some(t))])
    else
      b.(bad := true)
  }

  /** Appends `n` empty blocks; the first gets the number `|b.blocks|`. */
  function Append(b: Builder, n: nat): (r: Builder)
    ensures |r.blocks| == |b.blocks| + n
    ensures forall i :: 0 <= i < |b.blocks| ==> r.blocks[i] == b.blocks[i]
    ensures forall i :: |b.blocks| <= i < |r.blocks| ==> r.blocks[i] == EMPTY
    ensures r == b.(blocks := r.blocks)
  {
    b.(blocks := b.blocks + seq(n, _ => EMPTY))
  }

  function At(b: Builder, block: nat): Builder {
    b.(cur := block)
  }

  /** Jump to `target` unless the current block already ended. */
  function Seal(b: Builder, target: nat): (r: Builder)
    ensures !b.bad && b.cur < |b.blocks| ==> Ext(b, r, {}) && r.Terminated()
    ensures r.vars == b.vars && r.cur == b.cur && r.slots == b.slots
  {
    if b.Terminated() then b else Terminate(b, Br(target))
  }

  function Labels(b: Builder, n: nat): Builder {
    b.(labels := b.labels + n)
  }

  /** Emits an instruction that defines the next temporary. */
  function EmitTemp(b: Builder, i: Instr): (res: (Builder, Val))
    ensures b.Open() ==> Flows(b, res.0)
    ensures res.0.vars == b.vars && res.0.cur == b.cur && res.0.slots == b.slots
  {
    (Emit(b, i).(temps := b.temps + 1), Temp(b.temps))
  }

  function EmitBin(b: Builder, op: Op, l: Val, r: Val): (res: (Builder, Val))
    ensures b.Open() ==> Flows(b, res.0)
    ensures res.0.vars == b.vars && res.0.cur == b.cur && res.0.slots == b.slots
  {
    EmitTemp(b, Bin(b.temps, op, l, r))
  }

  function EmitCompare(b: Builder, op: Op, l: Val, r: Val): (res: (Builder, Val))
    ensures b.Open() ==> Flows(b, res.0)
    ensures res.0.vars == b.vars && res.0.cur == b.cur && res.0.slots == b.slots
  {
    var (b1, c) := EmitBin(b, op, l, r);
    EmitTemp(b1, Zext(b1.temps, c))
  }

  function EmitOp(b: Builder, op: Op, l: Val, r: Val): (res: (Builder, Val))
    ensures b.Open() ==> Flows(b, res.0)
    ensures res.0.vars == b.vars && res.0.cur == b.cur && res.0.slots == b.slots
  {
    if op in {Eq, Ne, Lt, Le, Gt, Ge} then EmitCompare(b, op, l, r) else EmitBin(b, op, l, r)
  }

  function EmitLoad(b: Builder, slot: nat): (res: (Builder, Val))
    ensures b.Open() ==> Flows(b, res.0)
    ensures res.0.vars == b.vars && res.0.cur == b.cur && res.0.slots == b.slots
  {
    EmitTemp(b, Load(b.temps, slot))
  }

  /** Reserves a slot in the current block without naming it. */
  function EmitAlloca(b: Builder): (r: Builder)
    ensures b.Open() ==> Flows(b, r)
    ensures r.vars == b.vars && r.cur == b.cur && r.slots == b.slots + 1
  {
    Emit(b, Alloca(b.slots)).(slots := b.slots + 1)
  }

  /** Reserves a slot, makes `name` mean it from here on, and stores `v` there. */
  function Define(b: Builder, name: Name, v: Val): (r: Builder)
    ensures b.Open() ==> Flows(b, r)
    ensures r.cur == b.cur
  {
    var b1 := EmitAlloca(b);
    Emit(b1.(vars := b1.vars[name := b.slots]), Store(v, b.slots))
  }

  /** Branches on `v` being nonzero. */
  function Branch(b: Builder, v: Val, whenTrue: nat, whenFalse: nat): (r: Builder)
    ensures b.Open() ==> Ext(b, r, {}) && r.Terminated()
    ensures r.vars == b.vars && r.cur == b.cur && r.slots == b.slots
  {
    var (b1, c) := EmitBin(b, Ne, v, Const(0));
    Terminate(b1, CondBr(c, whenTrue, whenFalse))
  }

  /** Branches to `block` or the block after it, and goes on in `block`. */
  function BranchTo(b: Builder, v: Val, block: nat): (r: Builder)
    ensures b.Open() ==> Later(b, r)
    ensures r.vars == b.vars && r.cur == block && r.slots == b.slots
  {
    At(Branch(b, v, block, block + 1), block)
  }

  /** Ends the current block with a jump to `target` unless it already ended, and
      goes on in block `next`. */
  function SealTo(b: Builder, target: nat, next: nat): (r: Builder)
    ensures !b.bad && b.cur < |b.blocks| ==> Later(b, r)
    ensures r.vars == b.vars && r.cur == next && r.slots == b.slots
  {
    At(Seal(b, target), next)
  }

  // ----- expressions -----

  function LowerExpr(b: Builder, e: Expr): (Builder, Val)
    decreases e, 1
  {
    match e
    case Lit(n) => (b, Const(n))
    case Var(x) => EmitLoad(b, SlotOf(b.vars, User(x)))
    case Binary(op, l, r) =>
      var (b1, vl) := LowerExpr(b, l);
      var (b2, vr) := LowerExpr(b1, r);
      EmitOp(b2, op, vl, vr)
    case Neg(e0) =>
      var (b1, v) := LowerExpr(b, e0);
      EmitBin(b1, Sub, Const(0), v)
    case Not(e0) =>
      var (b1, v) := LowerExpr(b, e0);
      EmitCompare(b1, Eq, v, Const(0))
    case And(_, _) => LowerLogical(b, e)
    case Or(_, _) => LowerLogical(b, e)
    case IfExpr(_, _, _) => LowerIfExpr(b, e)
    case Invoke(name, args) =>
      var (b1, vs) := LowerArgs(b, args);
      EmitTemp(b1, CallFn(b1.temps, name, vs))
  }

  /** The arguments of a call, from the first to the last. */
  function LowerArgs(b: Builder, es: seq<Expr>): (r: (Builder, seq<Val>))
    ensures |r.1| == |es|
    decreases es, 0
  {
    if es == [] then (b, [])
    else
      var (b1, v) := LowerExpr(b, es[0]);
      var (b2, vs) := LowerArgs(b1, es[1..]);
      (b2, [v] + vs)
  }

  function LowerIfExpr(b: Builder, e: Expr): (Builder, Val)
    requires e.IfExpr?
    decreases e, 0
  {
    var thn := |b.blocks|;
    var (b1, vc) := LowerExpr(IfExprHead(b), e.cond);
    var b2 := BranchTo(b1, vc, thn);
    var b3 := LowerInto(b2, e.thn, b.slots, thn + 2, thn + 1);
    var b4 := LowerInto(b3, e.els, b.slots, thn + 2, thn + 2);
    EmitLoad(b4, b.slots)
  }

  /** The slot of the result, and the blocks then, else and end. */
  function IfExprHead(b: Builder): Builder {
    Append(Labels(EmitAlloca(b), 3).(temps := b.temps + 1), 3)
  }

  /** Short-circuit `and` and `or`. Three blocks are appended from number `n` on:
      rhs, false and merge for `and`; true, rhs and merge for `or`. */
  function LowerLogical(b: Builder, e: Expr): (Builder, Val)
    requires e.And? || e.Or?
    decreases e, 0
  {
    var (b1, vl) := LowerExpr(b, e.left);
    var b2 := LogicalTest(b1, vl, e.And?);
    var (b3, vr) := LowerExpr(b2, e.right);
    var b4 := LogicalDecide(b3, vr, e.And?, b2.cur);
    LogicalMerge(b4, e.And?, b2.cur)
  }

  /** The left operand decides, or the right one is evaluated next, in the new
      current block. */
  function LogicalTest(b: Builder, v: Val, isAnd: bool): Builder {
    var (b1, c) := EmitBin(b, Ne, v, Const(0));
    var n := |b1.blocks|;
    At(Terminate(Append(b1, 3), CondBr(c, n, n + 1)), if isAnd then n else n + 1)
  }

  function ShortBlock(isAnd: bool, rhs: nat): nat {
    if isAnd then rhs + 1 else if rhs > 0 then rhs - 1 else 0
  }

  function MergeBlock(isAnd: bool, rhs: nat): nat {
    if isAnd then rhs + 2 else rhs + 1
  }

  function LogicalDecide(b: Builder, v: Val, isAnd: bool, rhs: nat): (r: Builder)
    ensures b.Open() ==> Ext(b, r, {}) && r.Terminated()
    ensures r.cur == b.cur
  {
    var (b1, c) := EmitBin(b, Ne, v, Const(0));
    var short, merge := ShortBlock(isAnd, rhs), MergeBlock(isAnd, rhs);
    Terminate(b1, if isAnd then CondBr(c, merge, short) else CondBr(c, short, merge))
  }

  /** The short-cut block joins the merge block, where the value is 1 or 0 by
      which block control came from. */
  function LogicalMerge(b: Builder, isAnd: bool, rhs: nat): (Builder, Val) {
    var short, merge := ShortBlock(isAnd, rhs), MergeBlock(isAnd, rhs);
    var b1 := Terminate(At(b, short), Br(merge));
    EmitTemp(At(b1, merge), if isAnd then Phi(b1.temps, Const(1), b.cur, Const(0), short)
                            else Phi(b1.temps, Const(1), short, Const(0), b.cur))
  }

  /** One branch of a conditional expression: its value goes to `slot`, and
      emission goes on in block `next`. */
  function LowerInto(b: Builder, e: Expr, slot: nat, end: nat, next: nat): Builder
    decreases e, 2
  {
    var (b1, v) := LowerExpr(b, e);
    SealTo(Emit(b1, Store(v, slot)), end, next)
  }

  // ----- statements -----

  /** Where `break` and `continue` go; nothing outside a loop. */
  datatype Targets = Targets(brk: Option<nat>, cont: Option<nat>)

  function LowerStmt(b: Builder, s: Stmt, to: Targets, isVoid: bool): Builder
    decreases s, 1
  {
    match s
    case Let(x, e) =>
      var (b1, v) := LowerExpr(b, e);
      Define(b1, User(x), v)
    case Assign(x, e) =>
      var (b1, v) := LowerExpr(b, e);
      Emit(b1, Store(v, SlotOf(b1.vars, User(x))))
    case PrintStmt(e) =>
      var (b1, v) := LowerExpr(b, e);
      Emit(b1, Print(v))
    case ExprStmt(e) => LowerExpr(b, e).0
    case Block(body) => LowerSeq(b, body, to, isVoid)
    case If(_, _, _) => LowerIf(b, s, to, isVoid)
    case While(_, _) => LowerWhile(b, s, isVoid)
    case ForRange(_, _, _, _) => LowerFor(b, s, isVoid)
    case Match(_, _) => LowerMatch(b, s, to, isVoid)
    case Break => if to.brk.Some? then Terminate(b, Br(to.brk.value)) else b
    case Continue => if to.cont.Some? then Terminate(b, Br(to.cont.value)) else b
    case Return => Terminate(b, if isVoid then RetVoid else Ret(Const(0)))
    case ReturnExpr(e) =>
      var (b1, v) := LowerExpr(b, e);
      Terminate(b1, Ret(v))
  }

  function LowerSeq(b: Builder, ss: seq<Stmt>, to: Targets, isVoid: bool): Builder
    decreases ss, 0
  {
    if ss == [] || b.Terminated() then b
    else LowerSeq(LowerStmt(b, ss[0], to, isVoid), ss[1..], to, isVoid)
  }

  function LowerIf(b: Builder, s: Stmt, to: Targets, isVoid: bool): Builder
    requires s.If?
    decreases s, 0
  {
    var thn := |b.blocks|;
    var (b1, v) := LowerExpr(Append(Labels(b, 3), 3), s.cond);
    var b2 := BranchTo(b1, v, thn);
    var b3 := SealTo(LowerStmt(b2, s.thn, to, isVoid), thn + 2, thn + 1);
    SealTo(if s.els.Some? then LowerStmt(b3, s.els.value, to, isVoid) else b3, thn + 2, thn + 2)
  }

  function LowerWhile(b: Builder, s: Stmt, isVoid: bool): Builder
    requires s.While?
    decreases s, 0
  {
    var cond := |b.blocks|;
    var b1 := SealTo(Append(Labels(b, 3), 3), cond, cond);
    var (b2, v) := LowerExpr(b1, s.cond);
    var b3 := BranchTo(b2, v, cond + 1);
    SealTo(LowerStmt(b3, s.loop, Targets(Some(cond + 2), Some(cond)), isVoid), cond, cond + 2)
  }

  /** Blocks cond, body, step and end; `continue` goes to the step. */
  function LowerFor(b: Builder, s: Stmt, isVoid: bool): Builder
    requires s.ForRange?
    decreases s, 0
  {
    var cond := |b.blocks|;
    var (b1, limit) := LowerForHead(b, s.name, s.from, s.to);
    var b2 := LowerForTest(b1, User(s.name), limit, cond + 1, cond + 3);
    var b3 := SealTo(LowerStmt(b2, s.loop, Targets(Some(cond + 3), Some(cond + 2)), isVoid), cond + 2, cond + 2);
    LowerForStep(b3, User(s.name), cond, cond + 3)
  }

  function LowerMatch(b: Builder, s: Stmt, to: Targets, isVoid: bool): Builder
    requires s.Match?
    decreases s, 0
  {
    var (b1, v) := LowerExpr(b, s.subject);
    var end := |b1.blocks|;
    var b2 := SealTo(Append(Labels(b1, 2), 2), end + 1, end + 1);
    At(LowerArms(b2, s.arms, 0, v, None, end, to, isVoid), end)
  }

  /** Both bounds are evaluated, and named, before the first test. */
  function LowerForHead(b: Builder, x: string, from: Expr, limit: Expr): (res: (Builder, Name))
    ensures res.0.cur == |b.blocks|
  {
    var cond := |b.blocks|;
    var (b1, vFrom) := LowerExpr(Append(Labels(b, 4), 4), from);
    var (b2, vLimit) := LowerExpr(b1, limit);
    var b3 := Define(b2, User(x), vFrom);
    var end := LoopEnd(x, b3.labels);
    (SealTo(Define(Labels(b3, 1), end, vLimit), cond, cond), end)
  }

  function LowerForTest(b: Builder, x: Name, limit: Name, body: nat, end: nat): (r: Builder)
    ensures r.vars == b.vars && r.slots == b.slots && r.cur == body
    ensures b.Open() ==> Later(b, r)
  {
    var (b1, vi) := EmitLoad(b, SlotOf(b.vars, x));
    var (b2, vl) := EmitLoad(b1, SlotOf(b.vars, limit));
    var (b3, c) := EmitCompare(b2, Lt, vi, vl);
    At(Branch(b3, c, body, end), body)
  }

  function LowerForStep(b: Builder, x: Name, cond: nat, end: nat): (r: Builder)
    ensures r.vars == b.vars && r.slots == b.slots && r.cur == end
    ensures b.Open() ==> Later(b, r)
  {
    var (b1, vi) := EmitLoad(b, SlotOf(b.vars, x));
    var (b2, vn) := EmitBin(b1, Add, vi, Const(1));
    At(Terminate(Emit(b2, Store(vn, SlotOf(b.vars, x))), Br(cond)), end)
  }

  function LowerArmBody(b: Builder, arm: Arm, to: Targets, isVoid: bool): Builder
    decreases arm, 0
  {
    LowerStmt(b, arm.body, to, isVoid)
  }

  /** The arms from `i` on, the next test being in the current block; `dflt` is the
      wildcard arm met so far. */
  function LowerArms(b: Builder, arms: seq<Arm>, i: nat, v: Val, dflt: Option<nat>,
                     end: nat, to: Targets, isVoid: bool): Builder
    requires i <= |arms| && (dflt.Some? ==> dflt.value < |arms|)
    decreases arms, |arms| - i
  {
    if i == |arms| then
      Seal(if dflt.Some? then LowerArmBody(b, arms[dflt.value], to, isVoid) else b, end)
    else if arms[i].pattern.None? then
      LowerArms(b, arms, i + 1, v, Some(i), end, to, isVoid)
    else
      var body := |b.blocks|;
      var b1 := LowerTest(b, v, arms[i].pattern.value);
      var b2 := SealTo(LowerArmBody(b1, arms[i], to, isVoid), end, body + 1);
      LowerArms(b2, arms, i + 1, v, dflt, end, to, isVoid)
  }

  /** Compares the subject with one pattern and goes on in the body of its arm. */
  function LowerTest(b: Builder, v: Val, pattern: Expr): Builder {
    var body := |b.blocks|;
    var (b1, p) := LowerExpr(Append(Labels(b, 2), 2), pattern);
    var (b2, c) := EmitCompare(b1, Eq, v, p);
    BranchTo(b2, c, body)
  }
}
