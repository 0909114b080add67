/**
  Steps of the machine through freshly emitted code: one lemma per builder call,
  then expressions.
 */
module CodegenSim {
  import opened Options
  import opened Ir
  import opened Source
  import opened Codegen
  import opened CodegenShape

  /** The machine stands where the builder would emit next. */
  ghost predicate Here(b: Builder, c: Cfg) {
    c.Running? && c.block == b.cur && b.cur < |b.blocks| && c.pc == |b.blocks[b.cur].code|
  }

  /** The whole program contains what has been emitted so far. */
  ghost predicate Within(b: Builder, p: Prog) {
    Grows(b.blocks, p.blocks)
  }

  /** Temporaries and slots that were taken before `b` keep their contents. */
  ghost predicate Frame(b: Builder, c0: Cfg, c1: Cfg)
    requires c0.Running? && c1.Running?
  {
    && (forall t :: t < b.temps && t in c0.temps ==> t in c1.temps && c1.temps[t] == c0.temps[t])
    && (forall k :: k < b.slots && k in c0.mem ==> k in c1.mem && c1.mem[k] == c0.mem[k])
  }

  /** Every variable in scope has its value in its slot. */
  ghost predicate Rel(env: Env, vars: map<Name, nat>, mem: map<nat, int>) {
    forall x :: x in env ==> User(x) in vars && vars[User(x)] in mem && mem[vars[User(x)]] == env[x]
  }

  /** Distinct names have distinct slots, and every slot is already reserved. */
  ghost predicate TableOk(vars: map<Name, nat>, slots: nat) {
    && 0 < slots
    && (forall x :: x in vars ==> 0 < vars[x] < slots)
    && (forall x, y :: x in vars && y in vars && vars[x] == vars[y] ==> x == y)
  }

  /** `v` was computed before `b`, and is `n` now. */
  ghost predicate Holds(p: Prog, b: Builder, c: Cfg, v: Val, n: int) {
    && c.Running?
    && (v.Temp? ==> v.t < b.temps)
    && ValueOf(p, c, v) == Some(n)
  }

  lemma WithinBack(b0: Builder, b1: Builder, pending: set<nat>, p: Prog)
    requires Ext(b0, b1, pending) && Within(b1, p)
    ensures Within(b0, p)
  {
    forall i | 0 <= i < |b0.blocks|
      ensures BlockGrows(b0.blocks[i], p.blocks[i])
    {
      assert BlockGrows(b0.blocks[i], b1.blocks[i]);
      assert BlockGrows(b1.blocks[i], p.blocks[i]);
    }
  }

  lemma FrameThen(b0: Builder, b1: Builder, c0: Cfg, c1: Cfg, c2: Cfg)
    requires c0.Running? && c1.Running? && c2.Running?
    requires b0.temps <= b1.temps && b0.slots <= b1.slots
    requires Frame(b0, c0, c1) && Frame(b1, c1, c2)
    ensures Frame(b0, c0, c2)
  {
  }

  lemma RelKept(env: Env, b: Builder, c0: Cfg, c1: Cfg)
    requires c0.Running? && c1.Running? && Frame(b, c0, c1) && TableOk(b.vars, b.slots)
    requires Rel(env, b.vars, c0.mem)
    ensures Rel(env, b.vars, c1.mem)
  {
  }

  lemma HoldsKept(p: Prog, b0: Builder, b1: Builder, c0: Cfg, c1: Cfg, v: Val, n: int)
    requires Holds(p, b0, c0, v, n) && c1.Running? && Frame(b0, c0, c1) && b0.temps <= b1.temps
    ensures Holds(p, b1, c1, v, n)
  {
  }

  lemma RunThen(p: Prog, m: nat, n: nat, c0: Cfg, c1: Cfg, c2: Cfg)
    requires Run(p, m, c0) == c1 && Run(p, n, c1) == c2
    ensures Run(p, m + n, c0) == c2
  {
    RunPlus(p, m, n, c0);
  }

  // ----- one builder call at a time -----

  lemma StepEmit(p: Prog, b: Builder, i: Instr, c: Cfg)
    requires b.Open() && Here(b, c) && Within(Emit(b, i), p)
    ensures Run(p, 1, c) == Execute(p, c, i)
    ensures Execute(p, c, i).Running? ==> Here(Emit(b, i), Execute(p, c, i))
  {
    hide Apply;
    var b1 := Emit(b, i);
    assert BlockGrows(b1.blocks[b.cur], p.blocks[b.cur]);
    assert b1.blocks[b.cur].code[c.pc] == i;
    assert Run(p, 1, c) == Run(p, 0, Step(p, c));
  }

  lemma StepTerminate(p: Prog, b: Builder, t: Term, c: Cfg)
    requires b.Open() && Here(b, c) && Within(Terminate(b, t), p)
    ensures Run(p, 1, c) == Leave(p, c, t)
  {
    var b1 := Terminate(b, t);
    assert BlockGrows(b1.blocks[b.cur], p.blocks[b.cur]);
    assert Run(p, 1, c) == Run(p, 0, Step(p, c));
  }

  /** An instruction that sets the next temporary to `n`. */
  lemma SimTemp(p: Prog, b: Builder, i: Instr, n: int, c: Cfg) returns (c1: Cfg)
    requires b.Open() && Here(b, c) && Within(EmitTemp(b, i).0, p)
    requires Execute(p, c, i) == c.(temps := c.temps[b.temps := n], pc := c.pc + 1)
    ensures Run(p, 1, c) == c1 && Here(EmitTemp(b, i).0, c1)
    ensures Holds(p, EmitTemp(b, i).0, c1, EmitTemp(b, i).1, n)
    ensures Frame(b, c, c1) && c1.out == c.out && c1.mem == c.mem && c1.prev == c.prev
  {
    hide Execute;
    StepEmit(p, b, i, c);
    c1 := Execute(p, c, i);
  }

  lemma SimBin(p: Prog, b: Builder, op: Op, l: Val, r: Val, x: int, y: int, c: Cfg) returns (c1: Cfg)
    requires b.Open() && Here(b, c) && Within(EmitBin(b, op, l, r).0, p)
    requires ValueOf(p, c, l) == Some(x) && ValueOf(p, c, r) == Some(y)
    ensures Run(p, 1, c) == c1 && Here(EmitBin(b, op, l, r).0, c1)
    ensures Holds(p, EmitBin(b, op, l, r).0, c1, EmitBin(b, op, l, r).1, Apply(op, x, y))
    ensures Frame(b, c, c1) && c1.out == c.out && c1.mem == c.mem && c1.prev == c.prev
  {
    hide Apply, Here, Within, EmitTemp, Frame, Holds;
    c1 := SimTemp(p, b, Bin(b.temps, op, l, r), Apply(op, x, y), c);
  }

  lemma SimCompare(p: Prog, b: Builder, op: Op, l: Val, r: Val, x: int, y: int, c: Cfg) returns (c2: Cfg)
    requires b.Open() && Here(b, c) && Within(EmitCompare(b, op, l, r).0, p)
    requires ValueOf(p, c, l) == Some(x) && ValueOf(p, c, r) == Some(y)
    ensures Run(p, 2, c) == c2 && Here(EmitCompare(b, op, l, r).0, c2)
    ensures Holds(p, EmitCompare(b, op, l, r).0, c2, EmitCompare(b, op, l, r).1, Apply(op, x, y))
    ensures Frame(b, c, c2) && c2.out == c.out && c2.mem == c.mem && c2.prev == c.prev
  {
    hide Apply, Here, Within, EmitTemp, Frame, EmitBin, Ext;
    var (b1, v) := EmitBin(b, op, l, r);
    WithinBack(b1, EmitTemp(b1, Zext(b1.temps, v)).0, {}, p);
    var c1 := SimBin(p, b, op, l, r, x, y, c);
    c2 := SimTemp(p, b1, Zext(b1.temps, v), Apply(op, x, y), c1);
    FrameThen(b, b1, c, c1, c2) by { ExtMono(b, b1, {}); }
    RunThen(p, 1, 1, c, c1, c2);
  }

  lemma ExtMono(b0: Builder, b1: Builder, pending: set<nat>)
    requires Ext(b0, b1, pending)
    ensures b0.temps <= b1.temps && b0.slots <= b1.slots
  {
  }

  lemma SimOp(p: Prog, b: Builder, op: Op, l: Val, r: Val, x: int, y: int, c: Cfg) returns (n: nat, c1: Cfg)
    requires b.Open() && Here(b, c) && Within(EmitOp(b, op, l, r).0, p)
    requires ValueOf(p, c, l) == Some(x) && ValueOf(p, c, r) == Some(y)
    ensures Run(p, n, c) == c1 && Here(EmitOp(b, op, l, r).0, c1)
    ensures Holds(p, EmitOp(b, op, l, r).0, c1, EmitOp(b, op, l, r).1, Apply(op, x, y))
    ensures Frame(b, c, c1) && c1.out == c.out && c1.mem == c.mem
  {
    hide Apply, Here, Within, EmitBin, EmitCompare, Frame, Holds;
    if op in {Eq, Ne, Lt, Le, Gt, Ge} {
      n := 2; c1 := SimCompare(p, b, op, l, r, x, y, c);
    } else {
      n := 1; c1 := SimBin(p, b, op, l, r, x, y, c);
    }
  }

  lemma SimLoad(p: Prog, b: Builder, slot: nat, n: int, c: Cfg) returns (c1: Cfg)
    requires b.Open() && Here(b, c) && Within(EmitLoad(b, slot).0, p)
    requires slot != 0 && slot in c.mem && c.mem[slot] == n
    ensures Run(p, 1, c) == c1 && Here(EmitLoad(b, slot).0, c1)
    ensures Holds(p, EmitLoad(b, slot).0, c1, EmitLoad(b, slot).1, n)
    ensures Frame(b, c, c1) && c1.out == c.out && c1.mem == c.mem
  {
    hide Here, Within, EmitTemp, Frame, Holds;
    c1 := SimTemp(p, b, Load(b.temps, slot), n, c);
  }

  lemma SimStore(p: Prog, b: Builder, v: Val, n: int, slot: nat, c: Cfg) returns (c1: Cfg)
    requires b.Open() && Here(b, c) && Within(Emit(b, Store(v, slot)), p)
    requires ValueOf(p, c, v) == Some(n) && slot != 0
    ensures c1 == c.(mem := c.mem[slot := n], pc := c.pc + 1)
    ensures Run(p, 1, c) == c1 && Here(Emit(b, Store(v, slot)), c1)
  {
    hide Here, Within, Emit;
    StepEmit(p, b, Store(v, slot), c);
    c1 := Execute(p, c, Store(v, slot));
  }

  /** Branching on `v`: the machine is at the start of the block chosen. */
  lemma SimBranch(p: Prog, b: Builder, v: Val, n: int, t: nat, f: nat, c: Cfg) returns (c2: Cfg)
    requires b.Open() && Here(b, c) && Within(Branch(b, v, t, f), p)
    requires ValueOf(p, c, v) == Some(n)
    ensures Run(p, 2, c) == c2
    ensures c2.Running? && c2.block == (if n != 0 then t else f) && c2.pc == 0 && c2.prev == b.cur
    ensures c2.out == c.out && c2.mem == c.mem && Frame(b, c, c2)
  {
    hide Ext, Within, EmitBin, Terminate;
    var (b1, w) := EmitBin(b, Ne, v, Const(0));
    WithinBack(b1, Branch(b, v, t, f), {}, p);
    var c1 := SimBin(p, b, Ne, v, Const(0), n, 0, c);
    StepTerminate(p, b1, CondBr(w, t, f), c1);
    c2 := Leave(p, c1, CondBr(w, t, f));
    RunThen(p, 1, 1, c, c1, c2);
  }

  // ----- expressions -----

  /** The machine evaluated an expression into `v` and stands after its code. */
  ghost predicate Evaluated(p: Prog, b0: Builder, b1: Builder, v: Val, value: Valued, c0: Cfg, c1: Cfg)
    requires c0.Running?
  {
    Here(b1, c1) && Holds(p, b1, c1, v, value.n) && Frame(b0, c0, c1) && c1.out == value.out
  }

  /** What expression code needs of the state it starts in. */
  ghost predicate Ready(b: Builder, env: Env, c: Cfg) {
    b.Open() && Here(b, c) && TableOk(b.vars, b.slots) && Rel(env, b.vars, c.mem)
  }

  /** The code of an expression computes its value, makes its calls in their order, and
      disturbs nothing else. */
  lemma {:induction false} SimExpr(p: Prog, b: Builder, e: Expr, env: Env, c: Cfg) returns (n: nat, c1: Cfg)
    requires Ready(b, env, c) && Reads(e) <= env.Keys && Within(LowerExpr(b, e).0, p)
    ensures Run(p, n, c) == c1
    ensures Evaluated(p, b, LowerExpr(b, e).0, LowerExpr(b, e).1, Eval(e, env, c.out), c, c1)
    decreases e, 1
  {
    match e
    case Lit(k) =>
      n, c1 := 0, c;
    case Var(x) =>
      n := 1;
      c1 := SimLoad(p, b, b.vars[User(x)], env[x], c);
    case Binary(op, l, r) =>
      n, c1 := SimBinary(p, b, e, env, c);
    case Neg(e0) =>
      n, c1 := SimUnary(p, b, e, e0, env, c);
    case Not(e0) =>
      n, c1 := SimUnary(p, b, e, e0, env, c);
    case And(_, _) =>
      n, c1 := SimLogical(p, b, e, env, c);
    case Or(_, _) =>
      n, c1 := SimLogical(p, b, e, env, c);
    case IfExpr(_, _, _) =>
      n, c1 := SimIfExpr(p, b, e, env, c);
    case Invoke(_, _) =>
      n, c1 := SimInvoke(p, b, e, env, c);
  }

  /** Evaluating `e` as the next part of a larger expression. */
  lemma {:induction false} SimThen(p: Prog, b0: Builder, b: Builder, e: Expr, env: Env, c0: Cfg, c: Cfg, m: nat) returns (n: nat, c1: Cfg)
    requires Ready(b0, env, c0) && c.Running? && Frame(b0, c0, c) && Run(p, m, c0) == c
    requires b.Open() && b.vars == b0.vars && b0.temps <= b.temps && b0.slots <= b.slots && Here(b, c)
    requires Reads(e) <= env.Keys && Within(LowerExpr(b, e).0, p)
    ensures Run(p, n, c0) == c1 && c1.Running? && Frame(b, c, c1)
    ensures Evaluated(p, b0, LowerExpr(b, e).0, LowerExpr(b, e).1, Eval(e, env, c.out), c0, c1)
    decreases e, 2
  {
    hide Frame, Run, LowerExpr, Eval;
    RelKept(env, b0, c0, c);
    var k;
    k, c1 := SimExpr(p, b, e, env, c);
    n := m + k;
    RunThen(p, m, k, c0, c, c1);
    FrameThen(b0, b, c0, c, c1);
  }

  lemma {:induction false} SimUnary(p: Prog, b: Builder, e: Expr, e0: Expr, env: Env, c: Cfg) returns (n: nat, c1: Cfg)
    requires e == Neg(e0) || e == Not(e0)
    requires Ready(b, env, c) && Reads(e) <= env.Keys && Within(LowerExpr(b, e).0, p)
    ensures Run(p, n, c) == c1
    ensures Evaluated(p, b, LowerExpr(b, e).0, LowerExpr(b, e).1, Eval(e, env, c.out), c, c1)
    decreases e, 0
  {
    hide Frame, Run, Within, Ext, EmitBin, EmitCompare;
    var (b1, v) := LowerExpr(b, e0);
    ExprFlows(b, e0);
    WithinBack(b1, LowerExpr(b, e).0, {}, p);
    var m, c0 := SimExpr(p, b, e0, env, c);
    if e.Neg? {
      c1 := SimBin(p, b1, Sub, Const(0), v, 0, Eval(e0, env, c.out).n, c0);
      n := m + 1;
      RunThen(p, m, 1, c, c0, c1);
    } else {
      c1 := SimCompare(p, b1, Eq, v, Const(0), Eval(e0, env, c.out).n, 0, c0);
      n := m + 2;
      RunThen(p, m, 2, c, c0, c1);
    }
    ExtMono(b, b1, {});
    FrameThen(b, b1, c, c0, c1);
  }

  lemma {:induction false} SimBinary(p: Prog, b: Builder, e: Expr, env: Env, c: Cfg) returns (n: nat, c3: Cfg)
    requires e.Binary? && Ready(b, env, c) && Reads(e) <= env.Keys && Within(LowerExpr(b, e).0, p)
    ensures Run(p, n, c) == c3
    ensures Evaluated(p, b, LowerExpr(b, e).0, LowerExpr(b, e).1, Eval(e, env, c.out), c, c3)
    decreases e, 0
  {
    hide Frame, Run, Within, Ext, EmitOp, Apply, TableOk, Rel, ValueOf;
    var (b1, vl) := LowerExpr(b, e.left);
    ExprFlows(b, e.left);
    ExtMono(b, b1, {});
    var (b2, vr) := LowerExpr(b1, e.right);
    ExprFlows(b1, e.right);
    ExtMono(b1, b2, {});
    WithinBack(b2, LowerExpr(b, e).0, {}, p);
    WithinBack(b1, b2, {}, p);
    var n1, c1 := SimExpr(p, b, e.left, env, c);
    var n2, c2 := SimThen(p, b, b1, e.right, env, c, c1, n1);
    var x := Eval(e.left, env, c.out);
    HoldsKept(p, b1, b2, c1, c2, vl, x.n);
    var k;
    k, c3 := SimOp(p, b2, e.op, vl, vr, x.n, Eval(e.right, env, x.out).n, c2);
    n := n2 + k;
    RunThen(p, n2, k, c, c2, c3);
    FrameThen(b, b2, c, c2, c3);
  }

  // ----- calls -----

  ghost predicate AllHold(p: Prog, b: Builder, c: Cfg, vs: seq<Val>, ns: seq<int>) {
    |vs| == |ns| && forall i :: 0 <= i < |vs| ==> Holds(p, b, c, vs[i], ns[i])
  }

  lemma {:induction false} AllValues(p: Prog, b: Builder, c: Cfg, vs: seq<Val>, ns: seq<int>)
    requires c.Running? && AllHold(p, b, c, vs, ns)
    ensures ValuesOf(p, c, vs) == Some(ns)
    decreases vs
  {
    if vs != [] {
      assert Holds(p, b, c, vs[0], ns[0]);
      assert forall i :: 0 <= i < |vs| - 1 ==> vs[1..][i] == vs[i + 1] && ns[1..][i] == ns[i + 1];
      AllValues(p, b, c, vs[1..], ns[1..]);
      assert ns == [ns[0]] + ns[1..];
    }
  }

  lemma ReadyAfter(b: Builder, b1: Builder, env: Env, c: Cfg, c1: Cfg)
    requires Ready(b, env, c) && b1.Open() && b1.vars == b.vars && b.slots <= b1.slots
    requires c1.Running? && Frame(b, c, c1) && Here(b1, c1)
    ensures Ready(b1, env, c1)
  {
    RelKept(env, b, c, c1);
  }

  /** The arguments are evaluated from the first to the last, and keep their values. */
  lemma {:induction false} SimArgs(p: Prog, b: Builder, es: seq<Expr>, env: Env, c: Cfg) returns (n: nat, c2: Cfg)
    requires Ready(b, env, c) && ReadsOfAll(es) <= env.Keys && Within(LowerArgs(b, es).0, p)
    ensures Run(p, n, c) == c2 && Here(LowerArgs(b, es).0, c2) && Frame(b, c, c2)
    ensures AllHold(p, LowerArgs(b, es).0, c2, LowerArgs(b, es).1, EvalArgs(es, env, c.out).0)
    ensures c2.out == EvalArgs(es, env, c.out).1
    decreases es, 0
  {
    hide Run, Within, Ext, LowerExpr, Eval, TableOk, Rel;
    if es == [] {
      n, c2 := 0, c;
      assert Run(p, 0, c) == c by { RunNothing(p, c); }
    } else {
      var (b1, v) := LowerExpr(b, es[0]);
      var (b2, vs) := LowerArgs(b1, es[1..]);
      ExprFlows(b, es[0]);
      ArgsFlow(b1, es[1..]);
      ExtMono(b, b1, {});
      ExtMono(b1, b2, {});
      WithinBack(b1, b2, {}, p);
      var n1, c1 := SimExpr(p, b, es[0], env, c);
      ReadyAfter(b, b1, env, c, c1);
      var n2;
      n2, c2 := SimArgs(p, b1, es[1..], env, c1);
      n := n1 + n2;
      RunThen(p, n1, n2, c, c1, c2);
      FrameThen(b, b1, c, c1, c2);
      HoldsKept(p, b1, b2, c1, c2, v, Eval(es[0], env, c.out).n);
      HoldMore(p, b2, c2, v, Eval(es[0], env, c.out).n, vs, EvalArgs(es[1..], env, c1.out).0);
    }
  }

  lemma RunNothing(p: Prog, c: Cfg)
    ensures Run(p, 0, c) == c
  {
  }

  lemma HoldMore(p: Prog, b: Builder, c: Cfg, v: Val, n: int, vs: seq<Val>, ns: seq<int>)
    requires Holds(p, b, c, v, n) && AllHold(p, b, c, vs, ns)
    ensures AllHold(p, b, c, [v] + vs, [n] + ns)
  {
    forall i | 0 <= i < |[v] + vs| ensures Holds(p, b, c, ([v] + vs)[i], ([n] + ns)[i]) {
      if i > 0 { assert Holds(p, b, c, vs[i - 1], ns[i - 1]); }
    }
  }

  lemma {:induction false} SimInvoke(p: Prog, b: Builder, e: Expr, env: Env, c: Cfg) returns (n: nat, c2: Cfg)
    requires e.Invoke? && Ready(b, env, c) && Reads(e) <= env.Keys && Within(LowerExpr(b, e).0, p)
    ensures Run(p, n, c) == c2
    ensures Evaluated(p, b, LowerExpr(b, e).0, LowerExpr(b, e).1, Eval(e, env, c.out), c, c2)
    decreases e, 0
  {
    hide Run, Within, Ext, TableOk, Rel, LowerArgs, EvalArgs, AllHold, Frame;
    var (b1, vs) := LowerArgs(b, e.args);
    var i := CallFn(b1.temps, e.name, vs);
    ArgsFlow(b, e.args);
    ExtMono(b, b1, {});
    WithinBack(b1, EmitTemp(b1, i).0, {}, p);
    var n1, c1 := SimArgs(p, b, e.args, env, c);
    var xs := EvalArgs(e.args, env, c.out);
    AllValues(p, b1, c1, vs, xs.0);
    c2 := SimCall(p, b1, e.name, vs, xs.0, c1);
    n := n1 + 1;
    RunThen(p, n1, 1, c, c1, c2);
    FrameThen(b, b1, c, c1, c2);
  }

  lemma SimCall(p: Prog, b: Builder, name: string, vs: seq<Val>, ns: seq<int>, c: Cfg) returns (c1: Cfg)
    requires b.Open() && Here(b, c) && Within(EmitTemp(b, CallFn(b.temps, name, vs)).0, p) && ValuesOf(p, c, vs) == Some(ns)
    ensures var r := EmitTemp(b, CallFn(b.temps, name, vs));
            && Run(p, 1, c) == c1 && Here(r.0, c1) && Holds(p, r.0, c1, r.1, c.out.answer(c.out.events, name, ns))
            && Frame(b, c, c1) && c1.out == Happens(c.out, Called(name, ns))
  {
    hide ValuesOf;
    StepEmit(p, b, CallFn(b.temps, name, vs), c);
    c1 := Execute(p, c, CallFn(b.temps, name, vs));
  }

  // ----- `and` and `or` -----

  /** The machine just jumped from block `from` to the start of block `to`. */
  ghost predicate Landed(c: Cfg, from: nat, to: nat) {
    c.Running? && c.block == to && c.pc == 0 && c.prev == from
  }

  /** After the test of `and` or `or`: at the right operand, or at the short-cut block. */
  lemma SimLogicalTest(p: Prog, b: Builder, v: Val, isAnd: bool, x: int, c: Cfg) returns (c2: Cfg)
    requires b.Open() && Here(b, c) && Within(LogicalTest(b, v, isAnd), p) && ValueOf(p, c, v) == Some(x)
    ensures c2.Running? && Run(p, 2, c) == c2 && Frame(b, c, c2) && c2.out == c.out
    ensures
      var r := LogicalTest(b, v, isAnd);
      Landed(c2, b.cur, if (x != 0) == isAnd then r.cur else ShortBlock(isAnd, r.cur))
  {
    hide Ext, Frame, Holds;
    var (b1, w) := EmitBin(b, Ne, v, Const(0));
    var n := |b1.blocks|;
    var ba := Append(b1, 3);
    WithinBack(ba, Terminate(ba, CondBr(w, n, n + 1)), {}, p);
    assert Within(b1, p) by { WithinAppend(b1, 3, p); }
    var c1 := SimBin(p, b, Ne, v, Const(0), x, 0, c);
    assert ValueOf(p, c1, w).Some? by { HoldsValue(p, b1, c1, w, Apply(Ne, x, 0)); }
    HoldsValue(p, b1, c1, w, Apply(Ne, x, 0));
    StepTerminate(p, ba, CondBr(w, n, n + 1), c1);
    c2 := Leave(p, c1, CondBr(w, n, n + 1));
    RunThen(p, 1, 1, c, c1, c2);
    FrameJump(b, c, c1, c2);
  }

  lemma WithinAppend(b: Builder, n: nat, p: Prog)
    requires Within(Append(b, n), p)
    ensures Within(b, p)
  {
    assert forall i :: 0 <= i < |b.blocks| ==> BlockGrows(Append(b, n).blocks[i], p.blocks[i]);
  }

  lemma HoldsValue(p: Prog, b: Builder, c: Cfg, v: Val, n: int)
    requires Holds(p, b, c, v, n)
    ensures c.Running? && ValueOf(p, c, v) == Some(n)
  {
  }

  lemma FrameJump(b: Builder, c0: Cfg, c1: Cfg, c2: Cfg)
    requires c0.Running? && c1.Running? && c2.Running? && Frame(b, c0, c1)
    requires c2.temps == c1.temps && c2.mem == c1.mem
    ensures Frame(b, c0, c2)
  {
  }

  /** After the right operand of `and` or `or`: at the merge block, or at the short-cut. */
  lemma SimDecide(p: Prog, b: Builder, v: Val, isAnd: bool, rhs: nat, y: int, c: Cfg) returns (c2: Cfg)
    requires b.Open() && Here(b, c) && Within(LogicalDecide(b, v, isAnd, rhs), p) && ValueOf(p, c, v) == Some(y)
    ensures c2.Running? && Run(p, 2, c) == c2 && Frame(b, c, c2) && c2.out == c.out
    ensures Landed(c2, b.cur, if (y != 0) == isAnd then MergeBlock(isAnd, rhs) else ShortBlock(isAnd, rhs))
  {
    hide Ext, Frame, Holds, ShortBlock, MergeBlock;
    var (b1, w) := EmitBin(b, Ne, v, Const(0));
    var short, merge := ShortBlock(isAnd, rhs), MergeBlock(isAnd, rhs);
    var t := if isAnd then CondBr(w, merge, short) else CondBr(w, short, merge);
    WithinBack(b1, Terminate(b1, t), {}, p);
    var c1 := SimBin(p, b, Ne, v, Const(0), y, 0, c);
    HoldsValue(p, b1, c1, w, Apply(Ne, y, 0));
    StepTerminate(p, b1, t, c1);
    c2 := Leave(p, c1, t);
    RunThen(p, 1, 1, c, c1, c2);
    FrameJump(b, c, c1, c2);
  }

  /** The short-cut and merge blocks of a logical operator, not used so far. */
  ghost predicate Awaiting(b: Builder, isAnd: bool, rhs: nat) {
    && b.Terminated() && !b.bad
    && ShortBlock(isAnd, rhs) != MergeBlock(isAnd, rhs)
    && ShortBlock(isAnd, rhs) != b.cur
    && ShortBlock(isAnd, rhs) < |b.blocks| && MergeBlock(isAnd, rhs) < |b.blocks|
    && b.blocks[ShortBlock(isAnd, rhs)] == EMPTY && b.blocks[MergeBlock(isAnd, rhs)] == EMPTY
  }

  lemma AwaitingFrom(b0: Builder, b: Builder, isAnd: bool, rhs: nat)
    requires Ext(b0, b, {ShortBlock(isAnd, rhs), MergeBlock(isAnd, rhs)}) && b.Terminated()
    requires ShortBlock(isAnd, rhs) != MergeBlock(isAnd, rhs)
    ensures Awaiting(b, isAnd, rhs)
  {
  }

  lemma MergeWithin(b: Builder, isAnd: bool, rhs: nat, p: Prog)
    requires Awaiting(b, isAnd, rhs) && Within(LogicalMerge(b, isAnd, rhs).0, p)
    ensures
      var b1 := Terminate(At(b, ShortBlock(isAnd, rhs)), Br(MergeBlock(isAnd, rhs)));
      Within(b1, p) && Within(b, p)
  {
    hide Within, EmitTemp, Ext, ShortBlock, MergeBlock;
    var short, merge := ShortBlock(isAnd, rhs), MergeBlock(isAnd, rhs);
    var b1 := Terminate(At(b, short), Br(merge));
    WithinBack(At(b1, merge), LogicalMerge(b, isAnd, rhs).0, {}, p);
    WithinMove(At(b1, merge), b1, p);
    WithinBack(At(b, short), b1, {}, p);
    WithinMove(At(b, short), b, p);
  }

  /** From the short-cut block, or from the right operand, into the merged value. */
  lemma SimMerge(p: Prog, b: Builder, isAnd: bool, rhs: nat, viaShort: bool, c: Cfg) returns (n: nat, c1: Cfg)
    requires Awaiting(b, isAnd, rhs) && Within(LogicalMerge(b, isAnd, rhs).0, p) && c.Running?
    requires if viaShort then c.block == ShortBlock(isAnd, rhs) && c.pc == 0 else Landed(c, b.cur, MergeBlock(isAnd, rhs))
    ensures Run(p, n, c) == c1 && Here(LogicalMerge(b, isAnd, rhs).0, c1)
    ensures Holds(p, LogicalMerge(b, isAnd, rhs).0, c1, LogicalMerge(b, isAnd, rhs).1, Flag(viaShort != isAnd))
    ensures Frame(b, c, c1) && c1.out == c.out
  {
    hide Within, EmitTemp, Ext, ShortBlock, MergeBlock;
    var short, merge := ShortBlock(isAnd, rhs), MergeBlock(isAnd, rhs);
    var b1 := Terminate(At(b, short), Br(merge));
    var phi := if isAnd then Phi(b1.temps, Const(1), b.cur, Const(0), short)
               else Phi(b1.temps, Const(1), short, Const(0), b.cur);
    MergeWithin(b, isAnd, rhs, p);
    if viaShort {
      StepTerminate(p, At(b, short), Br(merge), c);
      var c0 := Leave(p, c, Br(merge));
      c1 := SimTemp(p, At(b1, merge), phi, Flag(!isAnd), c0);
      n := 2;
      RunThen(p, 1, 1, c, c0, c1);
    } else {
      n := 1;
      c1 := SimTemp(p, At(b1, merge), phi, Flag(isAnd), c);
    }
  }

  lemma WithinMove(b0: Builder, b1: Builder, p: Prog)
    requires b0.blocks == b1.blocks && Within(b0, p)
    ensures Within(b1, p)
  {
  }

  /** The builders that lowering `e.left and e.right` goes through, and what is
      known of them. */
  lemma {:induction false} LogicalStages(p: Prog, b: Builder, e: Expr)
    requires (e.And? || e.Or?) && b.Open() && Within(LowerLogical(b, e).0, p)
    ensures
      var b1 := LowerExpr(b, e.left).0;
      var b2 := LogicalTest(b1, LowerExpr(b, e.left).1, e.And?);
      var b3 := LowerExpr(b2, e.right).0;
      var b4 := LogicalDecide(b3, LowerExpr(b2, e.right).1, e.And?, b2.cur);
      && b1.Open() && AtStart(b2) && b3.Open() && Awaiting(b4, e.And?, b2.cur)
      && b2.vars == b.vars
      && b.temps <= b1.temps <= b2.temps <= b3.temps <= b4.temps
      && b.slots <= b1.slots <= b2.slots <= b3.slots <= b4.slots
      && Within(b1, p) && Within(b2, p) && Within(b3, p) && Within(b4, p)
  {
    hide Within, Ext, LogicalTest, LogicalDecide, LogicalMerge, ShortBlock, MergeBlock, Builder.Open, Builder.Terminated;
    var isAnd := e.And?;
    var (b1, vl) := LowerExpr(b, e.left);
    ExprFlows(b, e.left);
    var b2 := LogicalTest(b1, vl, isAnd);
    LogicalTestShape(b1, vl, isAnd);
    var pending := {ShortBlock(isAnd, b2.cur), MergeBlock(isAnd, b2.cur)};
    var (b3, vr) := LowerExpr(b2, e.right);
    ExprFlows(b2, e.right);
    ExtThen(b1, b2, b3, pending);
    var b4 := LogicalDecide(b3, vr, isAnd, b2.cur);
    ExtThen(b1, b3, b4, pending);
    AwaitingFrom(b1, b4, isAnd, b2.cur);
    MergeWithin(b4, isAnd, b2.cur, p);
    WithinBack(b3, b4, {}, p);
    WithinBack(b2, b3, {}, p);
    WithinBack(b1, b2, pending, p);
    ExtMono(b, b1, {});
    ExtMono(b1, b2, pending);
    ExtMono(b2, b3, {});
    ExtMono(b3, b4, {});
  }

  lemma {:induction false} SimLogical(p: Prog, b: Builder, e: Expr, env: Env, c: Cfg) returns (n: nat, c5: Cfg)
    requires (e.And? || e.Or?) && Ready(b, env, c) && Reads(e) <= env.Keys && Within(LowerLogical(b, e).0, p)
    ensures Run(p, n, c) == c5
    ensures Evaluated(p, b, LowerLogical(b, e).0, LowerLogical(b, e).1, Eval(e, env, c.out), c, c5)
    decreases e, 0
  {
    hide Frame, Run, Within, Ext, LogicalTest, LogicalDecide, LogicalMerge, ShortBlock, MergeBlock, Awaiting, Builder.Open;
    var isAnd := e.And?;
    var (b1, vl) := LowerExpr(b, e.left);
    var b2 := LogicalTest(b1, vl, isAnd);
    var (b3, vr) := LowerExpr(b2, e.right);
    var b4 := LogicalDecide(b3, vr, isAnd, b2.cur);
    LogicalStages(p, b, e);
    var left := Eval(e.left, env, c.out);
    var right := Eval(e.right, env, left.out);
    var x, y := left.n, right.n;
    var n1, c1 := SimExpr(p, b, e.left, env, c);
    var c2 := SimLogicalTest(p, b1, vl, isAnd, x, c1);
    RunThen(p, n1, 2, c, c1, c2);
    FrameThen(b, b1, c, c1, c2);
    if (x != 0) == isAnd {
      StartHere(b2, c2);
      var n3, c3 := SimThen(p, b, b2, e.right, env, c, c2, n1 + 2);
      var c4 := SimDecide(p, b3, vr, isAnd, b2.cur, y, c3);
      RunThen(p, n3, 2, c, c3, c4);
      FrameThen(b, b3, c, c3, c4);
      var k;
      k, c5 := SimMerge(p, b4, isAnd, b2.cur, (y != 0) != isAnd, c4);
      n := n3 + 2 + k;
      RunThen(p, n3 + 2, k, c, c4, c5);
      FrameThen(b, b4, c, c4, c5);
    } else {
      var k;
      k, c5 := SimMerge(p, b4, isAnd, b2.cur, true, c2);
      n := n1 + 2 + k;
      RunThen(p, n1 + 2, k, c, c2, c5);
      FrameThen(b, b4, c, c2, c5);
    }
  }

  /** The builders that lowering a conditional expression goes through. */
  lemma {:induction false} IfExprStages(p: Prog, b: Builder, e: Expr)
    requires e.IfExpr? && b.Open() && Within(LowerIfExpr(b, e).0, p)
    ensures
      var thn := |b.blocks|;
      var b0 := IfExprHead(b);
      var (b1, vc) := LowerExpr(b0, e.cond);
      var b2 := BranchTo(b1, vc, thn);
      var b3 := LowerInto(b2, e.thn, b.slots, thn + 2, thn + 1);
      var b4 := LowerInto(b3, e.els, b.slots, thn + 2, thn + 2);
      && b0.Open() && b1.Open() && AtStart(b2) && AtStart(b3) && AtStart(b4)
      && b3.cur == thn + 1 && b4.cur == thn + 2
      && b0.vars == b.vars && b1.vars == b.vars && b3.vars == b.vars
      && Later(b, b0) && Later(b0, b1) && Later(b1, b2) && Later(b2, b3) && Later(b3, b4)
      && Within(b4, p)
  {
    hide Within, Ext, Later, AtStart, IfExprHead, LowerExpr, BranchTo, LowerInto, EmitLoad;
    var thn := |b.blocks|;
    var pending := {thn, thn + 1, thn + 2};
    IfExprHeadShape(b, pending);
    var b0 := IfExprHead(b);
    ExtLater(b, b0, pending);
    var (b1, vc) := LowerExpr(b0, e.cond);
    ExprFlows(b0, e.cond);
    ExtLater(b0, b1, {});
    ExtThen(b, b0, b1, pending);
    BranchToShape(b, b1, vc, thn, pending, {thn + 1, thn + 2});
    var b2 := BranchTo(b1, vc, thn);
    assert b2.Open() by { StartOpen(b2); }
    IntoFlows(b, b2, e.thn, b.slots, thn + 2, thn + 1, {thn + 1, thn + 2}, {thn + 2});
    var b3 := LowerInto(b2, e.thn, b.slots, thn + 2, thn + 1);
    assert b3.Open() by { StartOpen(b3); }
    IntoFlows(b, b3, e.els, b.slots, thn + 2, thn + 2, {thn + 2}, {});
    var b4 := LowerInto(b3, e.els, b.slots, thn + 2, thn + 2);
    StartOpen(b4);
    WithinBack(b4, EmitLoad(b4, b.slots).0, {}, p);
  }

  lemma StartOpen(b: Builder)
    requires AtStart(b)
    ensures b.Open()
  {
  }

  /** The machine jumped to a block that emission takes up next. */
  lemma StartHere(b: Builder, c: Cfg)
    requires AtStart(b) && c.Running? && c.block == b.cur && c.pc == 0
    ensures Here(b, c)
  {
  }

  lemma LaterWithin(b0: Builder, b1: Builder, p: Prog)
    requires Later(b0, b1) && Within(b1, p)
    ensures Within(b0, p) && b0.temps <= b1.temps && b0.slots <= b1.slots
  {
    forall i | 0 <= i < |b0.blocks|
      ensures BlockGrows(b0.blocks[i], p.blocks[i])
    {
      assert BlockGrows(b0.blocks[i], b1.blocks[i]);
      assert BlockGrows(b1.blocks[i], p.blocks[i]);
    }
  }

  /** A branch of a conditional expression leaves its value in the slot. */
  lemma {:induction false} SimInto(p: Prog, b0: Builder, b: Builder, e: Expr, slot: nat, end: nat, next: nat, env: Env, c0: Cfg, c: Cfg, m: nat)
    returns (n: nat, c2: Cfg)
    requires Ready(b0, env, c0) && c.Running? && Frame(b0, c0, c) && Run(p, m, c0) == c
    requires b.Open() && b.vars == b0.vars && b0.temps <= b.temps && b0.slots <= b.slots && Here(b, c)
    requires Reads(e) <= env.Keys && Within(LowerInto(b, e, slot, end, next), p) && b0.slots <= slot
    ensures Run(p, n, c0) == c2 && c2.Running? && c2.block == end && c2.pc == 0
    ensures Frame(b0, c0, c2) && slot in c2.mem && c2.mem[slot] == Eval(e, env, c.out).n && c2.out == Eval(e, env, c.out).out
    decreases e, 3
  {
    hide Frame, Run, Within, Ext, LowerExpr, Eval, Emit, Rel, TableOk;
    var (b1, v) := LowerExpr(b, e);
    ExprFlows(b, e);
    var b2 := Emit(b1, Store(v, slot));
    assert Within(Terminate(b2, Br(end)), p) by { WithinMove(LowerInto(b, e, slot, end, next), Terminate(b2, Br(end)), p); }
    WithinBack(b2, Terminate(b2, Br(end)), {}, p);
    WithinBack(b1, b2, {}, p);
    var n0, c1 := SimThen(p, b0, b, e, env, c0, c, m);
    var d := SimStore(p, b1, v, Eval(e, env, c.out).n, slot, c1) by { assert 0 < b0.slots by { SlotsPositive(b0); } }
    RunThen(p, n0, 1, c0, c1, d);
    StepTerminate(p, b2, Br(end), d);
    c2 := Leave(p, d, Br(end));
    n := n0 + 1 + 1;
    RunThen(p, n0 + 1, 1, c0, d, c2);
    FrameStore(b0, c0, c1, c2, slot);
  }

  lemma SlotsPositive(b: Builder)
    requires TableOk(b.vars, b.slots)
    ensures 0 < b.slots
  {
  }

  lemma FrameStore(b: Builder, c0: Cfg, c1: Cfg, c2: Cfg, slot: nat)
    requires c0.Running? && c1.Running? && c2.Running? && Frame(b, c0, c1) && b.slots <= slot
    requires c2.temps == c1.temps && (slot in c2.mem ==> c2.mem == c1.mem[slot := c2.mem[slot]])
    requires slot !in c2.mem ==> c2.mem == c1.mem - {slot}
    ensures Frame(b, c0, c2)
  {
  }

  lemma FrameSet(b: Builder, c0: Cfg, c1: Cfg, c2: Cfg, slot: nat, n: int)
    requires c0.Running? && c1.Running? && c2.Running? && Frame(b, c0, c1) && b.slots <= slot
    requires c2.temps == c1.temps && c2.mem == c1.mem[slot := n]
    ensures Frame(b, c0, c2)
  {
  }

  lemma {:induction false} SimIfExpr(p: Prog, b: Builder, e: Expr, env: Env, c: Cfg) returns (n: nat, c4: Cfg)
    requires e.IfExpr? && Ready(b, env, c) && Reads(e) <= env.Keys && Within(LowerIfExpr(b, e).0, p)
    ensures Run(p, n, c) == c4
    ensures Evaluated(p, b, LowerIfExpr(b, e).0, LowerIfExpr(b, e).1, Eval(e, env, c.out), c, c4)
    decreases e, 0
  {
    hide Frame, Run, Within, Ext, Later, AtStart, IfExprHead, BranchTo, LowerInto, EmitLoad;
    var thn := |b.blocks|;
    var b0 := IfExprHead(b);
    var (b1, vc) := LowerExpr(b0, e.cond);
    var b2 := BranchTo(b1, vc, thn);
    var b3 := LowerInto(b2, e.thn, b.slots, thn + 2, thn + 1);
    var b4 := LowerInto(b3, e.els, b.slots, thn + 2, thn + 2);
    IfExprStages(p, b, e);
    LaterWithin(b3, b4, p);
    LaterWithin(b2, b3, p);
    LaterWithin(b1, b2, p);
    LaterWithin(b0, b1, p);
    LaterWithin(b, b0, p);
    var c0 := SimIfExprHead(p, b, c);
    var n1, c1 := SimThen(p, b, b0, e.cond, env, c, c0, 1);
    var x := Eval(e.cond, env, c.out);
    var c2 := SimBranchTo(p, b1, vc, x.n, thn, c1);
    RunThen(p, n1, 2, c, c1, c2);
    FrameThen(b, b1, c, c1, c2);
    var n3, c3;
    if x.n != 0 {
      StartHere(b2, c2);
      StartOpen(b2);
      n3, c3 := SimInto(p, b, b2, e.thn, b.slots, thn + 2, thn + 1, env, c, c2, n1 + 2);
    } else {
      StartHere(b3, c2);
      StartOpen(b3);
      n3, c3 := SimInto(p, b, b3, e.els, b.slots, thn + 2, thn + 2, env, c, c2, n1 + 2);
    }
    StartHere(b4, c3);
    StartOpen(b4);
    c4 := SimLoad(p, b4, b.slots, Eval(e, env, c.out).n, c3);
    n := n3 + 1;
    RunThen(p, n3, 1, c, c3, c4);
    FrameThen(b, b4, c, c3, c4);
  }

  lemma SimIfExprHead(p: Prog, b: Builder, c: Cfg) returns (c1: Cfg)
    requires b.Open() && Here(b, c) && Within(IfExprHead(b), p)
    ensures Run(p, 1, c) == c1 && Here(IfExprHead(b), c1) && Frame(b, c, c1) && c1.out == c.out
  {
    hide Frame, Run, Within, Ext;
    var b0 := EmitAlloca(b);
    WithinAppend(Labels(b0, 3).(temps := b.temps + 1), 3, p);
    WithinMove(Labels(b0, 3).(temps := b.temps + 1), Emit(b, Alloca(b.slots)), p);
    StepEmit(p, b, Alloca(b.slots), c);
    c1 := Execute(p, c, Alloca(b.slots));
    FrameSelf(b, c);
    FrameStore(b, c, c, c1, b.slots);
  }

  lemma FrameSelf(b: Builder, c: Cfg)
    requires c.Running?
    ensures Frame(b, c, c)
  {
  }

  lemma SimBranchTo(p: Prog, b: Builder, v: Val, n: int, block: nat, c: Cfg) returns (c2: Cfg)
    requires b.Open() && Here(b, c) && Within(BranchTo(b, v, block), p)
    requires ValueOf(p, c, v) == Some(n)
    ensures Run(p, 2, c) == c2
    ensures c2.Running? && c2.block == (if n != 0 then block else block + 1) && c2.pc == 0
    ensures c2.out == c.out && c2.mem == c.mem && Frame(b, c, c2)
  {
    hide Frame, Run, Within, Branch;
    WithinMove(BranchTo(b, v, block), Branch(b, v, block, block + 1), p);
    c2 := SimBranch(p, b, v, n, block, block + 1, c);
  }
}
