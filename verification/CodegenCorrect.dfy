/**
  Control-flow lowering preserves meaning: the machine, started where a statement
  was emitted, stores, prints, jumps and returns as the statement does.
 */
module CodegenCorrect {
  import opened Options
  import opened Ir
  import opened Source
  import opened Codegen
  import opened CodegenShape
  import opened CodegenSim
  import opened CodegenTable

  /** The machine holds the source state, through the table `vars`. */
  ghost predicate Stored(st: State, vars: map<Name, nat>, c: Cfg) {
    c.Running? && Rel(st.env, vars, c.mem) && c.out == st.out
  }

  /** Slots reserved before `b` that no name in scope has keep their contents. */
  ghost predicate Spares(b: Builder, scope: set<string>, c0: Cfg, c1: Cfg)
    requires c0.Running? && c1.Running?
  {
    forall k :: k < b.slots && k in c0.mem && Unnamed(b.vars, scope, k) ==> k in c1.mem && c1.mem[k] == c0.mem[k]
  }

  ghost predicate Unnamed(vars: map<Name, nat>, scope: set<string>, k: nat) {
    forall x :: x in scope && User(x) in vars ==> vars[User(x)] != k
  }

  ghost predicate AtBlock(c: Cfg, block: Option<nat>) {
    c.Running? && block.Some? && c.block == block.value && c.pc == 0
  }

  /** What lowering `b` to `b1` must make of a source result: the machine, after `n`
      steps from `c`, is in `c1`. */
  ghost predicate Done(b: Builder, b1: Builder, to: Targets, scope: set<string>, scope1: set<string>, r: Result, fuel: nat,
                       n: nat, c: Cfg, c1: Cfg)
    requires c.Running?
  {
    match r
    case Normal(st) =>
      b1.Open() && Here(b1, c1) && Stored(st, b1.vars, c1) && st.env.Keys == scope1 && Spares(b, scope, c, c1)
    case Broke(st) =>
      AtBlock(c1, to.brk) && Stored(st, b.vars, c1) && st.env.Keys == scope && Spares(b, scope, c, c1)
    case Continued(st) =>
      AtBlock(c1, to.cont) && Stored(st, b.vars, c1) && st.env.Keys == scope && Spares(b, scope, c, c1)
    case Returned(v, out) => c1 == Halt(v, out)
    case TimeOut => c1.Running? && n >= fuel
  }

  /** What statement code needs of the state it starts in. */
  ghost predicate Begins(b: Builder, st: State, c: Cfg) {
    b.Open() && Here(b, c) && TableOk(b.vars, b.slots) && Stored(st, b.vars, c)
  }

  function ScopeAfter(s: Stmt, scope: set<string>): set<string> {
    if s.Let? then scope + {s.name} else scope
  }

  // ----- states -----

  lemma BeginsReady(b: Builder, st: State, c: Cfg)
    requires Begins(b, st, c)
    ensures Ready(b, st.env, c) && b.Open() && c.Running?
  {
  }

  lemma FrameSpares(b: Builder, scope: set<string>, c0: Cfg, c1: Cfg)
    requires c0.Running? && c1.Running? && Frame(b, c0, c1)
    ensures Spares(b, scope, c0, c1)
  {
  }

  lemma SparesThen(b0: Builder, b1: Builder, scope: set<string>, c0: Cfg, c1: Cfg, c2: Cfg)
    requires c0.Running? && c1.Running? && c2.Running?
    requires Spares(b0, scope, c0, c1) && Spares(b1, scope, c1, c2)
    requires b0.slots <= b1.slots && Agree(scope, b0.vars, b1.vars) && scope <= Declared(b0.vars)
    ensures Spares(b0, scope, c0, c2)
  {
    forall k | k < b0.slots && k in c0.mem && Unnamed(b0.vars, scope, k)
      ensures k in c2.mem && c2.mem[k] == c0.mem[k]
    {
      assert Unnamed(b1.vars, scope, k);
    }
  }

  function Declared(vars: map<Name, nat>): set<string> {
    set x | x in vars && x.User? :: x.name
  }

  lemma RelDeclared(env: Env, vars: map<Name, nat>, mem: map<nat, int>)
    requires Rel(env, vars, mem)
    ensures env.Keys <= Declared(vars)
  {
    forall x | x in env.Keys
      ensures x in Declared(vars)
    {
      assert User(x) in vars && User(x).User?;
    }
  }

  /** The same memory, seen through another table that agrees on the names in scope. */
  lemma StoredAgree(st: State, v0: map<Name, nat>, v1: map<Name, nat>, c: Cfg)
    requires Stored(st, v1, c) && Agree(st.env.Keys, v0, v1) && st.env.Keys <= Declared(v0)
    ensures Stored(st, v0, c)
  {
    forall x | x in st.env
      ensures User(x) in v0 && v0[User(x)] == v1[User(x)]
    {
      assert x in Declared(v0);
    }
  }

  // ----- simple statements -----

  /** Naming a fresh slot and storing a value there. */
  lemma SimDefine(p: Prog, b: Builder, name: Name, v: Val, n: int, c: Cfg) returns (c2: Cfg)
    requires b.Open() && Here(b, c) && Within(Define(b, name, v), p) && ValueOf(p, c, v) == Some(n) && b.slots != 0
    ensures Run(p, 2, c) == c2 && Here(Define(b, name, v), c2)
    ensures c2.Running? && c2.temps == c.temps && c2.out == c.out && c2.mem == c.mem[b.slots := n]
  {
    hide Run, Within, Ext, Emit;
    var b1 := EmitAlloca(b);
    var b2 := b1.(vars := b1.vars[name := b.slots]);
    var r := Emit(b2, Store(v, b.slots));
    WithinBack(b2, r, {}, p);
    WithinMove(b2, Emit(b, Alloca(b.slots)), p);
    StepEmit(p, b, Alloca(b.slots), c);
    var c1 := Execute(p, c, Alloca(b.slots));
    c2 := SimStore(p, b2, v, n, b.slots, c1);
    RunThen(p, 1, 1, c, c1, c2);
    assert c2.mem == c.mem[b.slots := n];
  }

  lemma SimLet(p: Prog, b: Builder, s: Stmt, to: Targets, isVoid: bool, st: State, fuel: nat, c: Cfg) returns (n: nat, c2: Cfg)
    requires s.Let? && Begins(b, st, c) && Scoped(s, st.env.Keys) && Within(LowerStmt(b, s, to, isVoid), p)
    ensures Run(p, n, c) == c2
    ensures Done(b, LowerStmt(b, s, to, isVoid), to, st.env.Keys, ScopeAfter(s, st.env.Keys),
                 Source.Exec(s, st, to.brk.Some?, isVoid, fuel), fuel, n, c, c2)
  {
    hide Frame, Run, Within, Ext, LowerExpr, Eval, Spares, Here, Emit;
    BeginsReady(b, st, c);
    var (b1, v) := LowerExpr(b, s.e);
    ExprFlows(b, s.e);
    ExprTable(b, s.e);
    WithinBack(b1, Define(b1, User(s.name), v), {}, p);
    var n1, c1 := SimExpr(p, b, s.e, st.env, c);
    c2 := SimDefine(p, b1, User(s.name), v, EvalIn(s.e, st).n, c1);
    n := n1 + 2;
    RunThen(p, n1, 2, c, c1, c2);
    FrameSet(b, c, c1, c2, b1.slots, EvalIn(s.e, st).n);
    RelKept(st.env, b, c, c2);
    FrameSpares(b, st.env.Keys, c, c2);
  }

  lemma SimAssign(p: Prog, b: Builder, s: Stmt, to: Targets, isVoid: bool, st: State, fuel: nat, c: Cfg) returns (n: nat, c2: Cfg)
    requires s.Assign? && Begins(b, st, c) && Scoped(s, st.env.Keys) && Within(LowerStmt(b, s, to, isVoid), p)
    ensures Run(p, n, c) == c2
    ensures Done(b, LowerStmt(b, s, to, isVoid), to, st.env.Keys, ScopeAfter(s, st.env.Keys),
                 Source.Exec(s, st, to.brk.Some?, isVoid, fuel), fuel, n, c, c2)
  {
    hide Run, Within, Ext, LowerExpr, Emit, Eval;
    BeginsReady(b, st, c);
    var (b1, v) := LowerExpr(b, s.e);
    ExprFlows(b, s.e);
    var slot := b.vars[User(s.name)];
    var r := Emit(b1, Store(v, slot));
    WithinBack(b1, r, {}, p);
    var n1, c1 := SimExpr(p, b, s.e, st.env, c);
    c2 := SimStore(p, b1, v, EvalIn(s.e, st).n, slot, c1);
    n := n1 + 1;
    RunThen(p, n1, 1, c, c1, c2);
    RelKept(st.env, b, c, c1);
  }

  lemma SimOutput(p: Prog, b: Builder, s: Stmt, to: Targets, isVoid: bool, st: State, fuel: nat, c: Cfg) returns (n: nat, c2: Cfg)
    requires (s.PrintStmt? || s.ExprStmt?) && Begins(b, st, c) && Scoped(s, st.env.Keys) && Within(LowerStmt(b, s, to, isVoid), p)
    ensures Run(p, n, c) == c2
    ensures Done(b, LowerStmt(b, s, to, isVoid), to, st.env.Keys, ScopeAfter(s, st.env.Keys),
                 Source.Exec(s, st, to.brk.Some?, isVoid, fuel), fuel, n, c, c2)
  {
    hide Run, Within, Ext, LowerExpr, Emit, Eval, Frame, Spares;
    BeginsReady(b, st, c);
    var (b1, v) := LowerExpr(b, s.e);
    ExprFlows(b, s.e);
    if s.ExprStmt? {
      n, c2 := SimExpr(p, b, s.e, st.env, c);
    } else {
      WithinBack(b1, Emit(b1, Print(v)), {}, p);
      var n1, c1 := SimExpr(p, b, s.e, st.env, c);
      StepEmit(p, b1, Print(v), c1);
      c2 := Execute(p, c1, Print(v));
      n := n1 + 1;
      RunThen(p, n1, 1, c, c1, c2);
      FrameJump(b, c, c1, c2);
    }
    RelKept(st.env, b, c, c2);
    FrameSpares(b, st.env.Keys, c, c2);
  }

  lemma SimJump(p: Prog, b: Builder, s: Stmt, to: Targets, isVoid: bool, st: State, fuel: nat, c: Cfg) returns (n: nat, c2: Cfg)
    requires s.Break? || s.Continue? || s.Return? || s.ReturnExpr?
    requires to.brk.Some? == to.cont.Some?
    requires Begins(b, st, c) && Scoped(s, st.env.Keys) && Within(LowerStmt(b, s, to, isVoid), p)
    ensures Run(p, n, c) == c2
    ensures Done(b, LowerStmt(b, s, to, isVoid), to, st.env.Keys, ScopeAfter(s, st.env.Keys),
                 Source.Exec(s, st, to.brk.Some?, isVoid, fuel), fuel, n, c, c2)
  {
    hide Within, Ext, LowerExpr, Terminate, Eval, Frame, Spares;
    BeginsReady(b, st, c);
    FrameSelf(b, c);
    if s.ReturnExpr? {
      var (b1, v) := LowerExpr(b, s.e);
      ExprFlows(b, s.e);
      WithinBack(b1, Terminate(b1, Ret(v)), {}, p);
      var n1, c1 := SimExpr(p, b, s.e, st.env, c);
      StepTerminate(p, b1, Ret(v), c1);
      c2 := Leave(p, c1, Ret(v));
      n := n1 + 1;
      RunThen(p, n1, 1, c, c1, c2);
    } else if s.Return? || to.brk.Some? {
      var t := if s.Break? then Br(to.brk.value) else if s.Continue? then Br(to.cont.value)
               else if isVoid then RetVoid else Ret(Const(0));
      StepTerminate(p, b, t, c);
      n, c2 := 1, Leave(p, c, t);
      if !s.Return? {
        FrameJump(b, c, c, c2);
        FrameSpares(b, st.env.Keys, c, c2);
      }
    } else {
      n, c2 := 0, c;
      FrameSpares(b, st.env.Keys, c, c2);
    }
  }

  // ----- composing -----

  /** Code before a part of a statement, then the part. */
  lemma DoneThen(p: Prog, b: Builder, b0: Builder, b1: Builder, to: Targets, scope: set<string>, scope1: set<string>, r: Result,
                 fuel: nat, innerFuel: nat, m: nat, n: nat, c: Cfg, c0: Cfg, c1: Cfg)
    requires c.Running? && c0.Running? && Run(p, m, c) == c0 && Run(p, n, c0) == c1
    requires Spares(b, scope, c, c0) && Done(b0, b1, to, scope, scope1, r, innerFuel, n, c0, c1)
    requires b.slots <= b0.slots && Agree(scope, b.vars, b0.vars) && scope <= Declared(b.vars) && fuel <= m + innerFuel
    ensures Run(p, m + n, c) == c1 && Done(b, b1, to, scope, scope1, r, fuel, m + n, c, c1)
  {
    hide Run, Spares, Agree, Rel, Declared;
    RunThen(p, m, n, c, c0, c1);
    if r.Normal? || r.Broke? || r.Continued? {
      SparesThen(b, b0, scope, c, c0, c1);
    }
    if r.Broke? || r.Continued? {
      StoredAgree(r.st, b.vars, b0.vars, c1);
    }
  }

  /** After a part that may have ended normally, the jump that seals it to block
      `target`, where the builder `b2` goes on. */
  lemma Finish(p: Prog, b: Builder, b1: Builder, b2: Builder, target: nat, next: nat, to: Targets, scope: set<string>, r: Result,
               fuel: nat, n: nat, c: Cfg, c1: Cfg) returns (n2: nat, c2: Cfg)
    requires c.Running? && Run(p, n, c) == c1 && Done(b, b1, to, scope, scope, r, fuel, n, c, c1)
    requires Within(SealTo(b1, target, next), p) && AtStart(b2) && b2.cur == target && Agree(scope, b1.vars, b2.vars)
    ensures Run(p, n2, c) == c2 && n <= n2 && Done(b, b2, to, scope, scope, r, fuel, n2, c, c2)
  {
    hide Run, Within;
    if r.Normal? {
      WithinMove(SealTo(b1, target, next), Terminate(b1, Br(target)), p);
      StepTerminate(p, b1, Br(target), c1);
      c2 := Leave(p, c1, Br(target));
      n2 := n + 1;
      RunThen(p, n, 1, c, c1, c2);
    } else {
      n2, c2 := n, c1;
    }
  }

  lemma AgreeBack(scope: set<string>, v0: map<Name, nat>, v1: map<Name, nat>)
    requires Agree(scope, v0, v1) && scope <= Declared(v0)
    ensures Agree(scope, v1, v0)
  {
    forall x | x in scope
      ensures User(x) in v0
    {
      assert x in Declared(v0);
    }
  }

  /** A result whose builder table has grown the names that `Unbind` takes away. */
  lemma DoneUnbind(b: Builder, b1: Builder, to: Targets, scope: set<string>, scope1: set<string>, name: string, r: Result, outer: Env,
                   fuel: nat, n: nat, c: Cfg, c1: Cfg)
    requires c.Running? && Done(b, b1, to, scope, scope1, r, fuel, n, c, c1)
    requires name !in outer && name !in scope && scope1 == scope + {name}
    requires !r.Broke? && !r.Continued?
    ensures Done(b, b1, to, scope, scope, UnbindResult(r, name, outer), fuel, n, c, c1)
  {
    hide Spares;
  }

  /** Like `DoneThen`, for a part that ran with one more name in scope. */
  lemma DoneBound(p: Prog, b: Builder, b0: Builder, b1: Builder, to: Targets, scope: set<string>, name: string, r: Result, outer: Env,
                  fuel: nat, m: nat, n: nat, c: Cfg, c0: Cfg, c1: Cfg)
    requires c.Running? && c0.Running? && Run(p, m, c) == c0 && Run(p, n, c0) == c1
    requires Spares(b, scope, c, c0) && Done(b0, b1, to, scope + {name}, scope + {name}, r, fuel, n, c0, c1)
    requires b.slots <= b0.slots && Agree(scope, b.vars, b0.vars) && scope <= Declared(b.vars)
    requires outer.Keys == scope && name !in scope && User(name) in b0.vars && b0.vars[User(name)] >= b.slots
    ensures Run(p, m + n, c) == c1
    ensures Done(b, b1, to, scope, scope, UnbindResult(r, name, outer), fuel, m + n, c, c1)
  {
    hide Run;
    RunThen(p, m, n, c, c0, c1);
    if r.Normal? || r.Broke? || r.Continued? {
      forall k | k < b.slots && k in c.mem && Unnamed(b.vars, scope, k)
        ensures k in c1.mem && c1.mem[k] == c.mem[k]
      {
        assert Unnamed(b0.vars, scope + {name}, k) by {
          forall x | x in scope + {name} && User(x) in b0.vars
            ensures b0.vars[User(x)] != k
          {
            assert x in scope ==> x in Declared(b.vars);
          }
        }
      }
      var st := Unbind(r.st, name, outer);
      if !r.Normal? {
        assert Stored(st, b0.vars, c1);
        StoredAgree(st, b.vars, b0.vars, c1);
      }
    }
  }

  lemma LetSlot(b: Builder, s: Stmt, to: Targets, isVoid: bool)
    requires s.Let?
    ensures
      var r := LowerStmt(b, s, to, isVoid);
      User(s.name) in r.vars && r.vars[User(s.name)] >= b.slots
  {
    ExprTable(b, s.e);
  }

  // ----- all statements -----

  lemma {:induction false} SimStmt(p: Prog, b: Builder, s: Stmt, to: Targets, isVoid: bool, st: State, fuel: nat, c: Cfg) returns (n: nat, c1: Cfg)
    requires to.brk.Some? == to.cont.Some?
    requires Begins(b, st, c) && Scoped(s, st.env.Keys) && Within(LowerStmt(b, s, to, isVoid), p)
    ensures Run(p, n, c) == c1
    ensures Done(b, LowerStmt(b, s, to, isVoid), to, st.env.Keys, ScopeAfter(s, st.env.Keys),
                 Source.Exec(s, st, to.brk.Some?, isVoid, fuel), fuel, n, c, c1)
    decreases fuel, s, 2
  {
    hide Done, Begins, Within, Run, LowerExpr, Source.Exec, Scoped, Ext;
    match s
    case Let(_, _) =>
      n, c1 := SimLet(p, b, s, to, isVoid, st, fuel, c);
    case Assign(_, _) =>
      n, c1 := SimAssign(p, b, s, to, isVoid, st, fuel, c);
    case PrintStmt(_) =>
      n, c1 := SimOutput(p, b, s, to, isVoid, st, fuel, c);
    case ExprStmt(_) =>
      n, c1 := SimOutput(p, b, s, to, isVoid, st, fuel, c);
    case Block(_) =>
      n, c1 := SimBlock(p, b, s, to, isVoid, st, fuel, c);
    case If(_, _, _) =>
      n, c1 := SimIf(p, b, s, to, isVoid, st, fuel, c);
    case While(_, _) =>
      n, c1 := SimWhile(p, b, s, to, isVoid, st, fuel, c);
    case ForRange(_, _, _, _) =>
      n, c1 := SimFor(p, b, s, to, isVoid, st, fuel, c);
    case Match(_, _) =>
      n, c1 := SimMatch(p, b, s, to, isVoid, st, fuel, c);
    case Break =>
      n, c1 := SimJump(p, b, s, to, isVoid, st, fuel, c);
    case Continue =>
      n, c1 := SimJump(p, b, s, to, isVoid, st, fuel, c);
    case Return =>
      n, c1 := SimJump(p, b, s, to, isVoid, st, fuel, c);
    case ReturnExpr(_) =>
      n, c1 := SimJump(p, b, s, to, isVoid, st, fuel, c);
  }

  lemma {:induction false} SimBlock(p: Prog, b: Builder, s: Stmt, to: Targets, isVoid: bool, st: State, fuel: nat, c: Cfg) returns (n: nat, c1: Cfg)
    requires s.Block? && to.brk.Some? == to.cont.Some?
    requires Begins(b, st, c) && Scoped(s, st.env.Keys) && Within(LowerStmt(b, s, to, isVoid), p)
    ensures Run(p, n, c) == c1
    ensures Done(b, LowerStmt(b, s, to, isVoid), to, st.env.Keys, ScopeAfter(s, st.env.Keys),
                 Source.Exec(s, st, to.brk.Some?, isVoid, fuel), fuel, n, c, c1)
    decreases fuel, s, 1
  {
    hide Done, Begins, Within, Run, LowerExpr;
    n, c1 := SimSeq(p, b, s.body, to, isVoid, st, fuel, c);
  }

  lemma {:induction false} SimBody(p: Prog, b: Builder, s: Stmt, to: Targets, isVoid: bool, st: State, fuel: nat, c: Cfg) returns (n: nat, c1: Cfg)
    requires to.brk.Some? == to.cont.Some?
    requires Begins(b, st, c) && Scoped(s, st.env.Keys) && Within(LowerStmt(b, s, to, isVoid), p)
    ensures Run(p, n, c) == c1
    ensures Done(b, LowerStmt(b, s, to, isVoid), to, st.env.Keys, st.env.Keys,
                 ExecBody(s, st, to.brk.Some?, isVoid, fuel), fuel, n, c, c1)
    decreases fuel, s, 3
  {
    hide Done, Within, Run, LowerStmt;
    n, c1 := SimStmt(p, b, s, to, isVoid, st, fuel, c);
    if s.Let? {
      DoneUnbind(b, LowerStmt(b, s, to, isVoid), to, st.env.Keys, ScopeAfter(s, st.env.Keys), s.name,
                 Source.Exec(s, st, to.brk.Some?, isVoid, fuel), st.env, fuel, n, c, c1);
    }
  }

  lemma {:induction false} SimSeq(p: Prog, b: Builder, ss: seq<Stmt>, to: Targets, isVoid: bool, st: State, fuel: nat, c: Cfg) returns (n: nat, c1: Cfg)
    requires to.brk.Some? == to.cont.Some?
    requires Begins(b, st, c) && ScopedSeq(ss, st.env.Keys) && Within(LowerSeq(b, ss, to, isVoid), p)
    ensures Run(p, n, c) == c1
    ensures Done(b, LowerSeq(b, ss, to, isVoid), to, st.env.Keys, st.env.Keys,
                 ExecSeq(ss, st, to.brk.Some?, isVoid, fuel), fuel, n, c, c1)
    decreases fuel, ss, 0
  {
    hide Within, LowerStmt, Source.Exec, Ext, Spares, TableOk, Rel, Here, UnbindResult, Declared, Agree;
    if ss == [] {
      n, c1 := 0, c;
      FrameSelf(b, c);
      FrameSpares(b, st.env.Keys, c, c);
    } else {
      var scope := st.env.Keys;
      var b0 := LowerStmt(b, ss[0], to, isVoid);
      var b1 := LowerSeq(b0, ss[1..], to, isVoid);
      StmtExt(b, ss[0], to, isVoid);
      ExtCurrent(b, b0, {});
      SeqExt(b0, ss[1..], to, isVoid);
      WithinBack(b0, b1, {}, p);
      StmtTable(b, ss[0], to, isVoid, scope);
      var m, c0 := SimStmt(p, b, ss[0], to, isVoid, st, fuel, c);
      var r := Source.Exec(ss[0], st, to.brk.Some?, isVoid, fuel);
      if r.Normal? {
        RelDeclared(st.env, b.vars, c.mem);
        n, c1 := SimSeq(p, b0, ss[1..], to, isVoid, r.st, fuel, c0);
        var r1 := ExecSeq(ss[1..], r.st, to.brk.Some?, isVoid, fuel);
        if ss[0].Let? {
          LetSlot(b, ss[0], to, isVoid);
          DoneBound(p, b, b0, b1, to, scope, ss[0].name, r1, st.env, fuel, m, n, c, c0, c1);
        } else {
          DoneThen(p, b, b0, b1, to, scope, scope, r1, fuel, fuel, m, n, c, c0, c1);
        }
        n := m + n;
      } else {
        n, c1 := m, c0;
        LetNormal(ss[0], st, to.brk.Some?, isVoid, fuel);
      }
    }
  }

  lemma LetNormal(s: Stmt, st: State, inLoop: bool, isVoid: bool, fuel: nat)
    ensures s.Let? ==> Source.Exec(s, st, inLoop, isVoid, fuel).Normal?
  {
  }

  /** The builders that lowering an `if` goes through. */
  lemma {:induction false} IfStages(p: Prog, b: Builder, s: Stmt, to: Targets, isVoid: bool)
    requires b.Open() && s.If? && Within(LowerIf(b, s, to, isVoid), p)
    ensures
      var thn := |b.blocks|;
      var b0 := Append(Labels(b, 3), 3);
      var (b1, v) := LowerExpr(b0, s.cond);
      var b2 := BranchTo(b1, v, thn);
      var b3 := LowerStmt(b2, s.thn, to, isVoid);
      var b4 := SealTo(b3, thn + 2, thn + 1);
      var b5 := if s.els.Some? then LowerStmt(b4, s.els.value, to, isVoid) else b4;
      var b6 := SealTo(b5, thn + 2, thn + 2);
      && b0.Open() && b1.Open() && AtStart(b2) && AtStart(b4) && AtStart(b6)
      && b1.vars == b.vars && b2.vars == b.vars && b.slots <= b2.slots
      && Within(b0, p) && Within(b1, p) && Within(b2, p) && Within(b3, p) && Within(b4, p) && Within(b5, p) && Within(b6, p)
      && b0.slots == b.slots && b0.temps == b.temps && b0.blocks[b.cur] == b.blocks[b.cur]
  {
    hide Within, Ext, Builder.Open, LowerExpr, LowerStmt, Append, BranchTo, SealTo, Later;
    var thn := |b.blocks|;
    var b0 := Append(Labels(b, 3), 3);
    AppendShape(b, 3, 3, {thn, thn + 1, thn + 2});
    var (b1, v) := LowerExpr(b0, s.cond);
    ExprFlows(b0, s.cond);
    ExtThen(b, b0, b1, {thn, thn + 1, thn + 2});
    var b2 := BranchTo(b1, v, thn);
    BranchToShape(b, b1, v, thn, {thn, thn + 1, thn + 2}, {thn + 1, thn + 2});
    var b3 := LowerStmt(b2, s.thn, to, isVoid);
    StmtExt(b2, s.thn, to, isVoid);
    ExtThen(b, b2, b3, {thn + 1, thn + 2});
    ExtCurrent(b, b3, {thn + 1, thn + 2});
    var b4 := SealTo(b3, thn + 2, thn + 1);
    SealToShape(b, b3, thn + 2, thn + 1, {thn + 1, thn + 2}, {thn + 2});
    var b5 := if s.els.Some? then LowerStmt(b4, s.els.value, to, isVoid) else b4;
    if s.els.Some? {
      StmtExt(b4, s.els.value, to, isVoid);
      ExtThen(b, b4, b5, {thn + 2});
      ExtLater(b4, b5, {});
    } else {
      LaterRefl(b4);
    }
    ExtCurrent(b, b5, {thn + 2});
    SealToShape(b, b5, thn + 2, thn + 2, {thn + 2}, {});
    LaterWithin(b5, SealTo(b5, thn + 2, thn + 2), p);
    LaterWithin(b4, b5, p);
    LaterWithin(b3, b4, p);
    ExtLater(b2, b3, {});
    LaterWithin(b2, b3, p);
    LaterWithin(b1, b2, p);
    ExtLater(b0, b1, {});
    LaterWithin(b0, b1, p);
  }

  lemma LaterRefl(b: Builder)
    ensures Later(b, b)
  {
  }

  /** Going on, in an empty block, from a state that has kept what `b` had. */
  lemma Resume(b: Builder, b1: Builder, st: State, c: Cfg, c1: Cfg)
    requires Begins(b, st, c) && c1.Running? && Frame(b, c, c1)
    requires Keeps(b, b1, st.env.Keys) && AtStart(b1) && c1.block == b1.cur && c1.pc == 0
    ensures Begins(b1, st.(out := c1.out), c1)
  {
  }

  /** The same where nothing was called. */
  lemma ResumeQuietly(b: Builder, b1: Builder, st: State, c: Cfg, c1: Cfg)
    requires Begins(b, st, c) && c1.Running? && Frame(b, c, c1) && c1.out == c.out
    requires Keeps(b, b1, st.env.Keys) && AtStart(b1) && c1.block == b1.cur && c1.pc == 0
    ensures Begins(b1, st, c1)
  {
    Resume(b, b1, st, c, c1);
    assert st.(out := c1.out) == st;
  }

  lemma {:induction false} SimIf(p: Prog, b: Builder, s: Stmt, to: Targets, isVoid: bool, st: State, fuel: nat, c: Cfg) returns (n: nat, c4: Cfg)
    requires s.If? && to.brk.Some? == to.cont.Some?
    requires Begins(b, st, c) && Scoped(s, st.env.Keys) && Within(LowerIf(b, s, to, isVoid), p)
    ensures Run(p, n, c) == c4
    ensures Done(b, LowerIf(b, s, to, isVoid), to, st.env.Keys, st.env.Keys,
                 Source.Exec(s, st, to.brk.Some?, isVoid, fuel), fuel, n, c, c4)
    decreases fuel, s, 0
  {
    hide Done, Within, Run, LowerExpr, LowerStmt, BranchTo, SealTo, AtStart, Ext, Later, Keeps, Frame, Spares, Declared, TableOk, Rel, Eval;
    var thn, scope := |b.blocks|, st.env.Keys;
    var b0 := Append(Labels(b, 3), 3);
    var (b1, v) := LowerExpr(b0, s.cond);
    var b2 := BranchTo(b1, v, thn);
    var b3 := LowerStmt(b2, s.thn, to, isVoid);
    var b4 := SealTo(b3, thn + 2, thn + 1);
    var b5 := if s.els.Some? then LowerStmt(b4, s.els.value, to, isVoid) else b4;
    var b6 := SealTo(b5, thn + 2, thn + 2);
    BeginsReady(b, st, c);
    IfStages(p, b, s, to, isVoid);
    IfKeeps(b, b2, s, to, isVoid, scope);
    RelDeclared(st.env, b.vars, c.mem);
    var n2, c2 := SimCondition(p, b, b0, s.cond, thn, st, c);
    var st1 := st.(out := EvalIn(s.cond, st).out);
    if EvalIn(s.cond, st).n != 0 {
      Resume(b, b2, st, c, c2);
      var m, c3 := SimBody(p, b2, s.thn, to, isVoid, st1, fuel, c2);
      var r := ExecBody(s.thn, st1, to.brk.Some?, isVoid, fuel);
      DoneThen(p, b, b2, b3, to, scope, scope, r, fuel, fuel, n2, m, c, c2, c3);
      n, c4 := Finish(p, b, b3, b6, thn + 2, thn + 1, to, scope, r, fuel, n2 + m, c, c3);
    } else {
      Resume(b, b4, st, c, c2);
      if s.els.Some? {
        var m, c3 := SimBody(p, b4, s.els.value, to, isVoid, st1, fuel, c2);
        var r := ExecBody(s.els.value, st1, to.brk.Some?, isVoid, fuel);
        DoneThen(p, b, b4, b5, to, scope, scope, r, fuel, fuel, n2, m, c, c2, c3);
        n, c4 := Finish(p, b, b5, b6, thn + 2, thn + 2, to, scope, r, fuel, n2 + m, c, c3);
      } else {
        DoneNormal(b, b4, to, st1, fuel, n2, c, c2);
        n, c4 := Finish(p, b, b4, b6, thn + 2, thn + 2, to, scope, Normal(st1), fuel, n2, c, c2);
      }
    }
  }

  lemma DoneNormal(b: Builder, b1: Builder, to: Targets, st: State, fuel: nat, n: nat, c: Cfg, c1: Cfg)
    requires Begins(b1, st, c1) && c.Running? && Spares(b, st.env.Keys, c, c1)
    ensures Done(b, b1, to, st.env.Keys, st.env.Keys, Normal(st), fuel, n, c, c1)
  {
  }

  lemma {:induction false} IfKeeps(b: Builder, b2: Builder, s: Stmt, to: Targets, isVoid: bool, scope: set<string>)
    requires s.If? && Scoped(s, scope) && b2.vars == b.vars && b.slots <= b2.slots
    ensures
      var thn := |b.blocks|;
      var b3 := LowerStmt(b2, s.thn, to, isVoid);
      var b4 := SealTo(b3, thn + 2, thn + 1);
      var b5 := if s.els.Some? then LowerStmt(b4, s.els.value, to, isVoid) else b4;
      var b6 := SealTo(b5, thn + 2, thn + 2);
      && Keeps(b, b2, scope) && Keeps(b, b4, scope)
      && b.slots <= b4.slots && Agree(scope, b.vars, b2.vars) && Agree(scope, b.vars, b4.vars)
      && Agree(scope, b3.vars, b6.vars) && Agree(scope, b5.vars, b6.vars)
  {
    hide LowerStmt, TableOk, Later;
    var thn := |b.blocks|;
    var b3 := LowerStmt(b2, s.thn, to, isVoid);
    var b4 := SealTo(b3, thn + 2, thn + 1);
    KeepsSame(b, b2, scope);
    StmtTable(b2, s.thn, to, isVoid, scope);
    KeepsSame(b3, b4, scope);
    if s.els.Some? {
      StmtTable(b4, s.els.value, to, isVoid, scope);
    }
  }

  /** A condition, evaluated in `b0`, and the branch on it to `block` or the next block. */
  lemma SimCondition(p: Prog, b: Builder, b0: Builder, cond: Expr, block: nat, st: State, c: Cfg) returns (n: nat, c2: Cfg)
    requires Begins(b, st, c) && Reads(cond) <= st.env.Keys
    requires b0.Open() && Here(b0, c) && b0.vars == b.vars && b.temps <= b0.temps && b.slots <= b0.slots
    requires var (b1, v) := LowerExpr(b0, cond); Within(BranchTo(b1, v, block), p)
    ensures n >= 2 && Run(p, n, c) == c2 && c2.Running? && Frame(b, c, c2) && Spares(b, st.env.Keys, c, c2)
    ensures c2.out == EvalIn(cond, st).out
    ensures c2.pc == 0 && c2.block == if EvalIn(cond, st).n != 0 then block else block + 1
  {
    hide Within, Run, LowerExpr, Frame, Spares, BranchTo, Ext, Later;
    var (b1, v) := LowerExpr(b0, cond);
    ExprFlows(b0, cond);
    ExtMono(b0, b1, {});
    LaterWithin(b1, BranchTo(b1, v, block), p);
    BeginsReady(b, st, c);
    FrameSelf(b, c);
    var n1, c1 := SimThen(p, b, b0, cond, st.env, c, c, 0) by { assert Run(p, 0, c) == c by { RunNone(p, c); } }
    c2 := SimBranchTo(p, b1, v, EvalIn(cond, st).n, block, c1);
    n := n1 + 2;
    RunThen(p, n1, 2, c, c1, c2);
    FrameThen(b, b1, c, c1, c2);
    FrameSpares(b, st.env.Keys, c, c2);
  }

  lemma RunNone(p: Prog, c: Cfg)
    ensures Run(p, 0, c) == c
  {
  }

  // ----- while loops -----

  function LoopTargets(end: nat, cont: nat): Targets {
    Targets(Some(end), Some(cont))
  }

  /** The builders that lowering a `while` goes through. */
  lemma {:induction false} WhileStages(p: Prog, b: Builder, s: Stmt, isVoid: bool)
    requires b.Open() && s.While? && Within(LowerWhile(b, s, isVoid), p)
    ensures
      var cond := |b.blocks|;
      var b0 := Append(Labels(b, 3), 3);
      var b1 := SealTo(b0, cond, cond);
      var (b2, v) := LowerExpr(b1, s.cond);
      var b3 := BranchTo(b2, v, cond + 1);
      var b4 := LowerStmt(b3, s.loop, LoopTargets(cond + 2, cond), isVoid);
      var b5 := SealTo(b4, cond, cond + 2);
      && b0.Open() && AtStart(b1) && b2.Open() && AtStart(b3) && AtStart(b5)
      && b1.vars == b.vars && b3.vars == b.vars && b.slots <= b1.slots <= b3.slots && b1.temps <= b3.temps
      && Within(b1, p) && Within(b3, p) && Within(b4, p) && Within(b5, p)
      && b0.blocks[b.cur] == b.blocks[b.cur]
  {
    hide Within, Ext, Builder.Open, LowerExpr, LowerStmt, Append, BranchTo, SealTo, Later;
    var cond := |b.blocks|;
    var b0 := Append(Labels(b, 3), 3);
    AppendShape(b, 3, 3, {cond, cond + 1, cond + 2});
    ExtCurrent(b, b0, {cond, cond + 1, cond + 2});
    var b1 := SealTo(b0, cond, cond);
    SealToShape(b, b0, cond, cond, {cond, cond + 1, cond + 2}, {cond + 1, cond + 2});
    var (b2, v) := LowerExpr(b1, s.cond);
    ExprFlows(b1, s.cond);
    ExtThen(b, b1, b2, {cond + 1, cond + 2});
    var b3 := BranchTo(b2, v, cond + 1);
    BranchToShape(b, b2, v, cond + 1, {cond + 1, cond + 2}, {cond + 2});
    var b4 := LowerStmt(b3, s.loop, LoopTargets(cond + 2, cond), isVoid);
    StmtExt(b3, s.loop, LoopTargets(cond + 2, cond), isVoid);
    ExtThen(b, b3, b4, {cond + 2});
    ExtCurrent(b, b4, {cond + 2});
    SealToShape(b, b4, cond, cond + 2, {cond + 2}, {});
    LaterWithin(b4, SealTo(b4, cond, cond + 2), p);
    ExtLater(b3, b4, {});
    LaterWithin(b3, b4, p);
    LaterWithin(b2, b3, p);
    ExtLater(b1, b2, {});
    LaterWithin(b1, b2, p);
    LaterWithin(b0, b1, p);
  }

  lemma {:induction false} SimWhile(p: Prog, b: Builder, s: Stmt, to: Targets, isVoid: bool, st: State, fuel: nat, c: Cfg) returns (n: nat, c2: Cfg)
    requires s.While? && Begins(b, st, c) && Scoped(s, st.env.Keys) && Within(LowerWhile(b, s, isVoid), p)
    ensures Run(p, n, c) == c2
    ensures Done(b, LowerWhile(b, s, isVoid), to, st.env.Keys, st.env.Keys,
                 Source.Exec(s, st, to.brk.Some?, isVoid, fuel), fuel, n, c, c2)
    decreases fuel, s, 1
  {
    hide Done, Within, Run, LowerExpr, LowerStmt, BranchTo, AtStart, Ext, Later, Keeps, Frame, Spares, Declared, TableOk, Rel, Eval;
    var cond, scope := |b.blocks|, st.env.Keys;
    var b0 := Append(Labels(b, 3), 3);
    var b1 := SealTo(b0, cond, cond);
    BeginsReady(b, st, c);
    WhileStages(p, b, s, isVoid);
    WithinMove(b1, Terminate(b0, Br(cond)), p);
    StepTerminate(p, b0, Br(cond), c);
    var c1 := Leave(p, c, Br(cond));
    FrameSelf(b, c);
    FrameJump(b, c, c, c1);
    FrameSpares(b, scope, c, c1);
    KeepsSame(b, b1, scope);
    ResumeQuietly(b, b1, st, c, c1);
    RelDeclared(st.env, b.vars, c.mem);
    var m;
    m, c2 := SimLoop(p, b, s, to.brk.Some?, isVoid, st, fuel, c1);
    LoopResult(s, st, to.brk.Some?, isVoid, fuel);
    DoneTargets(b1, LowerWhile(b, s, isVoid), LoopTargets(0, 0), to, scope, scope,
                Source.Exec(s, st, to.brk.Some?, isVoid, fuel), fuel, m, c1, c2);
    assert Agree(scope, b.vars, b1.vars) by { AgreeSame(scope, b.vars); }
    DoneThen(p, b, b1, LowerWhile(b, s, isVoid), to, scope, scope,
             Source.Exec(s, st, to.brk.Some?, isVoid, fuel), fuel, fuel, 1, m, c, c1, c2);
    n := 1 + m;
  }

  lemma AgreeSame(scope: set<string>, vars: map<Name, nat>)
    ensures Agree(scope, vars, vars)
  {
  }

  /** A loop as a whole never breaks or continues an enclosing one. */
  lemma {:induction false} LoopResult(s: Stmt, st: State, inLoop: bool, isVoid: bool, fuel: nat)
    requires s.While?
    ensures var r := Source.Exec(s, st, inLoop, isVoid, fuel); !r.Broke? && !r.Continued?
    decreases fuel
  {
    hide Eval;
    var v := EvalIn(s.cond, st);
    if v.n != 0 && fuel > 0 {
      var r := ExecBody(s.loop, st.(out := v.out), true, isVoid, fuel);
      if r.Normal? || r.Continued? {
        LoopResult(s, r.st, inLoop, isVoid, fuel - 1);
      }
    }
  }

  /** Only a result that breaks or continues depends on the targets. */
  lemma DoneTargets(b: Builder, b1: Builder, to0: Targets, to: Targets, scope: set<string>, scope1: set<string>, r: Result, fuel: nat,
                    n: nat, c: Cfg, c1: Cfg)
    requires c.Running? && Done(b, b1, to0, scope, scope1, r, fuel, n, c, c1) && !r.Broke? && !r.Continued?
    ensures Done(b, b1, to, scope, scope1, r, fuel, n, c, c1)
  {
  }

  /** From the start of the condition block, by induction on the iterations. */
  lemma {:induction false} SimLoop(p: Prog, b: Builder, s: Stmt, inLoop: bool, isVoid: bool, st: State, fuel: nat, c: Cfg) returns (n: nat, c4: Cfg)
    requires b.Open() && s.While? && Scoped(s, st.env.Keys) && Within(LowerWhile(b, s, isVoid), p)
    requires var cond := |b.blocks|; Begins(SealTo(Append(Labels(b, 3), 3), cond, cond), st, c) && c.block == cond && c.pc == 0
    ensures Run(p, n, c) == c4
    ensures
      var cond := |b.blocks|;
      Done(SealTo(Append(Labels(b, 3), 3), cond, cond), LowerWhile(b, s, isVoid), LoopTargets(0, 0), st.env.Keys, st.env.Keys,
           Source.Exec(s, st, inLoop, isVoid, fuel), fuel, n, c, c4)
    decreases fuel, s, 0
  {
    hide Done, Within, Run, LowerExpr, LowerStmt, SealTo, BranchTo, AtStart, Ext, Later, Keeps, Frame, Spares, Declared, TableOk, Rel, Eval, Append, Agree;
    var cond, scope := |b.blocks|, st.env.Keys;
    var to := LoopTargets(cond + 2, cond);
    var b0 := Append(Labels(b, 3), 3);
    var b1 := SealTo(b0, cond, cond);
    var (b2, v) := LowerExpr(b1, s.cond);
    var b3 := BranchTo(b2, v, cond + 1);
    var b4 := LowerStmt(b3, s.loop, to, isVoid);
    var b5 := SealTo(b4, cond, cond + 2);
    WhileStages(p, b, s, isVoid);
    BeginsReady(b1, st, c);
    RelDeclared(st.env, b1.vars, c.mem);
    var n2, c2 := SimCondition(p, b1, b1, s.cond, cond + 1, st, c);
    StmtTable(b3, s.loop, to, isVoid, scope);
    WhileKeeps(b1, b3, b4, b5, scope);
    var st1 := st.(out := EvalIn(s.cond, st).out);
    if EvalIn(s.cond, st).n == 0 {
      Resume(b1, b5, st, c, c2);
      DoneNormal(b1, b5, LoopTargets(0, 0), st1, fuel, n2, c, c2);
      n, c4 := n2, c2;
    } else if fuel == 0 {
      n, c4 := n2, c2;
      DoneTimeOut(b1, b5, LoopTargets(0, 0), scope, fuel, n, c, c4);
    } else {
      Resume(b1, b3, st, c, c2);
      var m, c3 := SimBody(p, b3, s.loop, to, isVoid, st1, fuel, c2);
      var r := ExecBody(s.loop, st1, true, isVoid, fuel);
      DoneThen(p, b1, b3, b4, to, scope, scope, r, fuel, fuel, n2, m, c, c2, c3);
      var n4, c5 := Finish(p, b1, b4, b1, cond, cond + 2, to, scope, r, fuel, n2 + m, c, c3);
      if r.Normal? || r.Continued? {
        Again(b1, to, r, fuel, n4, c, c5, cond, scope);
        var k;
        k, c4 := SimLoop(p, b, s, inLoop, isVoid, r.st, fuel - 1, c5);
        DoneThen(p, b1, b1, b5, LoopTargets(0, 0), scope, scope, Source.Exec(s, r.st, inLoop, isVoid, fuel - 1), fuel, fuel - 1, n4, k, c, c5, c4);
        n := n4 + k;
      } else {
        n, c4 := n4, c5;
        LoopLeft(b1, b5, to, r, fuel, n, c, c4, scope);
      }
    }
  }

  lemma WhileKeeps(b1: Builder, b3: Builder, b4: Builder, b5: Builder, scope: set<string>)
    requires b3.vars == b1.vars && b1.slots <= b3.slots && Keeps(b3, b4, scope) && b5.vars == b4.vars && b4.slots <= b5.slots
    requires scope <= Declared(b1.vars)
    ensures Keeps(b1, b3, scope) && Keeps(b1, b5, scope) && Agree(scope, b1.vars, b3.vars) && Agree(scope, b4.vars, b1.vars)
    ensures Agree(scope, b1.vars, b1.vars)
  {
    AgreeBack(scope, b1.vars, b4.vars);
  }

  lemma DoneTimeOut(b: Builder, b1: Builder, to: Targets, scope: set<string>, fuel: nat, n: nat, c: Cfg, c1: Cfg)
    requires c.Running? && c1.Running? && n >= fuel
    ensures Done(b, b1, to, scope, scope, TimeOut, fuel, n, c, c1)
  {
  }

  /** An iteration that ended normally or continued is back where the next begins. */
  lemma Again(b1: Builder, to: Targets, r: Result, fuel: nat, n: nat, c: Cfg, c1: Cfg, cond: nat, scope: set<string>)
    requires c.Running? && Done(b1, b1, to, scope, scope, r, fuel, n, c, c1) && (r.Normal? || r.Continued?)
    requires AtStart(b1) && b1.cur == cond && to.cont == Some(cond) && TableOk(b1.vars, b1.slots)
    ensures Begins(b1, r.st, c1) && c1.block == cond && c1.pc == 0 && r.st.env.Keys == scope && Spares(b1, scope, c, c1)
  {
  }

  /** An iteration that broke out, returned or ran out of budget ends the loop. */
  lemma LoopLeft(b1: Builder, b5: Builder, to: Targets, r: Result, fuel: nat, n: nat, c: Cfg, c1: Cfg, scope: set<string>)
    requires c.Running? && Done(b1, b1, to, scope, scope, r, fuel, n, c, c1) && !r.Normal? && !r.Continued?
    requires AtStart(b5) && to.brk == Some(b5.cur) && Agree(scope, b1.vars, b5.vars)
    ensures Done(b1, b5, LoopTargets(0, 0), scope, scope, if r.Broke? then Normal(r.st) else r, fuel, n, c, c1)
  {
  }

  // ----- range loops -----

  lemma ForHeadStages(p: Prog, b: Builder, s: Stmt)
    requires b.Open() && s.ForRange? && Within(LowerForHead(b, s.name, s.from, s.to).0, p)
    ensures
      var cond := |b.blocks|;
      var b0 := Append(Labels(b, 4), 4);
      var (b1, v1) := LowerExpr(b0, s.from);
      var (b2, v2) := LowerExpr(b1, s.to);
      var b3 := Define(b2, User(s.name), v1);
      var b4 := Define(Labels(b3, 1), LoopEnd(s.name, b3.labels), v2);
      && b0.Open() && b1.Open() && b2.Open() && b3.Open() && b4.Open() && AtStart(SealTo(b4, cond, cond))
      && b1.vars == b.vars && b2.vars == b.vars
      && b.slots <= b1.slots <= b2.slots && b.temps <= b1.temps <= b2.temps
      && Within(b1, p) && Within(b2, p) && Within(b3, p) && Within(b4, p)
  {
    hide Within, Ext, LowerExpr, Append, SealTo, Define, Later, AtStart;
    var cond := |b.blocks|;
    var b0 := Append(Labels(b, 4), 4);
    AppendShape(b, 4, 4, {cond, cond + 1, cond + 2, cond + 3});
    var (b1, v1) := LowerExpr(b0, s.from);
    ExprFlows(b0, s.from);
    ExtMono(b0, b1, {});
    var (b2, v2) := LowerExpr(b1, s.to);
    ExprFlows(b1, s.to);
    ExtMono(b1, b2, {});
    var b3 := Define(b2, User(s.name), v1);
    var b4 := Define(Labels(b3, 1), LoopEnd(s.name, b3.labels), v2);
    ForHeadShape(b, s.name, s.from, s.to);
    LaterWithin(b4, SealTo(b4, cond, cond), p);
    WithinBack(Labels(b3, 1), b4, {}, p);
    WithinMove(Labels(b3, 1), b3, p);
    WithinBack(b2, b3, {}, p);
    WithinBack(b1, b2, {}, p);
  }

  /** Evaluating the bounds and naming the iterator and the limit. */
  lemma SimForHead(p: Prog, b: Builder, s: Stmt, st: State, c: Cfg) returns (n: nat, c5: Cfg)
    requires s.ForRange? && Begins(b, st, c) && Scoped(s, st.env.Keys)
    requires Within(LowerForHead(b, s.name, s.from, s.to).0, p)
    ensures Run(p, n, c) == c5
    ensures
      var (r, end) := LowerForHead(b, s.name, s.from, s.to);
      var x := EvalIn(s.from, st);
      var y := Eval(s.to, st.env, x.out);
      && Begins(r, Bind(st.(out := y.out), s.name, x.n), c5) && c5.block == |b.blocks| && c5.pc == 0
      && HasLimit(r, end, y.n, c5)
      && Spares(b, st.env.Keys, c, c5)
  {
    hide Within, Run, LowerExpr, Ext, Later, Frame, Spares, Eval, Append, Emit, Here, Bind;
    var cond := |b.blocks|;
    var b0 := Append(Labels(b, 4), 4);
    var (b1, v1) := LowerExpr(b0, s.from);
    var (b2, v2) := LowerExpr(b1, s.to);
    var b3 := Define(b2, User(s.name), v1);
    var end := LoopEnd(s.name, b3.labels);
    var b4 := Define(Labels(b3, 1), end, v2);
    ForHeadStages(p, b, s);
    BeginsReady(b, st, c);
    FrameSelf(b, c);
    assert Run(p, 0, c) == c by { RunNone(p, c); }
    assert Here(b0, c) by { HereAppend(b, 4, 4, c); }
    var n1, c1 := SimThen(p, b, b0, s.from, st.env, c, c, 0);
    var n2, c2 := SimThen(p, b, b1, s.to, st.env, c, c1, n1);
    var x := EvalIn(s.from, st);
    var y := Eval(s.to, st.env, x.out);
    HoldsKept(p, b1, b2, c1, c2, v1, x.n);
    var c3 := SimDefine(p, b2, User(s.name), v1, x.n, c2);
    RunThen(p, n2, 2, c, c2, c3);
    FrameSet(b, c, c2, c3, b2.slots, x.n);
    assert Here(Labels(b3, 1), c3) by { HereAppend(b3, 1, 0, c3); }
    var c4 := SimDefine(p, Labels(b3, 1), end, v2, y.n, c3);
    RunThen(p, n2 + 2, 2, c, c3, c4);
    FrameSet(b, c, c3, c4, b3.slots, y.n);
    WithinMove(SealTo(b4, cond, cond), Terminate(b4, Br(cond)), p);
    StepTerminate(p, b4, Br(cond), c4);
    c5 := Leave(p, c4, Br(cond));
    n := n2 + 2 + 2 + 1;
    RunThen(p, n2 + 2 + 2, 1, c, c4, c5);
    FrameJump(b, c, c4, c5);
    FrameSpares(b, st.env.Keys, c, c5);
    ForHeadTable(b, s.name, s.from, s.to, st.env.Keys);
    StartHere(SealTo(b4, cond, cond), c5);
    ForHeadStored(b, b2, s.name, end, x.n, y.n, st, c, c2, c5);
  }

  lemma HereAppend(b: Builder, labels: nat, n: nat, c: Cfg)
    requires Here(b, c)
    ensures Here(Append(Labels(b, labels), n), c) && Here(Labels(b, labels), c)
  {
  }

  /** The limit of a range loop sits in the slot of its hidden name. */
  ghost predicate HasLimit(b: Builder, end: Name, limit: int, c: Cfg) {
    c.Running? && end.LoopEnd? && end in b.vars && b.vars[end] in c.mem && c.mem[b.vars[end]] == limit
  }

  lemma ForHeadStored(b: Builder, b2: Builder, x: string, end: Name, from: int, limit: int, st: State, c: Cfg, c2: Cfg, c5: Cfg)
    requires Begins(b, st, c) && c2.Running? && c5.Running? && Frame(b, c, c2) && b2.vars == b.vars && b.slots <= b2.slots
    requires x !in st.env && end.LoopEnd?
    requires c5.mem == c2.mem[b2.slots := from][b2.slots + 1 := limit]
    ensures Stored(Bind(st.(out := c5.out), x, from), b.vars[User(x) := b2.slots][end := b2.slots + 1], c5)
  {
    RelKept(st.env, b, c, c2);
    forall y | y in st.env
      ensures c5.mem[b.vars[User(y)]] == st.env[y]
    {
      assert b.vars[User(y)] < b.slots;
    }
  }

  /** The builders that lowering a range loop goes through after its head. */
  lemma {:induction false} ForStages(p: Prog, b: Builder, s: Stmt, isVoid: bool)
    requires b.Open() && s.ForRange? && Within(LowerFor(b, s, isVoid), p)
    ensures
      var cond, x := |b.blocks|, User(s.name);
      var (b1, limit) := LowerForHead(b, s.name, s.from, s.to);
      var b2 := LowerForTest(b1, x, limit, cond + 1, cond + 3);
      var b3 := LowerStmt(b2, s.loop, LoopTargets(cond + 3, cond + 2), isVoid);
      var b4 := SealTo(b3, cond + 2, cond + 2);
      var b5 := LowerForStep(b4, x, cond, cond + 3);
      && AtStart(b1) && AtStart(b2) && AtStart(b4) && AtStart(b5)
      && b1.cur == cond && b2.cur == cond + 1 && b5.cur == cond + 3
      && b2.vars == b1.vars && b5.vars == b4.vars && b1.slots <= b2.slots && b4.slots <= b5.slots && b.slots <= b1.slots
      && Within(b1, p) && Within(b2, p) && Within(b3, p) && Within(b4, p)
  {
    hide Within, Ext, AtStart, LowerForHead, LowerForTest, LowerForStep, LowerStmt, SealTo, Later;
    var cond, x := |b.blocks|, User(s.name);
    var (b1, limit) := LowerForHead(b, s.name, s.from, s.to);
    ForHeadShape(b, s.name, s.from, s.to);
    ExtMono(b, b1, {cond + 1, cond + 2, cond + 3});
    StartOpen(b1);
    var b2 := LowerForTest(b1, x, limit, cond + 1, cond + 3);
    ForTestShape(b, b1, x, limit, cond + 1, cond + 3, {cond + 1, cond + 2, cond + 3}, {cond + 2, cond + 3});
    StartOpen(b2);
    var to := LoopTargets(cond + 3, cond + 2);
    var b3 := LowerStmt(b2, s.loop, to, isVoid);
    StmtExt(b2, s.loop, to, isVoid);
    ExtThen(b, b2, b3, {cond + 2, cond + 3});
    ExtCurrent(b, b3, {cond + 2, cond + 3});
    var b4 := SealTo(b3, cond + 2, cond + 2);
    SealToShape(b, b3, cond + 2, cond + 2, {cond + 2, cond + 3}, {cond + 3});
    StartOpen(b4);
    ForStepShape(b, b4, x, cond, cond + 3);
    LaterWithin(b4, LowerForStep(b4, x, cond, cond + 3), p);
    LaterWithin(b3, b4, p);
    ExtLater(b2, b3, {});
    LaterWithin(b2, b3, p);
    LaterWithin(b1, b2, p);
  }

  /** One test of a range loop, from the start of its block. */
  lemma SimForTest(p: Prog, b: Builder, x: string, end: Name, limit: int, body: nat, after: nat, st: State, c: Cfg) returns (n: nat, c4: Cfg)
    requires Begins(b, st, c) && x in st.env && HasLimit(b, end, limit, c) && Within(LowerForTest(b, User(x), end, body, after), p)
    ensures n >= 1 && Run(p, n, c) == c4
    ensures c4.Running? && c4.pc == 0 && c4.block == (if st.env[x] < limit then body else after)
    ensures c4.mem == c.mem && c4.out == c.out && Frame(b, c, c4)
  {
    hide Within, Run, Ext, Later, Frame, EmitLoad, EmitCompare, Branch;
    var (b1, vi) := EmitLoad(b, SlotOf(b.vars, User(x)));
    var (b2, vl) := EmitLoad(b1, SlotOf(b.vars, end));
    var (b3, v) := EmitCompare(b2, Lt, vi, vl);
    WithinMove(LowerForTest(b, User(x), end, body, after), Branch(b3, v, body, after), p);
    WithinBack(b3, Branch(b3, v, body, after), {}, p);
    WithinBack(b2, b3, {}, p);
    WithinBack(b1, b2, {}, p);
    ExtMono(b, b1, {});
    ExtMono(b1, b2, {});
    ExtMono(b2, b3, {});
    var c1 := SimLoad(p, b, SlotOf(b.vars, User(x)), st.env[x], c);
    var c2 := SimLoad(p, b1, SlotOf(b.vars, end), limit, c1);
    RunThen(p, 1, 1, c, c1, c2);
    FrameThen(b, b1, c, c1, c2);
    HoldsKept(p, b1, b2, c1, c2, vi, st.env[x]);
    var c3 := SimCompare(p, b2, Lt, vi, vl, st.env[x], limit, c2);
    RunThen(p, 2, 2, c, c2, c3);
    FrameThen(b, b2, c, c2, c3);
    c4 := SimBranch(p, b3, v, Flag(st.env[x] < limit), body, after, c3);
    n := 6;
    RunThen(p, 4, 2, c, c3, c4);
    FrameThen(b, b3, c, c3, c4);
  }

  /** The step of a range loop, from the start of its block. */
  lemma SimForStep(p: Prog, b: Builder, x: string, cond: nat, end: nat, st: State, c: Cfg) returns (n: nat, c4: Cfg)
    requires Begins(b, st, c) && x in st.env && Within(LowerForStep(b, User(x), cond, end), p)
    ensures n >= 1 && Run(p, n, c) == c4
    ensures c4.Running? && c4.pc == 0 && c4.block == cond && c4.out == c.out
    ensures c4.mem == c.mem[b.vars[User(x)] := Apply(Add, st.env[x], 1)]
  {
    hide Within, Run, Ext, Later, EmitLoad, EmitBin, Terminate, Emit, Apply;
    var slot := SlotOf(b.vars, User(x));
    var (b1, vi) := EmitLoad(b, slot);
    var (b2, vn) := EmitBin(b1, Add, vi, Const(1));
    var b3 := Emit(b2, Store(vn, slot));
    WithinMove(LowerForStep(b, User(x), cond, end), Terminate(b3, Br(cond)), p);
    WithinBack(b3, Terminate(b3, Br(cond)), {}, p);
    WithinBack(b2, b3, {}, p);
    WithinBack(b1, b2, {}, p);
    var c1 := SimLoad(p, b, slot, st.env[x], c);
    var c2 := SimBin(p, b1, Add, vi, Const(1), st.env[x], 1, c1);
    RunThen(p, 1, 1, c, c1, c2);
    var c3 := SimStore(p, b2, vn, Apply(Add, st.env[x], 1), slot, c2);
    RunThen(p, 2, 1, c, c2, c3);
    StepTerminate(p, b3, Br(cond), c3);
    c4 := Leave(p, c3, Br(cond));
    n := 4;
    RunThen(p, 3, 1, c, c3, c4);
  }

  /** What the builders of a range loop keep of the names in scope. */
  lemma {:induction false} ForKeeps(b: Builder, s: Stmt, isVoid: bool, scope: set<string>)
    requires s.ForRange? && Scoped(s, scope)
    requires
      var cond, x := |b.blocks|, User(s.name);
      var (b1, limit) := LowerForHead(b, s.name, s.from, s.to);
      b1.slots <= LowerForTest(b1, x, limit, cond + 1, cond + 3).slots && LowerForTest(b1, x, limit, cond + 1, cond + 3).vars == b1.vars
    ensures
      var cond, x, in_ := |b.blocks|, User(s.name), scope + {s.name};
      var (b1, limit) := LowerForHead(b, s.name, s.from, s.to);
      var b2 := LowerForTest(b1, x, limit, cond + 1, cond + 3);
      var b3 := LowerStmt(b2, s.loop, LoopTargets(cond + 3, cond + 2), isVoid);
      var b4 := SealTo(b3, cond + 2, cond + 2);
      && Keeps(b1, b2, in_) && Keeps(b1, b4, in_) && Agree(in_, b3.vars, b4.vars) && Agree(in_, b1.vars, b2.vars) && Agree(in_, b1.vars, b4.vars)
      && b1.slots <= b2.slots
  {
    hide LowerStmt, LowerForHead, LowerForTest, TableOk, Later;
    var cond, x, in_ := |b.blocks|, User(s.name), scope + {s.name};
    var (b1, limit) := LowerForHead(b, s.name, s.from, s.to);
    var b2 := LowerForTest(b1, x, limit, cond + 1, cond + 3);
    KeepsSame(b1, b2, in_);
    StmtTable(b2, s.loop, LoopTargets(cond + 3, cond + 2), isVoid, in_);
  }

  /** After the step, the next iteration begins; the limit is untouched. */
  lemma NextIteration(b1: Builder, b4: Builder, x: string, end: Name, limit: int, st: State, c: Cfg, c1: Cfg, c2: Cfg)
    requires c.Running? && c2.Running? && AtStart(b1) && TableOk(b1.vars, b1.slots) && HasLimit(b1, end, limit, c)
    requires Begins(b4, st, c1) && x in st.env && Spares(b1, st.env.Keys, c, c1)
    requires Agree(st.env.Keys, b1.vars, b4.vars) && st.env.Keys <= Declared(b1.vars)
    requires c2.block == b1.cur && c2.pc == 0 && c2.out == c1.out && c2.mem == c1.mem[b4.vars[User(x)] := Apply(Add, st.env[x], 1)]
    ensures Begins(b1, Bind(st, x, Apply(Add, st.env[x], 1)), c2) && HasLimit(b1, end, limit, c2)
    ensures Spares(b1, st.env.Keys, c, c2)
  {
    hide Apply;
    AgreeBack(st.env.Keys, b1.vars, b4.vars);
    assert forall y :: y in st.env ==> User(y) in b1.vars && b1.vars[User(y)] == b4.vars[User(y)];
    assert Unnamed(b1.vars, st.env.Keys, b1.vars[end]);
  }

  lemma {:induction false} SimForLoop(p: Prog, b: Builder, s: Stmt, isVoid: bool, limit: int, scope: set<string>, st: State, fuel: nat, c: Cfg)
    returns (n: nat, c5: Cfg)
    requires b.Open() && s.ForRange? && Scoped(s, scope) && st.env.Keys == scope + {s.name} && Within(LowerFor(b, s, isVoid), p)
    requires
      var (b1, end) := LowerForHead(b, s.name, s.from, s.to);
      Begins(b1, st, c) && HasLimit(b1, end, limit, c) && c.block == |b.blocks| && c.pc == 0
    ensures Run(p, n, c) == c5
    ensures
      Done(LowerForHead(b, s.name, s.from, s.to).0, LowerFor(b, s, isVoid), LoopTargets(0, 0), scope + {s.name}, scope + {s.name},
           ExecFor(s.name, limit, s.loop, st, isVoid, fuel), fuel, n, c, c5)
    decreases fuel, s, 0
  {
    hide Done, Begins, Within, Run, LowerForHead, LowerForTest, LowerForStep, LowerStmt, SealTo, AtStart, Ext, Later, Keeps, Frame, Spares, Declared, TableOk, Rel, Agree, HasLimit, Bind, Apply;
    var cond, in_ := |b.blocks|, scope + {s.name};
    var to := LoopTargets(cond + 3, cond + 2);
    var (b1, end) := LowerForHead(b, s.name, s.from, s.to);
    var b2 := LowerForTest(b1, User(s.name), end, cond + 1, cond + 3);
    var b3 := LowerStmt(b2, s.loop, to, isVoid);
    var b4 := SealTo(b3, cond + 2, cond + 2);
    var b5 := LowerForStep(b4, User(s.name), cond, cond + 3);
    ForStages(p, b, s, isVoid);
    ForKeeps(b, s, isVoid, scope);
    BeginsFacts(b1, st, c);
    var n2, c2 := SimForTest(p, b1, s.name, end, limit, cond + 1, cond + 3, st, c);
    FrameSpares(b1, in_, c, c2);
    if st.env[s.name] >= limit {
      KeepsSame(b4, b5, in_);
      KeepsThen(b1, b4, b5, in_);
      ResumeQuietly(b1, b5, st, c, c2);
      DoneNormal(b1, b5, LoopTargets(0, 0), st, fuel, n2, c, c2);
      n, c5 := n2, c2;
    } else if fuel == 0 {
      n, c5 := n2, c2;
      DoneTimeOut(b1, b5, LoopTargets(0, 0), in_, fuel, n, c, c5);
    } else {
      ResumeQuietly(b1, b2, st, c, c2);
      var m, c3 := SimBody(p, b2, s.loop, to, isVoid, st, fuel, c2);
      var r := ExecBody(s.loop, st, true, isVoid, fuel);
      DoneThen(p, b1, b2, b3, to, in_, in_, r, fuel, fuel, n2, m, c, c2, c3);
      var n4, c4 := Finish(p, b1, b3, b4, cond + 2, cond + 2, to, in_, r, fuel, n2 + m, c, c3);
      if r.Normal? || r.Continued? {
        AtStep(b1, b4, to, r, fuel, n4, c, c4, in_);
        var k, c6 := SimForStep(p, b4, s.name, cond, cond + 3, r.st, c4);
        RunThen(p, n4, k, c, c4, c6);
        NextIteration(b1, b4, s.name, end, limit, r.st, c, c4, c6);
        var st1 := Bind(r.st, s.name, Apply(Add, Get(r.st.env, s.name), 1));
        BindKeys(r.st, s.name, Apply(Add, Get(r.st.env, s.name), 1));
        var j;
        j, c5 := SimForLoop(p, b, s, isVoid, limit, scope, st1, fuel - 1, c6);
        AgreeSame(in_, b1.vars);
        DoneThen(p, b1, b1, b5, LoopTargets(0, 0), in_, in_, ExecFor(s.name, limit, s.loop, st1, isVoid, fuel - 1), fuel, fuel - 1, n4 + k, j, c, c6, c5);
        n := n4 + k + j;
      } else {
        n, c5 := n4, c4;
        StepLeft(b1, b4, b5, to, r, fuel, n, c, c5, in_);
      }
    }
  }

  lemma BindKeys(st: State, x: string, v: int)
    requires x in st.env
    ensures Bind(st, x, v).env.Keys == st.env.Keys
  {
  }

  lemma BeginsFacts(b: Builder, st: State, c: Cfg)
    requires Begins(b, st, c)
    ensures c.Running? && TableOk(b.vars, b.slots) && st.env.Keys <= Declared(b.vars)
  {
    RelDeclared(st.env, b.vars, c.mem);
  }

  /** An iteration that ended normally or continued is at the step. */
  lemma AtStep(b1: Builder, b4: Builder, to: Targets, r: Result, fuel: nat, n: nat, c: Cfg, c1: Cfg, scope: set<string>)
    requires c.Running? && Done(b1, b4, to, scope, scope, r, fuel, n, c, c1) && (r.Normal? || r.Continued?)
    requires AtStart(b4) && to.cont == Some(b4.cur) && TableOk(b1.vars, b1.slots) && Keeps(b1, b4, scope)
    ensures Begins(b4, r.st, c1) && r.st.env.Keys == scope && Spares(b1, scope, c, c1)
  {
  }

  lemma StepLeft(b1: Builder, b4: Builder, b5: Builder, to: Targets, r: Result, fuel: nat, n: nat, c: Cfg, c1: Cfg, scope: set<string>)
    requires c.Running? && Done(b1, b4, to, scope, scope, r, fuel, n, c, c1) && !r.Normal? && !r.Continued?
    requires AtStart(b5) && to.brk == Some(b5.cur) && Agree(scope, b1.vars, b4.vars) && b5.vars == b4.vars
    ensures Done(b1, b5, LoopTargets(0, 0), scope, scope, if r.Broke? then Normal(r.st) else r, fuel, n, c, c1)
  {
  }

  lemma {:induction false} SimFor(p: Prog, b: Builder, s: Stmt, to: Targets, isVoid: bool, st: State, fuel: nat, c: Cfg) returns (n: nat, c2: Cfg)
    requires s.ForRange? && Begins(b, st, c) && Scoped(s, st.env.Keys) && Within(LowerFor(b, s, isVoid), p)
    ensures Run(p, n, c) == c2
    ensures Done(b, LowerFor(b, s, isVoid), to, st.env.Keys, st.env.Keys,
                 Source.Exec(s, st, to.brk.Some?, isVoid, fuel), fuel, n, c, c2)
    decreases fuel, s, 1
  {
    hide Done, Within, Run, LowerForHead, LowerFor, AtStart, Ext, Later, Frame, Spares, TableOk, Rel, Eval, Declared, Agree, HasLimit, ExecFor, Here;
    var scope := st.env.Keys;
    var b5 := LowerFor(b, s, isVoid);
    var (b1, end) := LowerForHead(b, s.name, s.from, s.to);
    BeginsFacts(b, st, c);
    ForStages(p, b, s, isVoid);
    var m, c1 := SimForHead(p, b, s, st, c);
    var x := EvalIn(s.from, st);
    var y := Eval(s.to, st.env, x.out);
    var st1 := Bind(st.(out := y.out), s.name, x.n);
    var k;
    k, c2 := SimForLoop(p, b, s, isVoid, y.n, scope, st1, fuel, c1);
    var r := ExecFor(s.name, y.n, s.loop, st1, isVoid, fuel);
    ForResult(s.name, y.n, s.loop, st1, isVoid, fuel);
    DoneTargets(b1, b5, LoopTargets(0, 0), to, scope + {s.name}, scope + {s.name}, r, fuel, k, c1, c2);
    ForHeadTable(b, s.name, s.from, s.to, scope);
    DoneBound(p, b, b1, b5, to, scope, s.name, r, st.env, fuel, m, k, c, c1, c2);
    n := m + k;
  }

  lemma {:induction false} ForResult(x: string, limit: int, body: Stmt, st: State, isVoid: bool, fuel: nat)
    ensures var r := ExecFor(x, limit, body, st, isVoid, fuel); !r.Broke? && !r.Continued?
    decreases fuel
  {
    if Get(st.env, x) < limit && fuel > 0 {
      var r := ExecBody(body, st, true, isVoid, fuel);
      if r.Normal? || r.Continued? {
        ForResult(x, limit, body, Bind(r.st, x, Apply(Add, Get(r.st.env, x), 1)), isVoid, fuel - 1);
      }
    }
  }

  // ----- match -----

  /** The body that the arms from `i` on select, `dflt` being the wildcard already met. */
  function Chosen(arms: seq<Arm>, i: nat, dflt: Option<nat>, v: int, st: State): Choice
    requires i <= |arms| && (dflt.Some? ==> dflt.value < |arms|)
  {
    if dflt.Some? then Choice(Some(arms[dflt.value].body), st.out) else Select(arms[i..], v, st.env, st.out)
  }

  function ExecChosen(chosen: Choice, st: State, inLoop: bool, isVoid: bool, fuel: nat): Result {
    if chosen.body.None? then Normal(st.(out := chosen.out))
    else ExecBody(chosen.body.value, st.(out := chosen.out), inLoop, isVoid, fuel)
  }

  /** Comparing the subject with a pattern. */
  lemma SimTest(p: Prog, b: Builder, v: Val, value: int, pattern: Expr, st: State, c: Cfg) returns (n: nat, c3: Cfg)
    requires Begins(b, st, c) && Holds(p, b, c, v, value) && Reads(pattern) <= st.env.Keys && Within(LowerTest(b, v, pattern), p)
    ensures Run(p, n, c) == c3 && c3.Running? && c3.pc == 0
    ensures c3.block == |b.blocks| + if EvalIn(pattern, st).n == value then 0 else 1
    ensures c3.out == EvalIn(pattern, st).out && Frame(b, c, c3)
  {
    hide Within, Run, LowerExpr, Ext, Later, Frame, BranchTo, EmitCompare, Append, Eval;
    var b0 := Append(Labels(b, 2), 2);
    var (b1, w) := LowerExpr(b0, pattern);
    assert Here(b0, c) by { HereAppend(b, 2, 2, c); }
    AppendShape(b, 2, 2, {|b.blocks|, |b.blocks| + 1});
    ExprFlows(b0, pattern);
    ExtMono(b0, b1, {});
    var (b2, t) := EmitCompare(b1, Eq, v, w);
    LaterWithin(b2, BranchTo(b2, t, |b.blocks|), p);
    WithinBack(b1, b2, {}, p);
    ExtMono(b1, b2, {});
    BeginsReady(b, st, c);
    FrameSelf(b, c);
    assert Run(p, 0, c) == c by { RunNone(p, c); }
    var n1, c1 := SimThen(p, b, b0, pattern, st.env, c, c, 0);
    HoldsKept(p, b, b1, c, c1, v, value);
    var c2 := SimCompare(p, b1, Eq, v, w, value, EvalIn(pattern, st).n, c1);
    RunThen(p, n1, 2, c, c1, c2);
    FrameThen(b, b1, c, c1, c2);
    c3 := SimBranchTo(p, b2, t, Flag(value == EvalIn(pattern, st).n), |b.blocks|, c2);
    n := n1 + 2 + 2;
    RunThen(p, n1 + 2, 2, c, c2, c3);
    FrameThen(b, b2, c, c2, c3);
  }

  /** The builders around the test and body of arm `i`. */
  lemma {:induction false} ArmStages(p: Prog, b: Builder, arms: seq<Arm>, i: nat, v: Val, dflt: Option<nat>, end: nat, to: Targets, isVoid: bool,
                                     scope: set<string>)
    requires i < |arms| && arms[i].pattern.Some? && (dflt.Some? ==> dflt.value < |arms|)
    requires b.Open() && AllScoped(arms, scope) && Within(LowerArms(b, arms, i, v, dflt, end, to, isVoid), p)
    ensures
      var body := |b.blocks|;
      var b1 := LowerTest(b, v, arms[i].pattern.value);
      var b2 := LowerArmBody(b1, arms[i], to, isVoid);
      var b3 := SealTo(b2, end, body + 1);
      && AtStart(b1) && AtStart(b3) && b1.cur == body && b.temps <= b3.temps
      && Within(b1, p) && Within(b2, p) && Within(b3, p)
      && Within(LowerArms(b3, arms, i + 1, v, dflt, end, to, isVoid), p)
      && Keeps(b, b1, scope) && Keeps(b, b3, scope)
      && Agree(scope, b2.vars, LowerArms(b, arms, i, v, dflt, end, to, isVoid).vars)
  {
    hide Within, Ext, AtStart, LowerTest, LowerArmBody, SealTo, Later, Keeps;
    var body := |b.blocks|;
    var pattern := arms[i].pattern.value;
    var b1 := LowerTest(b, v, pattern);
    TestShape(b, v, pattern);
    TestTable(b, v, pattern);
    StartOpen(b1);
    var b2 := LowerArmBody(b1, arms[i], to, isVoid);
    ArmBodyExt(b1, arms[i], to, isVoid);
    ExtThen(b, b1, b2, {body + 1});
    ExtCurrent(b, b2, {body + 1});
    var b3 := SealTo(b2, end, body + 1);
    SealToShape(b, b2, end, body + 1, {body + 1}, {});
    StartOpen(b3);
    var bn := LowerArms(b3, arms, i + 1, v, dflt, end, to, isVoid);
    ArmsExt(b3, arms, i + 1, v, dflt, end, to, isVoid);
    WithinBack(b3, bn, {}, p);
    LaterWithin(b2, b3, p);
    ExtLater(b1, b2, {});
    LaterWithin(b1, b2, p);
    ExtMono(b, b3, {});
    KeepsSame(b, b1, scope);
    ArmTable(b1, arms[i], to, isVoid, scope);
    KeepsThen(b, b1, b2, scope);
    KeepsSame(b2, b3, scope);
    KeepsThen(b, b2, b3, scope);
    ArmsTable(b3, arms, i + 1, v, dflt, end, to, isVoid, scope);
    KeepsThen(b2, b3, bn, scope);
    KeepsAgree(b2, bn, scope);
  }

  lemma TestTable(b: Builder, v: Val, pattern: Expr)
    ensures LowerTest(b, v, pattern).vars == b.vars && b.slots <= LowerTest(b, v, pattern).slots
    ensures LowerTest(b, v, pattern).cur == |b.blocks|
  {
    hide Ext, Flows, Later, LowerExpr;
    ExprTable(Append(Labels(b, 2), 2), pattern);
  }

  lemma KeepsAgree(b0: Builder, b1: Builder, scope: set<string>)
    requires Keeps(b0, b1, scope)
    ensures Agree(scope, b0.vars, b1.vars) && b0.slots <= b1.slots
  {
  }

  lemma {:induction false} SimArms(p: Prog, b: Builder, arms: seq<Arm>, i: nat, v: Val, dflt: Option<nat>, end: nat, bF: Builder, to: Targets,
                                   isVoid: bool, value: int, st: State, fuel: nat, c: Cfg) returns (n: nat, c1: Cfg)
    requires i <= |arms| && (dflt.Some? ==> dflt.value < |arms| && i == |arms|)
    requires to.brk.Some? == to.cont.Some?
    requires AllScoped(arms, st.env.Keys) && forall k :: 0 <= k < |arms| && arms[k].pattern.None? ==> k == |arms| - 1
    requires Begins(b, st, c) && Holds(p, b, c, v, value)
    requires var b1 := LowerArms(b, arms, i, v, dflt, end, to, isVoid); Within(b1, p) && bF.vars == b1.vars
    requires AtStart(bF) && bF.cur == end
    ensures Run(p, n, c) == c1
    ensures Done(b, bF, to, st.env.Keys, st.env.Keys,
                 ExecChosen(Chosen(arms, i, dflt, value, st), st, to.brk.Some?, isVoid, fuel), fuel, n, c, c1)
    decreases fuel, arms, |arms| - i + 1
  {
    hide Done, Begins, Within, Run, LowerTest, LowerArmBody, SealTo, AtStart, Ext, Later, Keeps, Frame, Spares, TableOk, Rel, Agree, Holds, Eval, Declared;
    var scope := st.env.Keys;
    BeginsFacts(b, st, c);
    BeginsReady(b, st, c);
    if i == |arms| {
      n, c1 := SimLastArm(p, b, arms, dflt, end, bF, to, isVoid, st, fuel, c, v);
    } else {
      assert arms[i..][0] == arms[i] && arms[i..][1..] == arms[i + 1..];
      if arms[i].pattern.None? {
        n, c1 := SimArms(p, b, arms, i + 1, v, Some(i), end, bF, to, isVoid, value, st, fuel, c);
      } else {
        var body, pattern := |b.blocks|, arms[i].pattern.value;
        var b1 := LowerTest(b, v, pattern);
        var b2 := LowerArmBody(b1, arms[i], to, isVoid);
        var b3 := SealTo(b2, end, body + 1);
        ArmStages(p, b, arms, i, v, dflt, end, to, isVoid, scope);
        assert ScopedArm(arms[i], scope);
        var m, c0 := SimTest(p, b, v, value, pattern, st, c);
        FrameSpares(b, scope, c, c0);
        var st1 := st.(out := EvalIn(pattern, st).out);
        if EvalIn(pattern, st).n == value {
          Resume(b, b1, st, c, c0);
          KeepsAgree(b, b1, scope);
          var k, c2 := SimArm(p, b1, arms[i], to, isVoid, st1, fuel, c0);
          var r := ExecBody(arms[i].body, st1, to.brk.Some?, isVoid, fuel);
          DoneThen(p, b, b1, b2, to, scope, scope, r, fuel, fuel, m, k, c, c0, c2);
          n, c1 := Finish(p, b, b2, bF, end, body + 1, to, scope, r, fuel, m + k, c, c2);
        } else {
          Resume(b, b3, st, c, c0);
          KeepsAgree(b, b3, scope);
          HoldsKept(p, b, b3, c, c0, v, value);
          var k;
          k, c1 := SimArms(p, b3, arms, i + 1, v, dflt, end, bF, to, isVoid, value, st1, fuel, c0);
          var r := ExecChosen(Chosen(arms, i + 1, dflt, value, st1), st1, to.brk.Some?, isVoid, fuel);
          DoneThen(p, b, b3, bF, to, scope, scope, r, fuel, fuel, m, k, c, c0, c1);
          n := m + k;
        }
      }
    }
  }

  lemma {:induction false} SimLastArm(p: Prog, b: Builder, arms: seq<Arm>, dflt: Option<nat>, end: nat, bF: Builder, to: Targets, isVoid: bool,
                                      st: State, fuel: nat, c: Cfg, v: Val) returns (n: nat, c1: Cfg)
    requires dflt.Some? ==> dflt.value < |arms|
    requires to.brk.Some? == to.cont.Some? && AllScoped(arms, st.env.Keys) && Begins(b, st, c)
    requires var b1 := LowerArms(b, arms, |arms|, v, dflt, end, to, isVoid); Within(b1, p) && bF.vars == b1.vars
    requires AtStart(bF) && bF.cur == end
    ensures Run(p, n, c) == c1
    ensures Done(b, bF, to, st.env.Keys, st.env.Keys,
                 ExecChosen(Chosen(arms, |arms|, dflt, 0, st), st, to.brk.Some?, isVoid, fuel), fuel, n, c, c1)
    decreases fuel, arms, 0
  {
    hide Done, Within, Run, LowerArmBody, AtStart, Ext, Later, Frame, Spares, TableOk, Rel, Agree, Here;
    var scope := st.env.Keys;
    FrameSelf(b, c);
    FrameSpares(b, scope, c, c);
    assert Run(p, 0, c) == c by { RunNone(p, c); }
    if dflt.Some? {
      var arm := arms[dflt.value];
      var b1 := LowerArmBody(b, arm, to, isVoid);
      ArmBodyExt(b, arm, to, isVoid);
      ExtCurrent(b, b1, {});
      WithinMove(Seal(b1, end), SealTo(b1, end, end), p);
      LaterWithin(b1, SealTo(b1, end, end), p);
      var k, c2 := SimArm(p, b, arm, to, isVoid, st, fuel, c);
      AgreeSame(scope, b1.vars);
      n, c1 := Finish(p, b, b1, bF, end, end, to, scope, ExecBody(arm.body, st, to.brk.Some?, isVoid, fuel), fuel, k, c, c2);
    } else {
      WithinMove(Seal(b, end), SealTo(b, end, end), p);
      DoneNormal(b, b, to, st, fuel, 0, c, c);
      AgreeSame(scope, b.vars);
      n, c1 := Finish(p, b, b, bF, end, end, to, scope, Normal(st), fuel, 0, c, c);
    }
  }

  lemma {:induction false} SimArm(p: Prog, b: Builder, arm: Arm, to: Targets, isVoid: bool, st: State, fuel: nat, c: Cfg) returns (n: nat, c1: Cfg)
    requires to.brk.Some? == to.cont.Some?
    requires Begins(b, st, c) && ScopedArm(arm, st.env.Keys) && Within(LowerArmBody(b, arm, to, isVoid), p)
    ensures Run(p, n, c) == c1
    ensures Done(b, LowerArmBody(b, arm, to, isVoid), to, st.env.Keys, st.env.Keys,
                 ExecBody(arm.body, st, to.brk.Some?, isVoid, fuel), fuel, n, c, c1)
    decreases fuel, arm, 0
  {
    hide Done, Begins, Within, Run, LowerStmt, ExecBody;
    n, c1 := SimBody(p, b, arm.body, to, isVoid, st, fuel, c);
  }

  lemma {:induction false} MatchStages(p: Prog, b: Builder, s: Stmt, to: Targets, isVoid: bool)
    requires b.Open() && s.Match? && Within(LowerMatch(b, s, to, isVoid), p)
    ensures
      var (b1, v) := LowerExpr(b, s.subject);
      var end := |b1.blocks|;
      var b2 := Append(Labels(b1, 2), 2);
      var b3 := SealTo(b2, end + 1, end + 1);
      && b1.Open() && b2.Open() && AtStart(b3) && AtStart(LowerMatch(b, s, to, isVoid))
      && b3.vars == b.vars && b.slots <= b3.slots && b.temps <= b1.temps <= b3.temps
      && Within(b1, p) && Within(b3, p) && Within(LowerArms(b3, s.arms, 0, v, None, end, to, isVoid), p)
  {
    hide Within, Ext, LowerExpr, Append, Seal, AtStart, LowerArms, Later;
    var (b1, v) := LowerExpr(b, s.subject);
    ExprFlows(b, s.subject);
    ExtMono(b, b1, {});
    var end := |b1.blocks|;
    var b2 := Append(Labels(b1, 2), 2);
    AppendShape(b1, 2, 2, {end, end + 1});
    ExtTrans(b, b1, b2, {end, end + 1});
    var b3 := SealTo(b2, end + 1, end + 1);
    SealToShape(b, b2, end + 1, end + 1, {end, end + 1}, {end});
    StartOpen(b3);
    var b4 := LowerArms(b3, s.arms, 0, v, None, end, to, isVoid);
    ArmsExt(b3, s.arms, 0, v, None, end, to, isVoid);
    ExtThen(b, b3, b4, {end});
    ExtMove(b, b4, end, {end}, {});
    WithinMove(LowerMatch(b, s, to, isVoid), b4, p);
    WithinBack(b3, b4, {}, p);
    LaterWithin(b2, b3, p);
    WithinBack(b1, b2, {end, end + 1}, p);
  }

  lemma {:induction false} SimMatch(p: Prog, b: Builder, s: Stmt, to: Targets, isVoid: bool, st: State, fuel: nat, c: Cfg) returns (n: nat, c3: Cfg)
    requires s.Match? && to.brk.Some? == to.cont.Some?
    requires Begins(b, st, c) && Scoped(s, st.env.Keys) && Within(LowerMatch(b, s, to, isVoid), p)
    ensures Run(p, n, c) == c3
    ensures Done(b, LowerMatch(b, s, to, isVoid), to, st.env.Keys, st.env.Keys,
                 Source.Exec(s, st, to.brk.Some?, isVoid, fuel), fuel, n, c, c3)
    decreases fuel, s, 1
  {
    hide Done, Within, Run, LowerExpr, AtStart, Ext, Later, Keeps, Frame, Spares, TableOk, Rel, Eval, Declared, LowerArms, Agree, Holds, Select, Append;
    var scope := st.env.Keys;
    var (b1, v) := LowerExpr(b, s.subject);
    var end := |b1.blocks|;
    var b2 := Append(Labels(b1, 2), 2);
    var b3 := SealTo(b2, end + 1, end + 1);
    var bF := LowerMatch(b, s, to, isVoid);
    BeginsFacts(b, st, c);
    BeginsReady(b, st, c);
    MatchStages(p, b, s, to, isVoid);
    var n1, c1 := SimExpr(p, b, s.subject, st.env, c);
    var value := EvalIn(s.subject, st).n;
    var st1 := st.(out := EvalIn(s.subject, st).out);
    assert Here(b2, c1) by { HereAppend(b1, 2, 2, c1); }
    WithinMove(b3, Terminate(b2, Br(end + 1)), p);
    StepTerminate(p, b2, Br(end + 1), c1);
    var c2 := Leave(p, c1, Br(end + 1));
    RunThen(p, n1, 1, c, c1, c2);
    FrameJump(b, c, c1, c2);
    FrameSpares(b, scope, c, c2);
    HoldsJump(p, b1, b3, c1, c2, v, value);
    KeepsSame(b, b3, scope);
    Resume(b, b3, st, c, c2);
    ArmsScoped(s.arms, scope);
    var k;
    k, c3 := SimArms(p, b3, s.arms, 0, v, None, end, bF, to, isVoid, value, st1, fuel, c2);
    assert s.arms[0..] == s.arms;
    var r := ExecChosen(Select(s.arms, value, st.env, st1.out), st1, to.brk.Some?, isVoid, fuel);
    AgreeSame(scope, b.vars);
    DoneThen(p, b, b3, bF, to, scope, scope, r, fuel, fuel, n1 + 1, k, c, c2, c3);
    n := n1 + 1 + k;
  }

  lemma HoldsJump(p: Prog, b0: Builder, b1: Builder, c0: Cfg, c1: Cfg, v: Val, n: int)
    requires Holds(p, b0, c0, v, n) && c1.Running? && c1.temps == c0.temps && b0.temps <= b1.temps
    ensures Holds(p, b1, c1, v, n)
  {
  }
}
