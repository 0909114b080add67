/**
  Whole functions: lowering gives a complete control-flow graph, and running it
  returns exactly what the source function returns.
 */
module CodegenFunction {
  import opened Options
  import opened Ir
  import opened Source
  import opened Codegen
  import opened CodegenShape
  import opened CodegenSim
  import opened CodegenTable
  import opened CodegenCorrect

  function Entry(temps: nat, labels: nat): Builder {
    Builder([EMPTY], 0, temps, labels, 1, map[], false)
  }

  /** Each parameter gets a slot holding its argument. */
  function LowerParams(b: Builder, params: seq<string>, i: nat): Builder
    requires i <= |params|
    decreases |params| - i
  {
    if i == |params| then b else LowerParams(Define(b, User(params[i]), Arg(i)), params, i + 1)
  }

  /** The return at the end of a function whose last block is still open. */
  function LowerEnd(b: Builder, isVoid: bool): Builder {
    if b.Terminated() then b else Terminate(b, if isVoid then RetVoid else Ret(Const(0)))
  }

  function LowerFunction(f: Function, temps: nat, labels: nat): Builder {
    var b := LowerParams(Entry(temps, labels), f.params, 0);
    LowerEnd(LowerStmt(b, f.body, Targets(None, None), f.isVoid), f.isVoid)
  }

  // ----- shape -----

  lemma {:induction false} ParamsFlow(b: Builder, params: seq<string>, i: nat)
    requires b.Open() && i <= |params|
    ensures Flows(b, LowerParams(b, params, i))
    decreases |params| - i
  {
    hide Ext, Define;
    if i == |params| {
      ExtRefl(b);
    } else {
      var b1 := Define(b, User(params[i]), Arg(i));
      ParamsFlow(b1, params, i + 1);
      ExtThen(b, b1, LowerParams(b, params, i), {});
    }
  }

  /** In every lowered function nothing was appended after a terminator, and every
      block ends in exactly one. */
  lemma FunctionIsComplete(f: Function, temps: nat, labels: nat)
    ensures
      var r := LowerFunction(f, temps, labels);
      !r.bad && forall i :: 0 <= i < |r.blocks| ==> r.blocks[i].term.Some?
  {
    hide LowerStmt, LowerParams;
    var b0 := Entry(temps, labels);
    var b1 := LowerParams(b0, f.params, 0);
    ParamsFlow(b0, f.params, 0);
    var b2 := LowerStmt(b1, f.body, Targets(None, None), f.isVoid);
    StmtExt(b1, f.body, Targets(None, None), f.isVoid);
    ExtThen(b0, b1, b2, {});
    var r := LowerFunction(f, temps, labels);
    ExtThen(b0, b2, r, {}) by {
      if b2.Terminated() {
        ExtRefl(b2);
      }
    }
  }

  // ----- meaning -----

  /** The machine at the entry of a function. */
  function Start(world: World): Cfg {
    Running(0, 0, 0, map[], map[], world)
  }

  lemma BindLast(params: seq<string>, args: seq<int>, i: nat)
    requires |params| == |args| && i < |params|
    ensures BindArgs(params[..i + 1], args[..i + 1]) == BindArgs(params[..i], args[..i])[params[i] := args[i]]
  {
    assert params[..i + 1][..i] == params[..i] && args[..i + 1][..i] == args[..i];
  }

  lemma {:induction false} BindKeys(params: seq<string>, args: seq<int>)
    requires |params| == |args|
    ensures BindArgs(params, args).Keys == Elements(params)
  {
    if params != [] {
      var last := |params| - 1;
      BindKeys(params[..last], args[..last]);
      assert params == params[..last] + [params[last]];
    }
  }

  /** The header code binds the arguments. */
  lemma {:induction false} SimParams(p: Prog, b: Builder, params: seq<string>, i: nat, c: Cfg) returns (n: nat, c2: Cfg)
    requires i <= |params| == |p.args| && forall j, k :: 0 <= j < k < |params| ==> params[j] != params[k]
    requires c.Running? && Begins(b, State(BindArgs(params[..i], p.args[..i]), c.out), c) && Within(LowerParams(b, params, i), p)
    ensures Run(p, n, c) == c2 && Begins(LowerParams(b, params, i), State(BindArgs(params, p.args), c.out), c2)
    decreases |params| - i
  {
    hide Within, Ext, Define, Run;
    if i == |params| {
      assert params[..i] == params && p.args[..i] == p.args;
      n, c2 := 0, c;
      RunNone(p, c);
    } else {
      var x, env := params[i], BindArgs(params[..i], p.args[..i]);
      var b1 := Define(b, User(x), Arg(i));
      ParamsFlow(b1, params, i + 1);
      WithinBack(b1, LowerParams(b, params, i), {}, p);
      var c1 := SimDefine(p, b, User(x), Arg(i), p.args[i], c);
      KeepsDefine(b, User(x), Arg(i), {});
      BindLast(params, p.args, i);
      DefineBegins(b, x, Arg(i), p.args[i], env, c, c1);
      var m;
      m, c2 := SimParams(p, b1, params, i + 1, c1);
      n := 2 + m;
      RunThen(p, 2, m, c, c1, c2);
    }
  }

  lemma DefineBegins(b: Builder, x: string, v: Val, n: int, env: Env, c: Cfg, c1: Cfg)
    requires c.Running? && Begins(b, State(env, c.out), c) && Here(Define(b, User(x), v), c1) && Define(b, User(x), v).Open()
    requires c1.Running? && c1.mem == c.mem[b.slots := n] && c1.out == c.out
    ensures Begins(Define(b, User(x), v), State(env[x := n], c.out), c1)
  {
  }

  /** Either the function returns, and the machine halts with the same value and
      output, or the budget runs out and the machine has taken that many steps. */
  lemma FunctionRuns(f: Function, args: seq<int>, world: World, temps: nat, labels: nat, fuel: nat) returns (n: nat, c1: Cfg)
    requires ScopedFunction(f) && |args| == |f.params|
    ensures Run(Prog(LowerFunction(f, temps, labels).blocks, args), n, Start(world)) == c1
    ensures
      var r := Call(f, args, world, fuel);
      || (r.Returned? && c1 == Halt(r.ret, r.out))
      || (r.TimeOut? && n >= fuel && c1.Running?)
  {
    hide LowerStmt, LowerParams, Within, Run, ExecBody, Ext;
    var p := Prog(LowerFunction(f, temps, labels).blocks, args);
    var b0 := Entry(temps, labels);
    var b1 := LowerParams(b0, f.params, 0);
    var to := Targets(None, None);
    var b2 := LowerStmt(b1, f.body, to, f.isVoid);
    var b3 := LowerFunction(f, temps, labels);
    ParamsFlow(b0, f.params, 0);
    StmtExt(b1, f.body, to, f.isVoid);
    ExtCurrent(b1, b2, {});
    EndShape(b2, f.isVoid);
    WithinSelf(b3, p);
    WithinBack(b2, b3, {}, p);
    WithinBack(b1, b2, {}, p);
    var st := State(BindArgs(f.params, args), world);
    BindKeys(f.params, args);
    assert f.params[..0] == [] && args[..0] == [];
    var m, c0 := SimParams(p, b0, f.params, 0, Start(world));
    var k, c2 := SimBody(p, b1, f.body, to, f.isVoid, st, fuel, c0);
    RunThen(p, m, k, Start(world), c0, c2);
    if ExecBody(f.body, st, false, f.isVoid, fuel).Normal? {
      var t := if f.isVoid then RetVoid else Ret(Const(0));
      StepTerminate(p, b2, t, c2);
      c1 := Leave(p, c2, t);
      n := m + k + 1;
      RunThen(p, m + k, 1, Start(world), c2, c1);
    } else {
      n, c1 := m + k, c2;
    }
  }

  lemma EndShape(b: Builder, isVoid: bool)
    requires !b.bad && b.cur < |b.blocks|
    ensures Ext(b, LowerEnd(b, isVoid), {})
  {
    if b.Terminated() {
      ExtRefl(b);
    }
  }

  lemma WithinSelf(b: Builder, p: Prog)
    requires p.blocks == b.blocks
    ensures Within(b, p)
  {
  }

  /** Two runs of the same machine that have both stopped stopped the same way. */
  lemma StoppedOnce(p: Prog, m: nat, n: nat, c: Cfg)
    requires !Run(p, m, c).Running?
    ensures Run(p, m + n, c) == Run(p, m, c)
  {
    RunPlus(p, m, n, c);
    RunStopped(p, n, Run(p, m, c));
  }

  /** A stopped machine stopped by returning what the source function returns. */
  lemma StoppedReturned(f: Function, args: seq<int>, world: World, temps: nat, labels: nat, m: nat)
    requires ScopedFunction(f) && |args| == |f.params|
    requires !Run(Prog(LowerFunction(f, temps, labels).blocks, args), m, Start(world)).Running?
    ensures
      var r := Call(f, args, world, m + 1);
      r.Returned? && Run(Prog(LowerFunction(f, temps, labels).blocks, args), m, Start(world)) == Halt(r.ret, r.out)
  {
    hide LowerFunction, Call, Run;
    var p := Prog(LowerFunction(f, temps, labels).blocks, args);
    var n, c1 := FunctionRuns(f, args, world, temps, labels, m + 1);
    if m <= n {
      StoppedOnce(p, m, n - m, Start(world));
    } else {
      StoppedOnce(p, n, m - n, Start(world));
    }
  }

  /** Where no declaration shadows a name in scope, lowering preserves meaning in both
      directions, whatever calls are answered with: the machine halts with a value, having
      printed and called the same things in the same order, exactly when the source function
      returns so; it runs for ever exactly when the source does; and it never faults. */
  lemma ScopedLoweringPreservesMeaning(f: Function, args: seq<int>, world: World, temps: nat, labels: nat, ret: Option<int>, out: World)
    requires ScopedFunction(f) && |args| == |f.params|
    ensures
      var p := Prog(LowerFunction(f, temps, labels).blocks, args);
      (exists fuel :: Call(f, args, world, fuel) == Returned(ret, out)) <==> (exists n :: Run(p, n, Start(world)) == Halt(ret, out))
    ensures forall n :: Run(Prog(LowerFunction(f, temps, labels).blocks, args), n, Start(world)) != Fault
  {
    hide LowerFunction, Call, Run;
    var p := Prog(LowerFunction(f, temps, labels).blocks, args);
    if fuel :| Call(f, args, world, fuel) == Returned(ret, out) {
      var n, c1 := FunctionRuns(f, args, world, temps, labels, fuel);
    }
    if n :| Run(p, n, Start(world)) == Halt(ret, out) {
      StoppedReturned(f, args, world, temps, labels, n);
    }
    forall n
      ensures Run(p, n, Start(world)) != Fault
    {
      if !Run(p, n, Start(world)).Running? {
        StoppedReturned(f, args, world, temps, labels, n);
      }
    }
  }
}
