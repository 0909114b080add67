/**
  Whole functions, with or without shadowing: lowering preserves what they return.
 */
module CodegenMeaning {
  import opened Options
  import opened Ir
  import opened Source
  import opened Codegen
  import opened CodegenFunction
  import opened Renaming
  import opened RenamedMeaning
  import opened CodegenRenaming

  function ParamNumbers(params: seq<string>, i: nat): Numbers
    requires i <= |params|
  {
    if i == 0 then map[] else ParamNumbers(params, i - 1)[params[i - 1] := i - 1]
  }

  function FreshParams(n: nat): (r: seq<string>)
    ensures |r| == n && forall i :: 0 <= i < n ==> r[i] == Fresh(i)
  {
    seq(n, i requires 0 <= i < n => Fresh(i))
  }

  function RenameFunction(f: Function): Function {
    var n := |f.params|;
    Function(FreshParams(n), f.isVoid, Rename(f.body, ParamNumbers(f.params, n), n, false))
  }

  lemma {:induction false} ParamsNumbered(params: seq<string>, i: nat)
    requires i <= |params|
    ensures Numbered(ParamNumbers(params, i), i) && ParamNumbers(params, i).Keys == Elements(params[..i])
    decreases i
  {
    if i > 0 {
      ParamsNumbered(params, i - 1);
      NumberedMore(ParamNumbers(params, i - 1), i - 1, params[i - 1]);
      assert params[..i] == params[..i - 1] + [params[i - 1]];
    }
  }

  lemma {:induction false} FreshParamsAreNames(n: nat)
    ensures Names(n) == Elements(FreshParams(n))
  {
    if n > 0 {
      FreshParamsAreNames(n - 1);
      assert FreshParams(n) == FreshParams(n - 1) + [Fresh(n - 1)];
    }
  }

  lemma RenamedFunctionIsScoped(f: Function)
    requires FoundFunction(f)
    ensures ScopedFunction(RenameFunction(f))
  {
    hide Scoped, Found, Rename, Names;
    var n := |f.params|;
    ParamsNumbered(f.params, n);
    assert f.params[..n] == f.params;
    FreshParamsAreNames(n);
    RenamedIsScoped(f.body, ParamNumbers(f.params, n), n, false);
    forall i, j | 0 <= i < j < n ensures FreshParams(n)[i] != FreshParams(n)[j] {
      assert |Fresh(i)| != |Fresh(j)|;
    }
  }

  lemma {:induction false} ArgsAlike(params: seq<string>, args: seq<int>, i: nat)
    requires |params| == |args| && i <= |params|
    ensures Alike(ParamNumbers(params, i), i, BindArgs(params[..i], args[..i]), BindArgs(FreshParams(|params|)[..i], args[..i]))
    decreases i
  {
    if i > 0 {
      hide Alike;
      ArgsAlike(params, args, i - 1);
      BindLast(params, args, i - 1);
      BindLast(FreshParams(|params|), args, i - 1);
      DeclareAlike(ParamNumbers(params, i - 1), i - 1, BindArgs(params[..i - 1], args[..i - 1]),
                   BindArgs(FreshParams(|params|)[..i - 1], args[..i - 1]), params[i - 1], args[i - 1]);
    }
  }

  /** The renamed function returns what the function returns. */
  lemma CallRenamed(f: Function, args: seq<int>, world: World, fuel: nat, ret: Option<int>, out: World)
    requires FoundFunction(f) && |args| == |f.params|
    ensures Call(f, args, world, fuel) == Returned(ret, out) <==> Call(RenameFunction(f), args, world, fuel) == Returned(ret, out)
  {
    hide ExecBody, Rename, Found, Alike, HiddenStay;
    var n := |f.params|;
    var m := ParamNumbers(f.params, n);
    ParamsNumbered(f.params, n);
    ArgsAlike(f.params, args, n);
    assert f.params[..n] == f.params && args[..n] == args && FreshParams(n)[..n] == FreshParams(n);
    BodyRenamed(f.body, m, n, State(BindArgs(f.params, args), world), State(BindArgs(FreshParams(n), args), world), false, f.isVoid, fuel);
  }

  lemma {:induction false} ParamsSame(b: Builder, c: Builder, params: seq<string>, i: nat)
    requires i <= |params| && Same(b, c) && Twin(ParamNumbers(params, i), Elements(params[..i]), b.vars, c.vars)
    ensures var n := |params|;
            var b1, c1 := LowerParams(b, params, i), LowerParams(c, FreshParams(n), i);
            Same(b1, c1) && Twin(ParamNumbers(params, n), Elements(params), b1.vars, c1.vars)
    decreases |params| - i
  {
    hide Same, Twin, Define;
    if i == |params| {
      assert params[..i] == params;
    } else {
      var good := Elements(params[..i]);
      ParamsNumbered(params, i);
      DefineTwin(b, c, params[i], ParamNumbers(params, i), i, good, Arg(i));
      assert params[..i + 1] == params[..i] + [params[i]];
      assert good + {params[i]} == Elements(params[..i + 1]);
      ParamsSame(Define(b, User(params[i]), Arg(i)), Define(c, User(Fresh(i)), Arg(i)), params, i + 1);
    }
  }

  /** The renamed function is lowered to the same blocks. */
  lemma LoweredAlike(f: Function, temps: nat, labels: nat)
    requires FoundFunction(f)
    ensures LowerFunction(RenameFunction(f), temps, labels).blocks == LowerFunction(f, temps, labels).blocks
  {
    hide LowerStmt, LowerParams, Rename, Found, Ext, Twin;
    var n, g := |f.params|, RenameFunction(f);
    var m, to := ParamNumbers(f.params, n), Targets(None, None);
    var b0 := Entry(temps, labels);
    ParamsNumbered(f.params, n);
    assert f.params[..n] == f.params && f.params[..0] == [];
    NothingYet(m, f.params, b0);
    ParamsSame(b0, b0, f.params, 0) by { SelfSame(b0); NothingYet(m, f.params, b0); }
    ParamsFlow(b0, f.params, 0);
    var b1, c1 := LowerParams(b0, f.params, 0), LowerParams(b0, g.params, 0);
    StmtSame(b1, c1, f.body, m, n, Elements(f.params), to, f.isVoid);
    var b2, c2 := LowerStmt(b1, f.body, to, f.isVoid), LowerStmt(c1, g.body, to, f.isVoid);
    SameOpen(b2, c2);
    SameTerminate(b2, c2, if f.isVoid then RetVoid else Ret(Const(0)));
  }

  lemma NothingYet(m: Numbers, params: seq<string>, b: Builder)
    ensures Twin(ParamNumbers(params, 0), (Elements(params[..0])), b.vars, b.vars)
  {
  }

  /** Lowering preserves meaning, in both directions, for every function whose names, where
      they are used, find the same declaration by scopes and in the flat table, and whatever
      calls are answered with: the machine halts with a value, having printed and called the
      same things with the same arguments in the same order, exactly when the function returns
      so, and it runs for ever exactly when the function does; and it never faults. */
  lemma LoweringPreservesMeaning(f: Function, args: seq<int>, world: World, temps: nat, labels: nat, ret: Option<int>, out: World)
    requires FoundFunction(f) && |args| == |f.params|
    ensures
      var p := Prog(LowerFunction(f, temps, labels).blocks, args);
      (exists fuel :: Call(f, args, world, fuel) == Returned(ret, out)) <==> (exists n :: Run(p, n, CodegenFunction.Start(world)) == Halt(ret, out))
    ensures forall n :: Run(Prog(LowerFunction(f, temps, labels).blocks, args), n, CodegenFunction.Start(world)) != Fault
  {
    hide LowerFunction, Call, Run, FoundFunction, RenameFunction;
    var g := RenameFunction(f);
    RenamedFunctionIsScoped(f);
    LoweredAlike(f, temps, labels);
    assert |g.params| == |f.params| by { SameArity(f); }
    ScopedLoweringPreservesMeaning(g, args, world, temps, labels, ret, out);
    if fuel :| Call(f, args, world, fuel) == Returned(ret, out) {
      CallRenamed(f, args, world, fuel, ret, out);
      assert Call(g, args, world, fuel) == Returned(ret, out);
    }
    if fuel :| Call(g, args, world, fuel) == Returned(ret, out) {
      CallRenamed(f, args, world, fuel, ret, out);
      assert Call(f, args, world, fuel) == Returned(ret, out);
    }
  }

  lemma SameArity(f: Function)
    ensures |RenameFunction(f).params| == |f.params|
  {
  }

  /** In particular for functions without shadowing. */
  lemma ScopedFunctionIsFound(f: Function)
    requires ScopedFunction(f)
    ensures FoundFunction(f)
  {
    ScopedIsFound(f.body, Elements(f.params), false);
  }
}
