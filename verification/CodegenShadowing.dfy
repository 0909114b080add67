/**
  Why lowering needs names that find their declaration in the flat variable table: after an
  inner block its declaration still hides the outer one.
 */
module CodegenShadowing {
  import opened Options
  import opened Ir
  import opened Source
  import opened Codegen
  import opened CodegenFunction
  import opened CodegenNames
  import opened Renaming

  /** `let x = 1; { let x = 2 }; return x` */
  function Shadowing(): Function {
    Function([], false, Stmt.Block([Let("x", Lit(1)), Stmt.Block([Let("x", Lit(2))]), ReturnExpr(Var("x"))]))
  }

  lemma ShadowingSource(world: World)
    ensures Call(Shadowing(), [], world, 0) == Returned(Some(1), world)
  {
    var st := State(map[], world);
    var st1 := State(map["x" := 1], world);
    var inner := [Let("x", Lit(2))];
    var body := [Let("x", Lit(1)), Stmt.Block(inner), ReturnExpr(Var("x"))];
    assert ExecSeq(inner[1..], State(map["x" := 2], world), false, false, 0) == Normal(State(map["x" := 2], world));
    assert ExecSeq(inner, st1, false, false, 0) == Normal(st1);
    assert body[1..] == [Stmt.Block(inner), ReturnExpr(Var("x"))];
    assert body[1..][1..] == [ReturnExpr(Var("x"))];
    assert ExecSeq(body[1..][1..], st1, false, false, 0) == Returned(Some(1), world);
    assert ExecSeq(body[1..], st1, false, false, 0) == Returned(Some(1), world);
    assert ExecSeq(body, st, false, false, 0) == Returned(Some(1), world);
  }

  function ShadowingCode(): Block {
    Block.Block([Alloca(1), Store(Const(1), 1), Alloca(2), Store(Const(2), 2), Load(0, 2)], Some(Ret(Temp(0))))
  }

  function AfterOuter(): Builder {
    Builder([Block.Block([Alloca(1), Store(Const(1), 1)], None)], 0, 0, 0, 2, map[User("x") := 1], false)
  }

  function AfterInner(): Builder {
    Builder([Block.Block([Alloca(1), Store(Const(1), 1), Alloca(2), Store(Const(2), 2)], None)], 0, 0, 0, 3, map[User("x") := 2], false)
  }

  lemma OuterLowered()
    ensures LowerStmt(Entry(0, 0), Let("x", Lit(1)), Targets(None, None), false) == AfterOuter()
  {
    hide Ext, Flows;
    var b0 := Entry(0, 0);
    assert LowerExpr(b0, Lit(1)) == (b0, Const(1));
    assert EmitAlloca(b0).blocks[0].code == [Alloca(1)];
    assert Define(b0, User("x"), Const(1)).blocks[0].code == [Alloca(1), Store(Const(1), 1)];
  }

  lemma InnerLowered()
    ensures LowerStmt(AfterOuter(), Let("x", Lit(2)), Targets(None, None), false) == AfterInner()
  {
    hide Ext, Flows;
    var b1 := AfterOuter();
    assert LowerExpr(b1, Lit(2)) == (b1, Const(2));
    assert EmitAlloca(b1).blocks[0].code == [Alloca(1), Store(Const(1), 1), Alloca(2)];
    assert Define(b1, User("x"), Const(2)).blocks[0].code == AfterInner().blocks[0].code;
  }

  lemma ReturnLowered()
    ensures LowerStmt(AfterInner(), ReturnExpr(Var("x")), Targets(None, None), false).blocks == [ShadowingCode()]
  {
    hide Ext, Flows;
    var b2 := AfterInner();
    assert LowerExpr(b2, Var("x")) == EmitLoad(b2, 2);
    assert EmitLoad(b2, 2).0.blocks[0].code == ShadowingCode().code;
  }

  lemma ShadowingLowered()
    ensures LowerFunction(Shadowing(), 0, 0).blocks == [ShadowingCode()]
  {
    hide Ext, Flows, LowerExpr, Define, EmitAlloca, EmitLoad;
    var to := Targets(None, None);
    var inner := [Let("x", Lit(2))];
    var body := [Let("x", Lit(1)), Stmt.Block(inner), ReturnExpr(Var("x"))];
    OuterLowered();
    InnerLowered();
    ReturnLowered();
    assert inner[1..] == [];
    assert LowerSeq(AfterOuter(), inner, to, false) == AfterInner();
    assert LowerStmt(AfterOuter(), body[1], to, false) == AfterInner();
    var b3 := LowerStmt(AfterInner(), body[2], to, false);
    assert body[1..][0] == body[1] && body[1..][1..] == body[2..] && body[2..][0] == body[2] && body[2..][1..] == [];
    assert LowerSeq(AfterInner(), body[2..], to, false) == b3;
    assert LowerSeq(AfterOuter(), body[1..], to, false) == b3;
    assert LowerSeq(Entry(0, 0), body, to, false) == b3;
  }

  /** With shadowing the lowered function returns the inner value: 2 instead of 1. */
  lemma ShadowingIsMiscompiled(world: World)
    ensures !FoundFunction(Shadowing())
    ensures Call(Shadowing(), [], world, 0) == Returned(Some(1), world)
    ensures Run(Prog(LowerFunction(Shadowing(), 0, 0).blocks, []), 6, Start(world)) == Halt(Some(2), world)
  {
    hide LowerFunction, Call, FoundFunction;
    ShadowingSource(world);
    ShadowingLowered();
    NotFound();
    var p := Prog([ShadowingCode()], []);
    var c1 := Step(p, Start(world));
    var c2 := Step(p, c1);
    var c3 := Step(p, c2);
    var c4 := Step(p, c3);
    var c5 := Step(p, c4);
    assert c4.mem == map[1 := 1, 2 := 2];
    assert Step(p, c5) == Halt(Some(2), world);
    assert Run(p, 6, Start(world)) == Run(p, 5, c1) == Run(p, 4, c2) == Run(p, 3, c3) == Run(p, 2, c4) == Run(p, 1, c5) == Run(p, 0, Halt(Some(2), world));
  }

  lemma InnerDefines(rest: seq<Stmt>, good: set<string>)
    requires "x" in good
    ensures FoundSeq([Stmt.Block([Let("x", Lit(2))])] + rest, good, false) <==> FoundSeq(rest, good - {"x"}, false)
  {
    var inner := [Let("x", Lit(2))];
    var ss := [Stmt.Block(inner)] + rest;
    assert inner[1..] == [] && ss[1..] == rest && ss[0] == Stmt.Block(inner);
    assert FoundSeq(inner, good, false) && !StopsSeq(inner, false) && DefinesSeq(inner, false) == {"x"};
    assert Found(ss[0], good, false) && !Stops(ss[0], false) && Defines(ss[0], false) == {"x"};
  }

  lemma OuterThen(rest: seq<Stmt>)
    ensures FoundSeq([Let("x", Lit(1))] + rest, {}, false) <==> FoundSeq(rest, {"x"}, false)
  {
    var ss := [Let("x", Lit(1))] + rest;
    assert ss[1..] == rest && ss[0] == Let("x", Lit(1));
    var none: set<string> := {};
    assert none + {"x"} == {"x"};
  }

  lemma NotFound()
    ensures !FoundFunction(Shadowing())
  {
    var last := [ReturnExpr(Var("x"))];
    var rest := [Stmt.Block([Let("x", Lit(2))])] + last;
    InnerDefines(last, {"x"});
    OuterThen(rest);
    assert !FoundSeq(last, {"x"} - {"x"}, false);
    assert [Let("x", Lit(1))] + rest == Shadowing().body.body;
    assert Elements(Shadowing().params) == {};
  }

  /** `let x = 1; { let x = 2 }; return`: a declaration that shadows does no harm where the
      name is not used behind it. */
  lemma ShadowingMayBeHarmless()
    ensures var f := Function([], false, Stmt.Block([Let("x", Lit(1)), Stmt.Block([Let("x", Lit(2))]), Return]));
            FoundFunction(f) && !ScopedFunction(f)
  {
    var last := [Return];
    var rest := [Stmt.Block([Let("x", Lit(2))])] + last;
    var body := [Let("x", Lit(1))] + rest;
    InnerDefines(last, {"x"});
    OuterThen(rest);
    assert FoundSeq(last, {"x"} - {"x"}, false);
    assert body == [Let("x", Lit(1)), Stmt.Block([Let("x", Lit(2))]), Return];
    var none: set<string> := {};
    assert body[1..] == rest && rest[0] == Stmt.Block([Let("x", Lit(2))]);
    assert !ScopedSeq([Let("x", Lit(2))], none + {"x"});
    assert !Scoped(rest[0], none + {"x"});
    assert !ScopedSeq(body, none);
  }
}
