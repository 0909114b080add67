/**
  The emission itself: a builder object whose current block, counters and variable
  table the recursive methods update in place.
 */
module CodegenBuilder {
  import opened Options
  import opened Ir
  import opened Source
  import opened Codegen
  import opened CodegenFunction

  class LlvmBuilder {
    var blocks: seq<Block>
    var current: nat
    var temps: nat
    var labels: nat
    var slots: nat
    var vars: map<Name, nat>
    var bad: bool

    function View(): Builder
      reads this
    {
      Builder(blocks, current, temps, labels, slots, vars, bad)
    }

    /** A function with its entry block; the counters go on from earlier functions. */
    constructor (temps: nat, labels: nat)
      ensures View() == Entry(temps, labels)
    {
      blocks, current, slots, vars, bad := [EMPTY], 0, 1, map[], false;
      this.temps, this.labels := temps, labels;
    }

    // ----- builder calls -----

    method AppendBlock() returns (id: nat)
      modifies this`blocks
      ensures View() == Append(old(View()), 1) && id == |old(blocks)|
    {
      id := |blocks|;
      blocks := blocks + [EMPTY];
    }

    method LabelName()
      modifies this`labels
      ensures View() == Labels(old(View()), 1)
    {
      labels := labels + 1;
    }

    /** Takes `n` label names, then appends that many blocks. */
    method AppendLabelled(n: nat) returns (first: nat)
      modifies this`labels, this`blocks
      ensures View() == Append(Labels(old(View()), n), n) && first == |old(blocks)|
    {
      first := |blocks|;
      for i := 0 to n
        invariant View() == Labels(old(View()), i)
      {
        LabelName();
      }
      ghost var b := View();
      for i := 0 to n
        invariant View() == Append(b, i)
      {
        var id := AppendBlock();
      }
    }

    method PositionAtEnd(block: nat)
      modifies this`current
      ensures View() == At(old(View()), block)
    {
      current := block;
    }

    method Build(i: Instr)
      modifies this`blocks, this`bad
      ensures View() == Emit(old(View()), i)
    {
      if !bad && current < |blocks| && blocks[current].term.None? {
        blocks := blocks[current := blocks[current].(code := blocks[current].code + [i])];
      } else {
        bad := true;
      }
    }

    method BuildEnd(t: Term)
      modifies this`blocks, this`bad
      ensures View() == Terminate(old(View()), t)
    {
      if !bad && current < |blocks| && blocks[current].term.None? {
        blocks := blocks[current := blocks[current].(term := Some(t))];
      } else {
        bad := true;
      }
    }

    method CurrentTerminated() returns (r: bool)
      ensures r == View().Terminated()
    {
      r := current < |blocks| && blocks[current].term.Some?;
    }

    /** Jumps unless the current block has ended. */
    method Jump(target: nat)
      modifies this`blocks, this`bad
      ensures View() == Seal(old(View()), target)
    {
      var ended := CurrentTerminated();
      if !ended {
        BuildEnd(Br(target));
      }
    }

    method BuildTemp(i: Instr) returns (v: Val)
      modifies this`blocks, this`bad, this`temps
      ensures (View(), v) == EmitTemp(old(View()), i)
    {
      v := Temp(temps);
      Build(i);
      temps := temps + 1;
    }

    method BuildOp(op: Op, l: Val, r: Val) returns (v: Val)
      modifies this`blocks, this`bad, this`temps
      ensures (View(), v) == EmitOp(old(View()), op, l, r)
    {
      v := BuildTemp(Bin(temps, op, l, r));
      if op in {Eq, Ne, Lt, Le, Gt, Ge} {
        v := BuildTemp(Zext(temps, v));
      }
    }

    method BuildBranch(v: Val, whenTrue: nat, whenFalse: nat)
      modifies this`blocks, this`bad, this`temps
      ensures View() == Branch(old(View()), v, whenTrue, whenFalse)
    {
      var c := BuildTemp(Bin(temps, Ne, v, Const(0)));
      BuildEnd(CondBr(c, whenTrue, whenFalse));
    }

    method LoadVar(name: Name) returns (v: Val)
      modifies this`blocks, this`bad, this`temps
      ensures (View(), v) == EmitLoad(old(View()), SlotOf(old(vars), name))
    {
      v := BuildTemp(Load(temps, SlotOf(vars, name)));
    }

    method AllocSlot() returns (slot: nat)
      modifies this`blocks, this`bad, this`slots
      ensures View() == EmitAlloca(old(View())) && slot == old(slots)
    {
      slot := slots;
      Build(Alloca(slot));
      slots := slots + 1;
    }

    method DefineVar(name: Name, v: Val)
      modifies this`blocks, this`bad, this`slots, this`vars
      ensures View() == Define(old(View()), name, v)
    {
      var slot := AllocSlot();
      vars := vars[name := slot];
      Build(Store(v, slot));
    }

    // ----- expressions -----

    method CodegenExpr(e: Expr) returns (v: Val)
      modifies this
      ensures (View(), v) == LowerExpr(old(View()), e)
      decreases e, 1
    {
      hide Ext, Flows;
      match e
      case Lit(n) =>
        v := Const(n);
      case Var(x) =>
        v := LoadVar(User(x));
      case Binary(op, l, r) =>
        var vl := CodegenExpr(l);
        var vr := CodegenExpr(r);
        v := BuildOp(op, vl, vr);
      case Neg(e0) =>
        var w := CodegenExpr(e0);
        v := BuildTemp(Bin(temps, Sub, Const(0), w));
      case Not(e0) =>
        var w := CodegenExpr(e0);
        v := BuildOp(Eq, w, Const(0));
      case And(_, _) =>
        v := CodegenLogical(e);
      case Or(_, _) =>
        v := CodegenLogical(e);
      case IfExpr(_, _, _) =>
        v := CodegenIfExpr(e);
      case Invoke(name, args) =>
        var vs := CodegenArgs(args);
        v := BuildTemp(CallFn(temps, name, vs));
    }

    /** The arguments of a call, each pushed once it is emitted. */
    method CodegenArgs(args: seq<Expr>) returns (vs: seq<Val>)
      modifies this
      ensures (View(), vs) == LowerArgs(old(View()), args)
      decreases args, 0
    {
      hide Ext, Flows, LowerExpr;
      vs := [];
      assert args[0..] == args && [] + LowerArgs(View(), args).1 == LowerArgs(View(), args).1;
      for i := 0 to |args|
        invariant var r := LowerArgs(View(), args[i..]); LowerArgs(old(View()), args) == (r.0, vs + r.1)
      {
        assert args[i..][0] == args[i] && args[i..][1..] == args[i + 1..];
        ghost var rest := LowerArgs(View(), args[i..]).1;
        ghost var before := vs;
        var v := CodegenExpr(args[i]);
        vs := vs + [v];
        assert before + rest == vs + LowerArgs(View(), args[i + 1..]).1;
      }
      assert args[|args|..] == [] && vs + [] == vs;
    }

    method LogicalStart(left: Val, isAnd: bool)
      modifies this
      ensures View() == LogicalTest(old(View()), left, isAnd)
    {
      hide Ext, Flows;
      var test := BuildTemp(Bin(temps, Ne, left, Const(0)));
      var first := AppendBlock();
      var second := AppendBlock();
      var merge := AppendBlock();
      BuildEnd(CondBr(test, first, second));
      PositionAtEnd(if isAnd then first else second);
    }

    method LogicalFinish(right: Val, isAnd: bool, rhs: nat) returns (v: Val)
      modifies this
      ensures (View(), v) == LogicalMerge(LogicalDecide(old(View()), right, isAnd, rhs), isAnd, rhs)
    {
      hide Ext, Flows, ShortBlock, MergeBlock;
      var short, merge := ShortBlock(isAnd, rhs), MergeBlock(isAnd, rhs);
      var decide := BuildTemp(Bin(temps, Ne, right, Const(0)));
      var rhsEnd := current;
      BuildEnd(if isAnd then CondBr(decide, merge, short) else CondBr(decide, short, merge));
      PositionAtEnd(short);
      BuildEnd(Br(merge));
      PositionAtEnd(merge);
      if isAnd {
        v := BuildTemp(Phi(temps, Const(1), rhsEnd, Const(0), short));
      } else {
        v := BuildTemp(Phi(temps, Const(1), short, Const(0), rhsEnd));
      }
    }

    method CodegenLogical(e: Expr) returns (v: Val)
      requires e.And? || e.Or?
      modifies this
      ensures (View(), v) == LowerLogical(old(View()), e)
      decreases e, 0
    {
      hide Ext, Flows, LogicalTest, LogicalDecide, LogicalMerge, LowerExpr;
      var left := CodegenExpr(e.left);
      LogicalStart(left, e.And?);
      var rhs := current;
      var right := CodegenExpr(e.right);
      v := LogicalFinish(right, e.And?, rhs);
    }

    method CodegenIfExpr(e: Expr) returns (v: Val)
      requires e.IfExpr?
      modifies this
      ensures (View(), v) == LowerIfExpr(old(View()), e)
      decreases e, 0
    {
      hide Ext, Flows, Later, LowerExpr, LowerInto, Branch, EmitTemp, Append;
      var slot := AllocSlot();
      temps := temps + 1;
      var thn := AppendLabelled(3);
      assert View() == IfExprHead(old(View()));
      var cond := CodegenExpr(e.cond);
      BuildBranch(cond, thn, thn + 1);
      PositionAtEnd(thn);
      CodegenInto(e.thn, slot, thn + 2, thn + 1);
      CodegenInto(e.els, slot, thn + 2, thn + 2);
      v := BuildTemp(Load(temps, slot));
    }

    method CodegenInto(e: Expr, slot: nat, end: nat, next: nat)
      modifies this
      ensures View() == LowerInto(old(View()), e, slot, end, next)
      decreases e, 2
    {
      hide Ext, Flows, Later, LowerExpr;
      var v := CodegenExpr(e);
      Build(Store(v, slot));
      Jump(end);
      PositionAtEnd(next);
    }

    // ----- statements -----

    method CodegenStmt(s: Stmt, to: Targets, isVoid: bool)
      modifies this
      ensures View() == LowerStmt(old(View()), s, to, isVoid)
      decreases s, 1
    {
      hide Ext, Flows, Later, LowerExpr, Define, Emit, Terminate;
      match s
      case Let(x, e) =>
        var v := CodegenExpr(e);
        DefineVar(User(x), v);
      case Assign(x, e) =>
        var v := CodegenExpr(e);
        Build(Store(v, SlotOf(vars, User(x))));
      case PrintStmt(e) =>
        var v := CodegenExpr(e);
        Build(Print(v));
      case ExprStmt(e) =>
        var ignored := CodegenExpr(e);
      case Block(body) =>
        CodegenBlock(body, to, isVoid);
      case If(_, _, _) =>
        CodegenIf(s, to, isVoid);
      case While(_, _) =>
        CodegenWhile(s, isVoid);
      case ForRange(_, _, _, _) =>
        CodegenFor(s, isVoid);
      case Match(_, _) =>
        CodegenMatch(s, to, isVoid);
      case Break =>
        if to.brk.Some? {
          BuildEnd(Br(to.brk.value));
        }
      case Continue =>
        if to.cont.Some? {
          BuildEnd(Br(to.cont.value));
        }
      case Return =>
        BuildEnd(if isVoid then RetVoid else Ret(Const(0)));
      case ReturnExpr(e) =>
        var v := CodegenExpr(e);
        BuildEnd(Ret(v));
    }

    /** The statements of a block, up to the first that ends the current basic block. */
    method CodegenBlock(body: seq<Stmt>, to: Targets, isVoid: bool)
      modifies this
      ensures View() == LowerSeq(old(View()), body, to, isVoid)
      decreases body, 0
    {
      hide Ext, Flows, Later, LowerExpr, LowerStmt;
      for i := 0 to |body|
        invariant LowerSeq(old(View()), body, to, isVoid) == LowerSeq(View(), body[i..], to, isVoid)
      {
        assert body[i..][0] == body[i] && body[i..][1..] == body[i + 1..];
        var ended := CurrentTerminated();
        if !ended {
          CodegenStmt(body[i], to, isVoid);
        }
      }
    }

    method CodegenIf(s: Stmt, to: Targets, isVoid: bool)
      requires s.If?
      modifies this
      ensures View() == LowerIf(old(View()), s, to, isVoid)
      decreases s, 0
    {
      hide Ext, Flows, Later, LowerExpr, LowerStmt, Branch, Seal, Append;
      var thn := AppendLabelled(3);
      var cond := CodegenExpr(s.cond);
      BuildBranch(cond, thn, thn + 1);
      PositionAtEnd(thn);
      CodegenStmt(s.thn, to, isVoid);
      Jump(thn + 2);
      PositionAtEnd(thn + 1);
      if s.els.Some? {
        CodegenStmt(s.els.value, to, isVoid);
      }
      Jump(thn + 2);
      PositionAtEnd(thn + 2);
    }

    method CodegenWhile(s: Stmt, isVoid: bool)
      requires s.While?
      modifies this
      ensures View() == LowerWhile(old(View()), s, isVoid)
      decreases s, 0
    {
      hide Ext, Flows, Later, LowerExpr, LowerStmt, Branch, Seal, Append;
      var cond := AppendLabelled(3);
      Jump(cond);
      PositionAtEnd(cond);
      var test := CodegenExpr(s.cond);
      BuildBranch(test, cond + 1, cond + 2);
      PositionAtEnd(cond + 1);
      CodegenStmt(s.loop, Targets(Some(cond + 2), Some(cond)), isVoid);
      Jump(cond);
      PositionAtEnd(cond + 2);
    }

    method CodegenFor(s: Stmt, isVoid: bool)
      requires s.ForRange?
      modifies this
      ensures View() == LowerFor(old(View()), s, isVoid)
      decreases s, 0
    {
      hide Ext, Flows, Later, LowerExpr, LowerStmt, Branch, Seal, Append, Define, Emit, EmitBin, Terminate;
      var cond := AppendLabelled(4);
      var from := CodegenExpr(s.from);
      var limit := CodegenExpr(s.to);
      var x := User(s.name);
      DefineVar(x, from);
      var end := LoopEnd(s.name, labels);
      LabelName();
      DefineVar(end, limit);
      Jump(cond);
      PositionAtEnd(cond);
      assert (View(), end) == LowerForHead(old(View()), s.name, s.from, s.to);
      CodegenForTest(x, end, cond + 1, cond + 3);
      CodegenStmt(s.loop, Targets(Some(cond + 3), Some(cond + 2)), isVoid);
      Jump(cond + 2);
      PositionAtEnd(cond + 2);
      CodegenForStep(x, cond, cond + 3);
    }

    method CodegenForTest(x: Name, end: Name, body: nat, after: nat)
      modifies this`blocks, this`bad, this`temps, this`current
      ensures View() == LowerForTest(old(View()), x, end, body, after)
    {
      var i := LoadVar(x);
      var limit := LoadVar(end);
      var c := BuildOp(Lt, i, limit);
      BuildBranch(c, body, after);
      PositionAtEnd(body);
    }

    method CodegenForStep(x: Name, cond: nat, after: nat)
      modifies this`blocks, this`bad, this`temps, this`current
      ensures View() == LowerForStep(old(View()), x, cond, after)
    {
      var i := LoadVar(x);
      var next := BuildTemp(Bin(temps, Add, i, Const(1)));
      Build(Store(next, SlotOf(vars, x)));
      BuildEnd(Br(cond));
      PositionAtEnd(after);
    }

    method CodegenMatch(s: Stmt, to: Targets, isVoid: bool)
      requires s.Match?
      modifies this
      ensures View() == LowerMatch(old(View()), s, to, isVoid)
      decreases s, 0
    {
      hide Ext, Flows, Later, LowerExpr, LowerArmBody, LowerTest, Seal, Append;
      var subject := CodegenExpr(s.subject);
      var end := AppendLabelled(2);
      var nextTest := end + 1;
      Jump(nextTest);
      var dflt: Option<nat> := None;
      ghost var b0 := At(View(), nextTest);
      for i := 0 to |s.arms|
        invariant dflt.Some? ==> dflt.value < |s.arms|
        invariant LowerArms(b0, s.arms, 0, subject, None, end, to, isVoid)
               == LowerArms(At(View(), nextTest), s.arms, i, subject, dflt, end, to, isVoid)
      {
        if s.arms[i].pattern.None? {
          dflt := Some(i);
        } else {
          PositionAtEnd(nextTest);
          var body := CodegenTest(subject, s.arms[i].pattern.value);
          CodegenArmBody(s.arms[i], to, isVoid);
          Jump(end);
          nextTest := body + 1;
        }
      }
      PositionAtEnd(nextTest);
      if dflt.Some? {
        CodegenArmBody(s.arms[dflt.value], to, isVoid);
      }
      Jump(end);
      PositionAtEnd(end);
    }

    method CodegenTest(subject: Val, pattern: Expr) returns (body: nat)
      modifies this
      ensures View() == LowerTest(old(View()), subject, pattern) && body == |old(blocks)|
      decreases pattern
    {
      hide Ext, Flows, Later, LowerExpr, Branch, Append;
      body := AppendLabelled(2);
      var p := CodegenExpr(pattern);
      var c := BuildOp(Eq, subject, p);
      BuildBranch(c, body, body + 1);
      PositionAtEnd(body);
    }

    method CodegenArmBody(arm: Arm, to: Targets, isVoid: bool)
      modifies this
      ensures View() == LowerArmBody(old(View()), arm, to, isVoid)
      decreases arm, 0
    {
      CodegenStmt(arm.body, to, isVoid);
    }

    // ----- functions -----

    /** Emits the parameters, the body and the final return after the entry block. */
    method CodegenFunction(f: Function)
      requires View() == Entry(temps, labels)
      modifies this
      ensures View() == LowerFunction(f, old(temps), old(labels))
    {
      hide Ext, Flows, Later, LowerStmt, Define;
      ghost var b0 := View();
      for i := 0 to |f.params|
        invariant LowerParams(b0, f.params, 0) == LowerParams(View(), f.params, i)
      {
        DefineVar(User(f.params[i]), Arg(i));
      }
      CodegenStmt(f.body, Targets(None, None), f.isVoid);
      var ended := CurrentTerminated();
      if !ended {
        BuildEnd(if f.isVoid then RetVoid else Ret(Const(0)));
      }
    }
  }
}
