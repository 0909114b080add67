/**
  Which names a statement takes over in the flat variable table: exactly those that some
  `let` or range loop in its emitted part declares. What comes after a statement that
  leaves its block is not emitted.
 */
module CodegenNames {
  import opened Options
  import opened Ir
  import opened Source
  import opened Codegen
  import opened CodegenShape
  import opened CodegenSim
  import opened CodegenTable
  import opened CodegenCorrect

  // ----- names in statements -----

  /** A statement that ends its block in every run. */
  predicate Stops(s: Stmt, inLoop: bool)
    decreases s, 1
  {
    match s
    case Break => inLoop
    case Continue => inLoop
    case Return => true
    case ReturnExpr(_) => true
    case Block(body) => StopsSeq(body, inLoop)
    case _ => false
  }

  predicate StopsSeq(ss: seq<Stmt>, inLoop: bool)
    decreases ss, 0
  {
    ss != [] && (Stops(ss[0], inLoop) || StopsSeq(ss[1..], inLoop))
  }

  /** The names that the emitted part of a statement declares. */
  function Defines(s: Stmt, inLoop: bool): set<string>
    decreases s, 1
  {
    match s
    case Let(x, _) => {x}
    case Block(body) => DefinesSeq(body, inLoop)
    case If(_, t, f) => Defines(t, inLoop) + if f.Some? then Defines(f.value, inLoop) else {}
    case While(_, body) => Defines(body, true)
    case ForRange(x, _, _, body) => {x} + Defines(body, true)
    case Match(_, arms) => DefinesArms(arms, inLoop)
    case _ => {}
  }

  function DefinesSeq(ss: seq<Stmt>, inLoop: bool): set<string>
    decreases ss, 0
  {
    if ss == [] then {}
    else Defines(ss[0], inLoop) + if Stops(ss[0], inLoop) then {} else DefinesSeq(ss[1..], inLoop)
  }

  /** Of several wildcards the last is emitted. */
  function DefinesArms(arms: seq<Arm>, inLoop: bool): set<string>
    decreases arms, 0
  {
    if arms == [] then {}
    else (if arms[0].pattern.None? && HasWildcard(arms[1..]) then {} else DefinesArm(arms[0], inLoop)) + DefinesArms(arms[1..], inLoop)
  }

  function DefinesArm(arm: Arm, inLoop: bool): set<string>
    decreases arm, 0
  {
    Defines(arm.body, inLoop)
  }

  predicate HasWildcard(arms: seq<Arm>) {
    exists k :: 0 <= k < |arms| && arms[k].pattern.None?
  }

  // ----- where emission goes on -----

  predicate SameTargets(to: Targets) {
    to.brk.Some? == to.cont.Some?
  }

  /** The current block is terminated after a statement that stops, and open after any other. */
  ghost predicate EndsAs(b: Builder, stops: bool) {
    if stops then b.Terminated() && !b.bad else b.Open()
  }

  lemma {:induction false} StmtEnds(b: Builder, s: Stmt, to: Targets, isVoid: bool)
    requires b.Open() && SameTargets(to)
    ensures EndsAs(LowerStmt(b, s, to, isVoid), Stops(s, to.brk.Some?))
    decreases s, 1
  {
    hide LowerExpr, Ext, Define, Emit, LowerIf, LowerWhile, LowerFor, LowerMatch, EndsAs;
    match s
    case Let(_, e) => ExprFlows(b, e); OpenEnds(LowerStmt(b, s, to, isVoid));
    case Assign(_, e) => ExprFlows(b, e); OpenEnds(LowerStmt(b, s, to, isVoid));
    case PrintStmt(e) => ExprFlows(b, e); OpenEnds(LowerStmt(b, s, to, isVoid));
    case ExprStmt(e) => ExprFlows(b, e); OpenEnds(LowerStmt(b, s, to, isVoid));
    case Block(body) => SeqEnds(b, body, to, isVoid);
    case If(_, _, _) =>
      IfStages(Self(LowerIf(b, s, to, isVoid)), b, s, to, isVoid) by { WithinSelf(LowerIf(b, s, to, isVoid)); }
      IfIs(b, s, to, isVoid);
      StartEnds(LowerIf(b, s, to, isVoid));
    case While(_, _) =>
      WhileStages(Self(LowerWhile(b, s, isVoid)), b, s, isVoid) by { WithinSelf(LowerWhile(b, s, isVoid)); }
      WhileIs(b, s, isVoid);
      StartEnds(LowerWhile(b, s, isVoid));
    case ForRange(_, _, _, _) =>
      ForStages(Self(LowerFor(b, s, isVoid)), b, s, isVoid) by { WithinSelf(LowerFor(b, s, isVoid)); }
      ForIs(b, s, isVoid);
      StartEnds(LowerFor(b, s, isVoid));
    case Match(_, _) =>
      MatchStages(Self(LowerMatch(b, s, to, isVoid)), b, s, to, isVoid) by { WithinSelf(LowerMatch(b, s, to, isVoid)); }
      StartEnds(LowerMatch(b, s, to, isVoid));
    case Break => JumpEnds(b, s, to, isVoid);
    case Continue => JumpEnds(b, s, to, isVoid);
    case Return => JumpEnds(b, s, to, isVoid);
    case ReturnExpr(e) => ExprFlows(b, e); ReturnEnds(b, s, to, isVoid);
  }

  function Self(b: Builder): Prog {
    Prog(b.blocks, [])
  }

  lemma WithinSelf(b: Builder)
    ensures Within(b, Self(b))
  {
  }

  lemma OpenEnds(b: Builder)
    requires b.Open()
    ensures EndsAs(b, false)
  {
  }

  lemma StartEnds(b: Builder)
    requires AtStart(b)
    ensures EndsAs(b, false)
  {
  }

  lemma JumpEnds(b: Builder, s: Stmt, to: Targets, isVoid: bool)
    requires b.Open() && SameTargets(to) && (s.Break? || s.Continue? || s.Return?)
    ensures EndsAs(LowerStmt(b, s, to, isVoid), Stops(s, to.brk.Some?))
  {
  }

  lemma ReturnEnds(b: Builder, s: Stmt, to: Targets, isVoid: bool)
    requires s.ReturnExpr? && LowerExpr(b, s.e).0.Open()
    ensures EndsAs(LowerStmt(b, s, to, isVoid), true)
  {
    hide LowerExpr;
  }

  lemma IfIs(b: Builder, s: Stmt, to: Targets, isVoid: bool)
    requires s.If?
    ensures
      var thn := |b.blocks|;
      var (b1, v) := LowerExpr(Append(Labels(b, 3), 3), s.cond);
      var b3 := LowerStmt(BranchTo(b1, v, thn), s.thn, to, isVoid);
      var b4 := SealTo(b3, thn + 2, thn + 1);
      LowerIf(b, s, to, isVoid) == SealTo(if s.els.Some? then LowerStmt(b4, s.els.value, to, isVoid) else b4, thn + 2, thn + 2)
  {
    hide LowerExpr, LowerStmt, BranchTo, SealTo, Append;
  }

  lemma WhileIs(b: Builder, s: Stmt, isVoid: bool)
    requires s.While?
    ensures
      var cond := |b.blocks|;
      var (b2, v) := LowerExpr(SealTo(Append(Labels(b, 3), 3), cond, cond), s.cond);
      LowerWhile(b, s, isVoid)
      == SealTo(LowerStmt(BranchTo(b2, v, cond + 1), s.loop, LoopTargets(cond + 2, cond), isVoid), cond, cond + 2)
  {
    hide LowerExpr, LowerStmt, BranchTo, SealTo, Append;
  }

  lemma ForIs(b: Builder, s: Stmt, isVoid: bool)
    requires s.ForRange?
    ensures
      var cond, x := |b.blocks|, User(s.name);
      var (b1, limit) := LowerForHead(b, s.name, s.from, s.to);
      var b2 := LowerForTest(b1, x, limit, cond + 1, cond + 3);
      LowerFor(b, s, isVoid)
      == LowerForStep(SealTo(LowerStmt(b2, s.loop, LoopTargets(cond + 3, cond + 2), isVoid), cond + 2, cond + 2), x, cond, cond + 3)
  {
    hide LowerForHead, LowerForTest, LowerForStep, LowerStmt, SealTo;
  }

  lemma {:induction false} SeqEnds(b: Builder, ss: seq<Stmt>, to: Targets, isVoid: bool)
    requires b.Open() && SameTargets(to)
    ensures EndsAs(LowerSeq(b, ss, to, isVoid), StopsSeq(ss, to.brk.Some?))
    decreases ss, 0
  {
    hide LowerStmt, Stops;
    if ss != [] {
      var b1 := LowerStmt(b, ss[0], to, isVoid);
      StmtEnds(b, ss[0], to, isVoid);
      if Stops(ss[0], to.brk.Some?) {
        assert LowerSeq(b1, ss[1..], to, isVoid) == b1;
      } else {
        SeqEnds(b1, ss[1..], to, isVoid);
      }
    }
  }

  // ----- the table, exactly -----

  /** The names among `names` have got slots from `slots` on; all others are as they were. */
  ghost predicate Redefined(v0: map<Name, nat>, v1: map<Name, nat>, slots: nat, names: set<string>) {
    forall x: string :: RedefinedAt(v0, v1, slots, x in names, User(x))
  }

  predicate RedefinedAt(v0: map<Name, nat>, v1: map<Name, nat>, slots: nat, redefined: bool, x: Name) {
    if redefined then x in v1 && v1[x] >= slots
    else (x in v1 <==> x in v0) && (x in v0 ==> v1[x] == v0[x])
  }

  ghost predicate Moved(b0: Builder, b1: Builder, names: set<string>) {
    b0.slots <= b1.slots && Redefined(b0.vars, b1.vars, b0.slots, names)
  }

  lemma MovedThen(b0: Builder, b1: Builder, b2: Builder, m: set<string>, n: set<string>)
    requires Moved(b0, b1, m) && Moved(b1, b2, n)
    ensures Moved(b0, b2, m + n)
  {
    forall x: string ensures RedefinedAt(b0.vars, b2.vars, b0.slots, x in m + n, User(x)) {
      assert RedefinedAt(b0.vars, b1.vars, b0.slots, x in m, User(x));
      assert RedefinedAt(b1.vars, b2.vars, b1.slots, x in n, User(x));
    }
  }

  lemma MovedSame(b0: Builder, b1: Builder)
    requires b1.vars == b0.vars && b0.slots <= b1.slots
    ensures Moved(b0, b1, {})
  {
  }

  /** What comes after part of an emission and defines nothing. */
  lemma MovedOn(b0: Builder, b1: Builder, b2: Builder, m: set<string>)
    requires Moved(b0, b1, m) && b2.vars == b1.vars && b1.slots <= b2.slots
    ensures Moved(b0, b2, m)
  {
    MovedSame(b1, b2);
    MovedThen(b0, b1, b2, m, {});
    assert m + {} == m;
  }

  lemma MovedAfter(b0: Builder, b1: Builder, b2: Builder, m: set<string>)
    requires b1.vars == b0.vars && b0.slots <= b1.slots && Moved(b1, b2, m)
    ensures Moved(b0, b2, m)
  {
    MovedSame(b0, b1);
    MovedThen(b0, b1, b2, {}, m);
    assert {} + m == m;
  }

  lemma DefineMoves(b: Builder, x: string, v: Val)
    ensures Moved(b, Define(b, User(x), v), {x})
  {
    hide Ext;
  }

  lemma HiddenMoves(b: Builder, name: Name, v: Val)
    requires name.LoopEnd?
    ensures Moved(b, Define(b, name, v), {})
  {
    hide Ext;
  }

  lemma ExtSlots(b0: Builder, b1: Builder, pending: set<nat>)
    requires Ext(b0, b1, pending)
    ensures b0.slots <= b1.slots
  {
  }

  /** Emitting a statement moves exactly the names that it declares. */
  lemma {:induction false} TableMoves(b: Builder, s: Stmt, to: Targets, isVoid: bool)
    requires b.Open() && SameTargets(to)
    ensures Moved(b, LowerStmt(b, s, to, isVoid), Defines(s, to.brk.Some?))
    decreases s, 1
  {
    hide Moved, LowerExpr, Ext, Define, Emit, LowerIf, LowerWhile, LowerFor, LowerMatch;
    match s
    case Let(x, e) =>
      var (b1, v) := LowerExpr(b, e);
      ExprTable(b, e);
      DefineMoves(b1, x, v);
      MovedAfter(b, b1, Define(b1, User(x), v), {x});
    case Assign(_, e) => ExprTable(b, e); MovedSame(b, LowerStmt(b, s, to, isVoid));
    case PrintStmt(e) => ExprTable(b, e); MovedSame(b, LowerStmt(b, s, to, isVoid));
    case ExprStmt(e) => ExprTable(b, e); MovedSame(b, LowerStmt(b, s, to, isVoid));
    case Block(body) => SeqMoves(b, body, to, isVoid);
    case If(_, _, _) => IfMoves(b, s, to, isVoid);
    case While(_, _) => WhileMoves(b, s, isVoid);
    case ForRange(_, _, _, _) => ForMoves(b, s, isVoid);
    case Match(_, _) => MatchMoves(b, s, to, isVoid);
    case Break => MovedSame(b, LowerStmt(b, s, to, isVoid));
    case Continue => MovedSame(b, LowerStmt(b, s, to, isVoid));
    case Return => MovedSame(b, LowerStmt(b, s, to, isVoid));
    case ReturnExpr(e) => ExprTable(b, e); MovedSame(b, LowerStmt(b, s, to, isVoid));
  }

  lemma {:induction false} SeqMoves(b: Builder, ss: seq<Stmt>, to: Targets, isVoid: bool)
    requires b.Open() && SameTargets(to)
    ensures Moved(b, LowerSeq(b, ss, to, isVoid), DefinesSeq(ss, to.brk.Some?))
    decreases ss, 0
  {
    hide Moved, LowerStmt, Defines, Stops;
    if ss == [] {
      MovedSame(b, b);
    } else {
      var b1 := LowerStmt(b, ss[0], to, isVoid);
      TableMoves(b, ss[0], to, isVoid);
      StmtEnds(b, ss[0], to, isVoid);
      if Stops(ss[0], to.brk.Some?) {
        assert LowerSeq(b1, ss[1..], to, isVoid) == b1;
        assert Defines(ss[0], to.brk.Some?) + {} == Defines(ss[0], to.brk.Some?);
      } else {
        SeqMoves(b1, ss[1..], to, isVoid);
        MovedThen(b, b1, LowerSeq(b1, ss[1..], to, isVoid), Defines(ss[0], to.brk.Some?), DefinesSeq(ss[1..], to.brk.Some?));
      }
    }
  }

  lemma {:induction false} IfMoves(b: Builder, s: Stmt, to: Targets, isVoid: bool)
    requires b.Open() && SameTargets(to) && s.If?
    ensures Moved(b, LowerIf(b, s, to, isVoid), Defines(s, to.brk.Some?))
    decreases s, 0
  {
    hide Moved, LowerExpr, LowerStmt, Ext, BranchTo, SealTo, AtStart, Within, LowerIf, Append;
    var inLoop := to.brk.Some?;
    WithinSelf(LowerIf(b, s, to, isVoid));
    IfStages(Self(LowerIf(b, s, to, isVoid)), b, s, to, isVoid);
    IfIs(b, s, to, isVoid);
    var thn := |b.blocks|;
    var (b1, v) := LowerExpr(Append(Labels(b, 3), 3), s.cond);
    var b2 := BranchTo(b1, v, thn);
    StartOpen(b2);
    var b3 := LowerStmt(b2, s.thn, to, isVoid);
    TableMoves(b2, s.thn, to, isVoid);
    MovedAfter(b, b2, b3, Defines(s.thn, inLoop));
    var b4 := SealTo(b3, thn + 2, thn + 1);
    SealKeeps(b3, thn + 2, thn + 1);
    MovedOn(b, b3, b4, Defines(s.thn, inLoop));
    StartOpen(b4);
    if s.els.Some? {
      var b5 := LowerStmt(b4, s.els.value, to, isVoid);
      TableMoves(b4, s.els.value, to, isVoid);
      MovedThen(b, b4, b5, Defines(s.thn, inLoop), Defines(s.els.value, inLoop));
      SealKeeps(b5, thn + 2, thn + 2);
      MovedOn(b, b5, SealTo(b5, thn + 2, thn + 2), Defines(s, inLoop));
    } else {
      SealKeeps(b4, thn + 2, thn + 2);
      MovedOn(b, b4, SealTo(b4, thn + 2, thn + 2), Defines(s.thn, inLoop));
      assert Defines(s, inLoop) == Defines(s.thn, inLoop);
    }
  }

  lemma SealKeeps(b: Builder, target: nat, next: nat)
    ensures SealTo(b, target, next).vars == b.vars && SealTo(b, target, next).slots == b.slots
  {
  }

  lemma {:induction false} WhileMoves(b: Builder, s: Stmt, isVoid: bool)
    requires b.Open() && s.While?
    ensures Moved(b, LowerWhile(b, s, isVoid), Defines(s.loop, true))
    decreases s, 0
  {
    hide Moved, LowerExpr, LowerStmt, Ext, BranchTo, SealTo, AtStart, Within, LowerWhile, Append;
    WithinSelf(LowerWhile(b, s, isVoid));
    WhileStages(Self(LowerWhile(b, s, isVoid)), b, s, isVoid);
    WhileIs(b, s, isVoid);
    var cond := |b.blocks|;
    var (b2, v) := LowerExpr(SealTo(Append(Labels(b, 3), 3), cond, cond), s.cond);
    var b3 := BranchTo(b2, v, cond + 1);
    StartOpen(b3);
    var to := LoopTargets(cond + 2, cond);
    var b4 := LowerStmt(b3, s.loop, to, isVoid);
    TableMoves(b3, s.loop, to, isVoid);
    MovedAfter(b, b3, b4, Defines(s.loop, true));
    SealKeeps(b4, cond, cond + 2);
    MovedOn(b, b4, SealTo(b4, cond, cond + 2), Defines(s.loop, true));
  }

  lemma ForHeadMoves(b: Builder, x: string, from: Expr, limit: Expr)
    ensures Moved(b, LowerForHead(b, x, from, limit).0, {x})
    ensures var (r, end) := LowerForHead(b, x, from, limit);
            end.LoopEnd? && end in r.vars && User(x) in r.vars && r.vars[User(x)] >= b.slots
  {
    hide Moved, LowerExpr, Ext, Define, Append, SealTo;
    var b0 := Append(Labels(b, 4), 4);
    var (b1, vFrom) := LowerExpr(b0, from);
    var (b2, vLimit) := LowerExpr(b1, limit);
    ExprTable(b0, from);
    ExprTable(b1, limit);
    assert b0.vars == b.vars && b0.slots == b.slots by { AppendKeeps(b, 4, 4); }
    var b3 := Define(b2, User(x), vFrom);
    DefineMoves(b2, x, vFrom);
    MovedAfter(b, b2, b3, {x});
    var end := LoopEnd(x, b3.labels);
    HiddenMoves(Labels(b3, 1), end, vLimit);
    MovedOn(b, b3, Labels(b3, 1), {x});
    var b4 := Define(Labels(b3, 1), end, vLimit);
    MovedThen(b, Labels(b3, 1), b4, {x}, {});
    assert {x} + {} == {x};
    var cond := |b.blocks|;
    SealKeeps(b4, cond, cond);
    MovedOn(b, b4, SealTo(b4, cond, cond), {x});
    assert end in b4.vars by { DefineAdds(Labels(b3, 1), end, vLimit); }
    MovedName(b, LowerForHead(b, x, from, limit).0, {x}, x);
  }

  lemma MovedName(b: Builder, b1: Builder, names: set<string>, x: string)
    requires Moved(b, b1, names)
    ensures RedefinedAt(b.vars, b1.vars, b.slots, x in names, User(x))
  {
  }

  lemma AppendKeeps(b: Builder, labels: nat, n: nat)
    ensures var r := Append(Labels(b, labels), n); r.vars == b.vars && r.slots == b.slots
  {
  }

  lemma DefineAdds(b: Builder, name: Name, v: Val)
    ensures name in Define(b, name, v).vars
  {
    hide Ext;
  }

  lemma {:induction false} ForMoves(b: Builder, s: Stmt, isVoid: bool)
    requires b.Open() && s.ForRange?
    ensures Moved(b, LowerFor(b, s, isVoid), {s.name} + Defines(s.loop, true))
    decreases s, 0
  {
    hide Moved, LowerForHead, LowerForTest, LowerForStep, LowerStmt, Ext, SealTo, AtStart, Within, LowerFor;
    WithinSelf(LowerFor(b, s, isVoid));
    ForStages(Self(LowerFor(b, s, isVoid)), b, s, isVoid);
    ForIs(b, s, isVoid);
    var cond, x := |b.blocks|, User(s.name);
    var (b1, limit) := LowerForHead(b, s.name, s.from, s.to);
    ForHeadMoves(b, s.name, s.from, s.to);
    var b2 := LowerForTest(b1, x, limit, cond + 1, cond + 3);
    MovedOn(b, b1, b2, {s.name});
    StartOpen(b2);
    var to := LoopTargets(cond + 3, cond + 2);
    var b3 := LowerStmt(b2, s.loop, to, isVoid);
    TableMoves(b2, s.loop, to, isVoid);
    MovedThen(b, b2, b3, {s.name}, Defines(s.loop, true));
    var b4 := SealTo(b3, cond + 2, cond + 2);
    SealKeeps(b3, cond + 2, cond + 2);
    MovedOn(b, b3, b4, {s.name} + Defines(s.loop, true));
    MovedOn(b, b4, LowerForStep(b4, x, cond, cond + 3), {s.name} + Defines(s.loop, true));
  }

  lemma {:induction false} MatchMoves(b: Builder, s: Stmt, to: Targets, isVoid: bool)
    requires b.Open() && SameTargets(to) && s.Match?
    ensures Moved(b, LowerMatch(b, s, to, isVoid), DefinesArms(s.arms, to.brk.Some?))
    decreases s, 0
  {
    hide Moved, LowerExpr, LowerArms, Ext, SealTo, AtStart, Within, Append;
    var (b1, v) := LowerExpr(b, s.subject);
    var end := |b1.blocks|;
    var b3 := SealTo(Append(Labels(b1, 2), 2), end + 1, end + 1);
    var b4 := LowerArms(b3, s.arms, 0, v, None, end, to, isVoid);
    WithinSelf(LowerMatch(b, s, to, isVoid));
    MatchStages(Self(LowerMatch(b, s, to, isVoid)), b, s, to, isVoid);
    StartOpen(b3);
    ArmsMove(b3, s.arms, 0, v, None, end, to, isVoid);
    assert s.arms[0..] == s.arms && DefinesFrom(s.arms, 0, None, to.brk.Some?) == DefinesArms(s.arms, to.brk.Some?);
    MovedAfter(b, b3, b4, DefinesArms(s.arms, to.brk.Some?));
    MovedOn(b, b4, At(b4, end), DefinesArms(s.arms, to.brk.Some?));
  }

  /** What the arms from `i` on declare, with a wildcard met before. */
  function DefinesFrom(arms: seq<Arm>, i: nat, dflt: Option<nat>, inLoop: bool): set<string>
    requires i <= |arms| && (dflt.Some? ==> dflt.value < |arms|)
  {
    DefinesArms(arms[i..], inLoop) + if dflt.Some? && !HasWildcard(arms[i..]) then DefinesArm(arms[dflt.value], inLoop) else {}
  }

  lemma {:induction false} ArmsMove(b: Builder, arms: seq<Arm>, i: nat, v: Val, dflt: Option<nat>, end: nat, to: Targets, isVoid: bool)
    requires i <= |arms| && (dflt.Some? ==> dflt.value < |arms|) && b.Open() && SameTargets(to)
    ensures Moved(b, LowerArms(b, arms, i, v, dflt, end, to, isVoid), DefinesFrom(arms, i, dflt, to.brk.Some?))
    decreases arms, |arms| - i
  {
    hide Moved, LowerTest, LowerArmBody, Ext, SealTo, AtStart, Later, DefinesArm, Seal;
    var inLoop := to.brk.Some?;
    if i == |arms| {
      var b1 := if dflt.Some? then LowerArmBody(b, arms[dflt.value], to, isVoid) else b;
      if dflt.Some? { ArmMoves(b, arms[dflt.value], to, isVoid); } else { MovedSame(b, b); }
      assert arms[i..] == [] && !HasWildcard(arms[i..]);
      assert DefinesFrom(arms, i, dflt, inLoop) == if dflt.Some? then DefinesArm(arms[dflt.value], inLoop) else {};
      MovedOn(b, b1, Seal(b1, end), DefinesFrom(arms, i, dflt, inLoop));
    } else {
      assert arms[i..][0] == arms[i] && arms[i..][1..] == arms[i + 1..];
      WildcardFrom(arms, i);
      if arms[i].pattern.None? {
        ArmsMove(b, arms, i + 1, v, Some(i), end, to, isVoid);
      } else {
        var body := |b.blocks|;
        var b1 := LowerTest(b, v, arms[i].pattern.value);
        var b2 := LowerArmBody(b1, arms[i], to, isVoid);
        var b3 := SealTo(b2, end, body + 1);
        ArmOpens(b, arms, i, v, end, to, isVoid);
        ArmMoves(b1, arms[i], to, isVoid);
        MovedAfter(b, b1, b2, DefinesArm(arms[i], inLoop));
        SealKeeps(b2, end, body + 1);
        MovedOn(b, b2, b3, DefinesArm(arms[i], inLoop));
        ArmsMove(b3, arms, i + 1, v, dflt, end, to, isVoid);
        MovedThen(b, b3, LowerArms(b3, arms, i + 1, v, dflt, end, to, isVoid),
                  DefinesArm(arms[i], inLoop), DefinesFrom(arms, i + 1, dflt, inLoop));
      }
      DefinesStep(arms, i, dflt, inLoop);
    }
  }

  lemma WildcardFrom(arms: seq<Arm>, i: nat)
    requires i < |arms|
    ensures HasWildcard(arms[i..]) <==> arms[i].pattern.None? || HasWildcard(arms[i + 1..])
  {
    var a, c := arms[i..], arms[i + 1..];
    if HasWildcard(a) {
      var k :| 0 <= k < |a| && a[k].pattern.None?;
      if k > 0 { assert c[k - 1].pattern.None?; }
    }
    if HasWildcard(c) {
      var k :| 0 <= k < |c| && c[k].pattern.None?;
      assert a[k + 1].pattern.None?;
    }
    if arms[i].pattern.None? { assert a[0].pattern.None?; }
  }

  lemma DefinesStep(arms: seq<Arm>, i: nat, dflt: Option<nat>, inLoop: bool)
    requires i < |arms| && (dflt.Some? ==> dflt.value < |arms|)
    ensures DefinesFrom(arms, i, dflt, inLoop)
            == if arms[i].pattern.None? then DefinesFrom(arms, i + 1, Some(i), inLoop)
               else DefinesArm(arms[i], inLoop) + DefinesFrom(arms, i + 1, dflt, inLoop)
  {
    hide DefinesArm, HasWildcard;
    WildcardFrom(arms, i);
    assert arms[i..][0] == arms[i] && arms[i..][1..] == arms[i + 1..];
  }

  lemma {:induction false} ArmMoves(b: Builder, arm: Arm, to: Targets, isVoid: bool)
    requires b.Open() && SameTargets(to)
    ensures Moved(b, LowerArmBody(b, arm, to, isVoid), DefinesArm(arm, to.brk.Some?))
    decreases arm, 0
  {
    TableMoves(b, arm.body, to, isVoid);
  }

  /** The builders around one arm are open, and its test defines nothing. */
  lemma ArmOpens(b: Builder, arms: seq<Arm>, i: nat, v: Val, end: nat, to: Targets, isVoid: bool)
    requires i < |arms| && arms[i].pattern.Some? && b.Open()
    ensures
      var b1 := LowerTest(b, v, arms[i].pattern.value);
      b1.Open() && b1.vars == b.vars && b.slots <= b1.slots
      && SealTo(LowerArmBody(b1, arms[i], to, isVoid), end, |b.blocks| + 1).Open()
  {
    hide Ext, AtStart, LowerTest, LowerArmBody, SealTo, Later;
    var body, pattern := |b.blocks|, arms[i].pattern.value;
    var b1 := LowerTest(b, v, pattern);
    TestShape(b, v, pattern);
    TestTable(b, v, pattern);
    StartOpen(b1);
    var b2 := LowerArmBody(b1, arms[i], to, isVoid);
    ArmBodyExt(b1, arms[i], to, isVoid);
    ExtThen(b, b1, b2, {body + 1});
    SealToShape(b, b2, end, body + 1, {body + 1}, {});
    StartOpen(SealTo(b2, end, body + 1));
  }

  /** The table theorem: emitting a statement leaves the slot of a name as it was exactly
      when no `let` and no range loop that it emits carries the name. */
  lemma SlotStaysExactly(b: Builder, s: Stmt, to: Targets, isVoid: bool, x: string)
    requires b.Open() && SameTargets(to) && TableOk(b.vars, b.slots) && User(x) in b.vars
    ensures User(x) in LowerStmt(b, s, to, isVoid).vars
    ensures LowerStmt(b, s, to, isVoid).vars[User(x)] == b.vars[User(x)] <==> x !in Defines(s, to.brk.Some?)
  {
    hide LowerStmt, Defines;
    TableMoves(b, s, to, isVoid);
    MovedName(b, LowerStmt(b, s, to, isVoid), Defines(s, to.brk.Some?), x);
  }
}
