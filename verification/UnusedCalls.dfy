/**
  Counting calls as uses makes fewer declarations unused: so whatever nothing uses and nothing
  calls is reported.
 */
module UnusedCalls {
  import opened Scoping
  import opened Diagnostics
  import opened ScopeRules
  import opened ScopeFacts
  import opened ScopeProof
  import opened ScopeTraversal
  import opened UnusedRules
  import opened UnusedFrames
  import opened UnusedTraversal

  // ----- more is used -----

  lemma {:induction false} MoreUses(p: Program, e: Expr)
    ensures Uses(p, false, e) <= Uses(p, true, e)
    decreases e, 2
  {
    match e
    case Operator(_, _, operands) => MoreUsesOfAll(p, operands);
    case OptionOf(_, inner) => MoreUses(p, inner);
    case StructLiteral(_, _, args, _) => MoreUsesOfAll(p, args);
    case Call(_, callee, _, args, _) =>
      MoreUses(p, callee);
      MoreUsesOfAll(p, args);
    case MatchOf(subject, arms, _) =>
      MoreUses(p, subject);
      MoreUsesOfArms(p, arms);
    case BlockOf(body, value) =>
      MoreUsesOfBlock(p, body);
      MoreUses(p, value);
    case _ =>
  }

  lemma {:induction false} MoreUsesOfAll(p: Program, es: seq<Expr>)
    ensures UsesOfAll(p, false, es) <= UsesOfAll(p, true, es)
    decreases es, 0
  {
    if es != [] {
      MoreUses(p, es[0]);
      MoreUsesOfAll(p, es[1..]);
    }
  }

  lemma {:induction false} MoreUsesOfArms(p: Program, arms: seq<ExprArm>)
    ensures UsesOfArms(p, false, arms) <= UsesOfArms(p, true, arms)
    decreases arms, 0
  {
    if arms != [] {
      MoreUsesOfArm(p, arms[0]);
      MoreUsesOfArms(p, arms[1..]);
    }
  }

  lemma {:induction false} MoreUsesOfArm(p: Program, arm: ExprArm)
    ensures UsesOfArm(p, false, arm) <= UsesOfArm(p, true, arm)
    decreases arm, 0
  {
    MoreUsesOfPattern(p, arm.pattern);
    MoreUses(p, arm.body);
  }

  lemma {:induction false} MoreUsesOfPattern(p: Program, e: Expr)
    ensures UsesOfPattern(p, false, e) <= UsesOfPattern(p, true, e)
    decreases e, 3
  {
    if e.Call? && IsVariant(p, e.text) { MoreUsesOfPatternArgs(p, e.args); } else { MoreUses(p, e); }
  }

  lemma {:induction false} MoreUsesOfPatternArgs(p: Program, args: seq<Expr>)
    ensures UsesOfPatternArgs(p, false, args) <= UsesOfPatternArgs(p, true, args)
    decreases args, 0
  {
    if args != [] {
      MoreUsesOfPattern(p, args[0]);
      MoreUsesOfPatternArgs(p, args[1..]);
    }
  }

  lemma {:induction false} MoreUsesOfStmt(p: Program, s: Stmt)
    ensures UsesOfStmt(p, false, s) <= UsesOfStmt(p, true, s)
    decreases s, 2
  {
    match s
    case Let(_, _, init, _) => MoreUses(p, init);
    case Assign(_, value, _) => MoreUses(p, value);
    case Evaluate(_, operands) => MoreUsesOfAll(p, operands);
    case Block(stmts) => MoreUsesOfStmts(p, stmts);
    case While(cond, body) =>
      MoreUses(p, cond);
      MoreUsesOfStmt(p, body);
    case ForRange(_, from, to, body, _) =>
      MoreUses(p, from);
      MoreUses(p, to);
      MoreUsesOfStmt(p, body);
    case If(cond, body, els) =>
      MoreUses(p, cond);
      MoreUsesOfStmt(p, body);
      MoreUsesOfStmt(p, els);
    case Match(subject, arms, _) =>
      MoreUses(p, subject);
      MoreUsesOfStmtArms(p, arms);
    case _ =>
  }

  lemma {:induction false} MoreUsesOfStmts(p: Program, ss: seq<Stmt>)
    ensures UsesOfStmts(p, false, ss) <= UsesOfStmts(p, true, ss)
    decreases ss, 0
  {
    if ss != [] {
      MoreUsesOfStmt(p, ss[0]);
      MoreUsesOfStmts(p, ss[1..]);
    }
  }

  lemma {:induction false} MoreUsesOfStmtArms(p: Program, arms: seq<StmtArm>)
    ensures UsesOfStmtArms(p, false, arms) <= UsesOfStmtArms(p, true, arms)
    decreases arms, 0
  {
    if arms != [] {
      MoreUsesOfStmtArm(p, arms[0]);
      MoreUsesOfStmtArms(p, arms[1..]);
    }
  }

  lemma {:induction false} MoreUsesOfStmtArm(p: Program, arm: StmtArm)
    ensures UsesOfStmtArm(p, false, arm) <= UsesOfStmtArm(p, true, arm)
    decreases arm, 0
  {
    MoreUsesOfPattern(p, arm.pattern);
    MoreUsesOfStmt(p, arm.body);
  }

  lemma {:induction false} MoreUsesOfBlock(p: Program, s: Stmt)
    ensures UsesOfBlock(p, false, s) <= UsesOfBlock(p, true, s)
    decreases s, 3
  {
    if s.Block? { MoreUsesOfStmts(p, s.stmts); } else { MoreUsesOfStmt(p, s); }
  }

  // ----- less is unused -----

  lemma {:induction false} LessIdle(p: Program, s: Stmt, later: set<string>, more: set<string>)
    requires later <= more
    ensures Idle(p, true, s, more) <= Idle(p, false, s, later)
    decreases s
  {
    match s
    case While(_, body) => LessIdle(p, body, later, more);
    case If(_, body, els) =>
      MoreUsesOfStmt(p, els);
      LessIdle(p, body, UsesOfStmt(p, false, els) + later, UsesOfStmt(p, true, els) + more);
      LessIdle(p, els, later, more);
    case _ =>
  }

  lemma {:induction false} LessIdleOfAll(p: Program, ss: seq<Stmt>, later: set<string>, more: set<string>)
    requires later <= more
    ensures IdleOfAll(p, true, ss, more) <= IdleOfAll(p, false, ss, later)
    decreases ss
  {
    if ss != [] {
      MoreUsesOfStmts(p, ss[1..]);
      LessIdle(p, ss[0], UsesOfStmts(p, false, ss[1..]) + later, UsesOfStmts(p, true, ss[1..]) + more);
      LessIdleOfAll(p, ss[1..], later, more);
    }
  }

  lemma {:induction false} LessIdleBinders(names: seq<Expr>, later: set<string>, more: set<string>)
    requires later <= more && forall i :: 0 <= i < |names| ==> names[i].Ident?
    ensures IdleBinders(names, more) <= IdleBinders(names, later)
    decreases names
  {
    if names != [] { LessIdleBinders(names[1..], later, more); }
  }

  lemma {:induction false} LessUnused(p: Program, e: Expr)
    ensures Unused(p, true, e) <= Unused(p, false, e)
    decreases e, 2
  {
    match e
    case Operator(_, _, operands) => LessUnusedInAll(p, operands);
    case OptionOf(_, inner) => LessUnused(p, inner);
    case StructLiteral(_, _, args, _) => LessUnusedInAll(p, args);
    case Call(_, callee, _, args, _) =>
      LessUnused(p, callee);
      LessUnusedInAll(p, args);
    case MatchOf(subject, arms, _) =>
      LessUnused(p, subject);
      LessUnusedInArms(p, arms);
    case BlockOf(body, value) =>
      LessUnusedInBlock(p, body);
      LessUnused(p, value);
      MoreUses(p, value);
      if body.Block? { LessIdleOfAll(p, body.stmts, Uses(p, false, value), Uses(p, true, value)); }
      else { LessIdle(p, body, Uses(p, false, value), Uses(p, true, value)); }
    case _ =>
  }

  lemma {:induction false} LessUnusedInAll(p: Program, es: seq<Expr>)
    ensures UnusedInAll(p, true, es) <= UnusedInAll(p, false, es)
    decreases es, 0
  {
    if es != [] {
      LessUnused(p, es[0]);
      LessUnusedInAll(p, es[1..]);
    }
  }

  lemma {:induction false} LessUnusedInArms(p: Program, arms: seq<ExprArm>)
    ensures UnusedInArms(p, true, arms) <= UnusedInArms(p, false, arms)
    decreases arms, 0
  {
    if arms != [] {
      LessUnusedInArm(p, arms[0]);
      LessUnusedInArms(p, arms[1..]);
    }
  }

  lemma {:induction false} LessUnusedInArm(p: Program, arm: ExprArm)
    ensures UnusedInArm(p, true, arm) <= UnusedInArm(p, false, arm)
    decreases arm, 0
  {
    LessUnusedInPattern(p, arm.pattern);
    LessUnused(p, arm.body);
    MoreUses(p, arm.body);
    LessIdleBinders(Binders(p, arm.pattern), Uses(p, false, arm.body), Uses(p, true, arm.body));
  }

  lemma {:induction false} LessUnusedInPattern(p: Program, e: Expr)
    ensures UnusedInPattern(p, true, e) <= UnusedInPattern(p, false, e)
    decreases e, 3
  {
    if e.Call? && IsVariant(p, e.text) { LessUnusedInPatternArgs(p, e.args); } else { LessUnused(p, e); }
  }

  lemma {:induction false} LessUnusedInPatternArgs(p: Program, args: seq<Expr>)
    ensures UnusedInPatternArgs(p, true, args) <= UnusedInPatternArgs(p, false, args)
    decreases args, 0
  {
    if args != [] {
      LessUnusedInPattern(p, args[0]);
      LessUnusedInPatternArgs(p, args[1..]);
    }
  }

  lemma {:induction false} LessUnusedInStmt(p: Program, s: Stmt)
    ensures UnusedInStmt(p, true, s) <= UnusedInStmt(p, false, s)
    decreases s, 2
  {
    match s
    case Let(_, _, init, _) => LessUnused(p, init);
    case Assign(_, value, _) => LessUnused(p, value);
    case Evaluate(_, operands) => LessUnusedInAll(p, operands);
    case Block(stmts) =>
      LessUnusedInStmts(p, stmts);
      LessIdleOfAll(p, stmts, {}, {});
    case While(cond, body) =>
      LessUnused(p, cond);
      LessUnusedInStmt(p, body);
    case ForRange(name, from, to, body, loc) =>
      LessUnused(p, from);
      LessUnused(p, to);
      LessUnusedInStmt(p, body);
      MoreUsesOfStmt(p, body);
      LessIdle(p, body, {}, {});
    case If(cond, body, els) =>
      LessUnused(p, cond);
      LessUnusedInStmt(p, body);
      LessUnusedInStmt(p, els);
    case Match(subject, arms, _) =>
      LessUnused(p, subject);
      LessUnusedInStmtArms(p, arms);
    case _ =>
  }

  lemma {:induction false} LessUnusedInStmts(p: Program, ss: seq<Stmt>)
    ensures UnusedInStmts(p, true, ss) <= UnusedInStmts(p, false, ss)
    decreases ss, 0
  {
    if ss != [] {
      LessUnusedInStmt(p, ss[0]);
      LessUnusedInStmts(p, ss[1..]);
    }
  }

  lemma {:induction false} LessUnusedInStmtArms(p: Program, arms: seq<StmtArm>)
    ensures UnusedInStmtArms(p, true, arms) <= UnusedInStmtArms(p, false, arms)
    decreases arms, 0
  {
    if arms != [] {
      LessUnusedInStmtArm(p, arms[0]);
      LessUnusedInStmtArms(p, arms[1..]);
    }
  }

  lemma {:induction false} LessUnusedInStmtArm(p: Program, arm: StmtArm)
    ensures UnusedInStmtArm(p, true, arm) <= UnusedInStmtArm(p, false, arm)
    decreases arm, 0
  {
    LessUnusedInPattern(p, arm.pattern);
    LessUnusedInStmt(p, arm.body);
    MoreUsesOfStmt(p, arm.body);
    LessIdleBinders(Binders(p, arm.pattern), UsesOfStmt(p, false, arm.body), UsesOfStmt(p, true, arm.body));
    LessIdle(p, arm.body, {}, {});
  }

  lemma {:induction false} LessUnusedInBlock(p: Program, s: Stmt)
    ensures UnusedInBlock(p, true, s) <= UnusedInBlock(p, false, s)
    decreases s, 3
  {
    if s.Block? { LessUnusedInStmts(p, s.stmts); } else { LessUnusedInStmt(p, s); }
  }

  /** With warnings on, a declaration that is neither used nor called is reported. */
  lemma TheUnusedAreReported(c: Context, r: Report, globals: seq<string>, params: seq<string>, captures: seq<string>, body: Stmt, d: Decl)
    requires ReportOk(r) && Named(c.program) && r.errors == 0 && r.emitWarnings
    requires StmtOk(c.program, [Immutable(Elements(globals + params + captures))], body)
    requires d in UnusedInStmt(c.program, true, body)
    ensures Repeats(CheckFunctionBody(c, r, globals, params, captures, body).report.bag.diags, WarningOf(c, d))
  {
    hide StmtOk, UnusedInStmt, CheckFunctionBody;
    WarningsAreForTheUnused(c, r, globals, params, captures, body);
    LessUnusedInStmt(c.program, body);
  }
}
