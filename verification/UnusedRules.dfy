/**
  Which declarations of a body no use resolves to, said of the text alone: a declaration is
  unused when its name is not among the names that the rest of its scope uses.
 */
module UnusedRules {
  import opened Scoping

  type Decl = (string, Loc)

  function NameSet(names: seq<string>): set<string> {
    set n | n in names
  }

  /** What a declaration puts into scope; `_` is nobody's name. */
  function Name(name: string): set<string> {
    if name == "_" then {} else {name}
  }

  function BinderNames(names: seq<Expr>): set<string>
    requires forall i :: 0 <= i < |names| ==> names[i].Ident?
    decreases names
  {
    if names == [] then {} else Name(names[0].text) + BinderNames(names[1..])
  }

  // ----- uses -----

  /** The names that are used and not declared inside. With `calls`, calling a variable is a
      use of it. */
  function Uses(p: Program, calls: bool, e: Expr): set<string>
    decreases e, 2
  {
    match e
    case NoExpr => {}
    case Literal(_) => {}
    case Ident(t, _) => if IsVariant(p, t) || IsFunction(p, t) then {} else {t}
    case Addr(t, _) => {t}
    case Operator(_, _, operands) => UsesOfAll(p, calls, operands)
    case OptionOf(_, inner) => Uses(p, calls, inner)
    case StructLiteral(_, _, args, _) => UsesOfAll(p, calls, args)
    case Call(text, callee, _, args, _) =>
      (if callee != NoExpr then Uses(p, calls, callee)
       else if !calls || text == "clone" || IsFunction(p, text) || IsVariant(p, text) then {} else {text})
      + UsesOfAll(p, calls, args)
    case Lambda(_, captures, _) => NameSet(captures)
    case MatchOf(subject, arms, _) => Uses(p, calls, subject) + UsesOfArms(p, calls, arms)
    case BlockOf(body, value) => UsesOfBlock(p, calls, body) + (Uses(p, calls, value) - BlockNames(body))
  }

  function UsesOfAll(p: Program, calls: bool, es: seq<Expr>): set<string>
    decreases es, 0
  {
    if es == [] then {} else Uses(p, calls, es[0]) + UsesOfAll(p, calls, es[1..])
  }

  function UsesOfArms(p: Program, calls: bool, arms: seq<ExprArm>): set<string>
    decreases arms, 0
  {
    if arms == [] then {} else UsesOfArm(p, calls, arms[0]) + UsesOfArms(p, calls, arms[1..])
  }

  function UsesOfArm(p: Program, calls: bool, arm: ExprArm): set<string>
    decreases arm, 0
  {
    UsesOfPattern(p, calls, arm.pattern) + (Uses(p, calls, arm.body) - BinderNames(Binders(p, arm.pattern)))
  }

  function UsesOfPattern(p: Program, calls: bool, e: Expr): set<string>
    decreases e, 3
  {
    if e == NoExpr || (e.OptionOf? && e.hasValue && e.inner.Ident?) then {}
    else if e.Call? && IsVariant(p, e.text) then UsesOfPatternArgs(p, calls, e.args)
    else Uses(p, calls, e)
  }

  function UsesOfPatternArgs(p: Program, calls: bool, args: seq<Expr>): set<string>
    decreases args, 0
  {
    if args == [] then {}
    else (if args[0].Ident? then {} else UsesOfPattern(p, calls, args[0])) + UsesOfPatternArgs(p, calls, args[1..])
  }

  /** The names that a statement puts into the scope it stands in. */
  function LetNames(s: Stmt): set<string> {
    match s
    case Let(name, _, _, _) => Name(name)
    case While(_, body) => LetNames(body)
    case If(_, body, els) => LetNames(body) + LetNames(els)
    case _ => {}
  }

  function NamesOfAll(ss: seq<Stmt>): set<string> {
    if ss == [] then {} else LetNames(ss[0]) + NamesOfAll(ss[1..])
  }

  function BlockNames(s: Stmt): set<string> {
    if s.Block? then NamesOfAll(s.stmts) else LetNames(s)
  }

  function UsesOfStmt(p: Program, calls: bool, s: Stmt): set<string>
    decreases s, 2
  {
    match s
    case NoStmt => {}
    case Other(_) => {}
    case Let(_, _, init, _) => Uses(p, calls, init)
    case Assign(_, value, _) => Uses(p, calls, value)
    case Evaluate(_, operands) => UsesOfAll(p, calls, operands)
    case Block(stmts) => UsesOfStmts(p, calls, stmts)
    case While(cond, body) => Uses(p, calls, cond) + UsesOfStmt(p, calls, body)
    case ForRange(name, from, to, body, _) =>
      Uses(p, calls, from) + Uses(p, calls, to) + (UsesOfStmt(p, calls, body) - Name(name))
    case If(cond, body, els) => Uses(p, calls, cond) + (UsesOfStmt(p, calls, body) + (UsesOfStmt(p, calls, els) - LetNames(body)))
    case Match(subject, arms, _) => Uses(p, calls, subject) + UsesOfStmtArms(p, calls, arms)
  }

  function UsesOfStmts(p: Program, calls: bool, ss: seq<Stmt>): set<string>
    decreases ss, 0
  {
    if ss == [] then {} else UsesOfStmt(p, calls, ss[0]) + (UsesOfStmts(p, calls, ss[1..]) - LetNames(ss[0]))
  }

  function UsesOfStmtArms(p: Program, calls: bool, arms: seq<StmtArm>): set<string>
    decreases arms, 0
  {
    if arms == [] then {} else UsesOfStmtArm(p, calls, arms[0]) + UsesOfStmtArms(p, calls, arms[1..])
  }

  function UsesOfStmtArm(p: Program, calls: bool, arm: StmtArm): set<string>
    decreases arm, 0
  {
    UsesOfPattern(p, calls, arm.pattern) + (UsesOfStmt(p, calls, arm.body) - BinderNames(Binders(p, arm.pattern)))
  }

  function UsesOfBlock(p: Program, calls: bool, s: Stmt): set<string>
    decreases s, 3
  {
    if s.Block? then UsesOfStmts(p, calls, s.stmts) else UsesOfStmt(p, calls, s)
  }

  // ----- unused declarations -----

  /** A declaration of a name, unless the name is used later. */
  function Unless(name: string, loc: Loc, later: set<string>): set<Decl> {
    if name == "_" || name in later then {} else {(name, loc)}
  }

  /** Of what a statement puts into the scope it stands in: the declarations that neither the
      rest of the statement uses nor what comes later in that scope. */
  function Idle(p: Program, calls: bool, s: Stmt, later: set<string>): set<Decl> {
    match s
    case Let(name, _, _, loc) => Unless(name, loc, later)
    case While(_, body) => Idle(p, calls, body, later)
    case If(_, body, els) => Idle(p, calls, body, UsesOfStmt(p, calls, els) + later) + Idle(p, calls, els, later)
    case _ => {}
  }

  function IdleOfAll(p: Program, calls: bool, ss: seq<Stmt>, later: set<string>): set<Decl> {
    if ss == [] then {}
    else Idle(p, calls, ss[0], UsesOfStmts(p, calls, ss[1..]) + later) + IdleOfAll(p, calls, ss[1..], later)
  }

  function IdleOfBlock(p: Program, calls: bool, s: Stmt, later: set<string>): set<Decl> {
    if s.Block? then IdleOfAll(p, calls, s.stmts, later) else Idle(p, calls, s, later)
  }

  function IdleBinders(names: seq<Expr>, later: set<string>): set<Decl>
    requires forall i :: 0 <= i < |names| ==> names[i].Ident?
    decreases names
  {
    if names == [] then {} else Unless(names[0].text, names[0].loc, later) + IdleBinders(names[1..], later)
  }

  /** The unused declarations of the scopes that begin and end inside. */
  function Unused(p: Program, calls: bool, e: Expr): set<Decl>
    decreases e, 2
  {
    match e
    case NoExpr => {}
    case Literal(_) => {}
    case Ident(_, _) => {}
    case Addr(_, _) => {}
    case Operator(_, _, operands) => UnusedInAll(p, calls, operands)
    case OptionOf(_, inner) => Unused(p, calls, inner)
    case StructLiteral(_, _, args, _) => UnusedInAll(p, calls, args)
    case Call(_, callee, _, args, _) => Unused(p, calls, callee) + UnusedInAll(p, calls, args)
    case Lambda(_, _, _) => {}
    case MatchOf(subject, arms, _) => Unused(p, calls, subject) + UnusedInArms(p, calls, arms)
    case BlockOf(body, value) =>
      UnusedInBlock(p, calls, body) + Unused(p, calls, value) + IdleOfBlock(p, calls, body, Uses(p, calls, value))
  }

  function UnusedInAll(p: Program, calls: bool, es: seq<Expr>): set<Decl>
    decreases es, 0
  {
    if es == [] then {} else Unused(p, calls, es[0]) + UnusedInAll(p, calls, es[1..])
  }

  function UnusedInArms(p: Program, calls: bool, arms: seq<ExprArm>): set<Decl>
    decreases arms, 0
  {
    if arms == [] then {} else UnusedInArm(p, calls, arms[0]) + UnusedInArms(p, calls, arms[1..])
  }

  function UnusedInArm(p: Program, calls: bool, arm: ExprArm): set<Decl>
    decreases arm, 0
  {
    if arm.body == NoExpr then UnusedInPattern(p, calls, arm.pattern)
    else
      UnusedInPattern(p, calls, arm.pattern) + (Unused(p, calls, arm.body)
      + IdleBinders(Binders(p, arm.pattern), Uses(p, calls, arm.body)))
  }

  function UnusedInPattern(p: Program, calls: bool, e: Expr): set<Decl>
    decreases e, 3
  {
    if e == NoExpr || (e.OptionOf? && e.hasValue && e.inner.Ident?) then {}
    else if e.Call? && IsVariant(p, e.text) then UnusedInPatternArgs(p, calls, e.args)
    else Unused(p, calls, e)
  }

  function UnusedInPatternArgs(p: Program, calls: bool, args: seq<Expr>): set<Decl>
    decreases args, 0
  {
    if args == [] then {}
    else (if args[0].Ident? then {} else UnusedInPattern(p, calls, args[0])) + UnusedInPatternArgs(p, calls, args[1..])
  }

  function UnusedInStmt(p: Program, calls: bool, s: Stmt): set<Decl>
    decreases s, 2
  {
    match s
    case NoStmt => {}
    case Other(_) => {}
    case Let(_, _, init, _) => Unused(p, calls, init)
    case Assign(_, value, _) => Unused(p, calls, value)
    case Evaluate(_, operands) => UnusedInAll(p, calls, operands)
    case Block(stmts) => UnusedInStmts(p, calls, stmts) + IdleOfAll(p, calls, stmts, {})
    case While(cond, body) => Unused(p, calls, cond) + UnusedInStmt(p, calls, body)
    case ForRange(name, from, to, body, loc) =>
      Unused(p, calls, from) + Unused(p, calls, to)
      + (UnusedInStmt(p, calls, body) + (Unless(name, loc, UsesOfStmt(p, calls, body)) + Idle(p, calls, body, {})))
    case If(cond, body, els) => Unused(p, calls, cond) + (UnusedInStmt(p, calls, body) + UnusedInStmt(p, calls, els))
    case Match(subject, arms, _) => Unused(p, calls, subject) + UnusedInStmtArms(p, calls, arms)
  }

  function UnusedInStmts(p: Program, calls: bool, ss: seq<Stmt>): set<Decl>
    decreases ss, 0
  {
    if ss == [] then {} else UnusedInStmt(p, calls, ss[0]) + UnusedInStmts(p, calls, ss[1..])
  }

  function UnusedInStmtArms(p: Program, calls: bool, arms: seq<StmtArm>): set<Decl>
    decreases arms, 0
  {
    if arms == [] then {} else UnusedInStmtArm(p, calls, arms[0]) + UnusedInStmtArms(p, calls, arms[1..])
  }

  function UnusedInStmtArm(p: Program, calls: bool, arm: StmtArm): set<Decl>
    decreases arm, 0
  {
    UnusedInPattern(p, calls, arm.pattern)
    + (UnusedInStmt(p, calls, arm.body)
       + (IdleBinders(Binders(p, arm.pattern), UsesOfStmt(p, calls, arm.body)) + Idle(p, calls, arm.body, {})))
  }

  function UnusedInBlock(p: Program, calls: bool, s: Stmt): set<Decl>
    decreases s, 3
  {
    if s.Block? then UnusedInStmts(p, calls, s.stmts) else UnusedInStmt(p, calls, s)
  }
}
