/**
  Name scoping: a stack of frames, the checker's traversal of expressions and
  statements over it, and the declarative relation that the traversal decides.
 */
module Scoping {
  import opened Options
  import opened Diagnostics

  datatype Loc = Loc(line: int, col: int)

  // ----- programs -----

  datatype Function = Function(name: string, typeParams: nat)

  datatype Struct = Struct(name: string, fields: seq<string>)

  datatype Adt = Adt(name: string, variants: seq<string>)

  datatype Program = Program(functions: seq<Function>, externs: seq<Function>, structs: seq<Struct>, adts: seq<Adt>)

  /** What stays fixed while one function is checked. Spans and codes come from the
      position mapping and the code table. */
  datatype Context = Context(program: Program, func: string, span: (int, int, int) -> Span, code: (string, string) -> string)

  datatype Expr =
    | NoExpr
    | Literal(text: string)
    | Ident(text: string, loc: Loc)
    | Addr(text: string, loc: Loc)
    | Operator(tag: string, text: string, operands: seq<Expr>)
    | OptionOf(hasValue: bool, inner: Expr)
    | StructLiteral(text: string, fields: seq<string>, args: seq<Expr>, loc: Loc)
    | Call(text: string, callee: Expr, typeArgs: nat, args: seq<Expr>, loc: Loc)
    | Lambda(text: string, captures: seq<string>, loc: Loc)
    | MatchOf(subject: Expr, arms: seq<ExprArm>, loc: Loc)
    | BlockOf(body: Stmt, value: Expr)

  datatype ExprArm = ExprArm(pattern: Expr, body: Expr)

  datatype Stmt =
    | NoStmt
    | Other(tag: string)
    | Let(name: string, isMut: bool, init: Expr, loc: Loc)
    | Assign(name: string, value: Expr, loc: Loc)
    | Evaluate(tag: string, operands: seq<Expr>)
    | Block(stmts: seq<Stmt>)
    | While(cond: Expr, body: Stmt)
    | ForRange(name: string, from: Expr, to: Expr, body: Stmt, loc: Loc)
    | If(cond: Expr, body: Stmt, els: Stmt)
    | Match(subject: Expr, arms: seq<StmtArm>, loc: Loc)

  datatype StmtArm = StmtArm(pattern: Expr, body: Stmt)

  function Text(e: Expr): string {
    match e
    case Literal(t) => t
    case Ident(t, _) => t
    case Addr(t, _) => t
    case Operator(_, t, _) => t
    case StructLiteral(t, _, _, _) => t
    case Call(t, _, _, _, _) => t
    case Lambda(t, _, _) => t
    case _ => ""
  }

  function FindFunction(fs: seq<Function>, name: string): (r: Option<nat>)
    ensures r.Some? ==> r.value < |fs| && fs[r.value].name == name && forall i :: 0 <= i < r.value ==> fs[i].name != name
    ensures r.None? <==> forall i :: 0 <= i < |fs| ==> fs[i].name != name
  {
    if fs == [] then None
    else if fs[0].name == name then Some(0)
    else
      var r := FindFunction(fs[1..], name);
      assert forall i :: 0 < i < |fs| ==> fs[i] == fs[1..][i - 1];
      if r.None? then None else Some(r.value + 1)
  }

  predicate IsFunction(p: Program, name: string) {
    FindFunction(p.functions, name).Some? || FindFunction(p.externs, name).Some?
  }

  predicate IsVariant(p: Program, name: string) {
    exists a :: 0 <= a < |p.adts| && name in p.adts[a].variants
  }

  function FindStruct(ss: seq<Struct>, name: string): (r: Option<nat>)
    ensures r.Some? ==> r.value < |ss| && ss[r.value].name == name && forall i :: 0 <= i < r.value ==> ss[i].name != name
    ensures r.None? <==> forall i :: 0 <= i < |ss| ==> ss[i].name != name
  {
    if ss == [] then None
    else if ss[0].name == name then Some(0)
    else
      var r := FindStruct(ss[1..], name);
      assert forall i :: 0 < i < |ss| ==> ss[i] == ss[1..][i - 1];
      if r.None? then None else Some(r.value + 1)
  }

  /** The first type that has a constructor of this name. */
  function FindVariant(adts: seq<Adt>, name: string): (r: Option<nat>)
    ensures r.Some? ==> r.value < |adts| && name in adts[r.value].variants && forall i :: 0 <= i < r.value ==> name !in adts[i].variants
    ensures r.None? <==> forall i :: 0 <= i < |adts| ==> name !in adts[i].variants
  {
    if adts == [] then None
    else if name in adts[0].variants then Some(0)
    else
      var r := FindVariant(adts[1..], name);
      assert forall i :: 0 < i < |adts| ==> adts[i] == adts[1..][i - 1];
      if r.None? then None else Some(r.value + 1)
  }

  // ----- the stack of frames -----

  datatype Binding = Binding(name: string, used: bool, mutable: bool, loc: Loc, warn: bool)

  type Frame = seq<Binding>

  /** The innermost frame is the last. */
  type Env = seq<Frame>

  function FindFirst(f: Frame, name: string): (r: Option<nat>)
    ensures r.Some? ==> r.value < |f| && f[r.value].name == name && forall i :: 0 <= i < r.value ==> f[i].name != name
    ensures r.None? <==> forall i :: 0 <= i < |f| ==> f[i].name != name
  {
    if f == [] then None
    else if f[0].name == name then Some(0)
    else
      var r := FindFirst(f[1..], name);
      assert forall i :: 0 < i < |f| ==> f[i] == f[1..][i - 1];
      if r.None? then None else Some(r.value + 1)
  }

  function FindLast(f: Frame, name: string): (r: Option<nat>)
    ensures r.Some? ==> r.value < |f| && f[r.value].name == name && forall i :: r.value < i < |f| ==> f[i].name != name
    ensures r.None? <==> forall i :: 0 <= i < |f| ==> f[i].name != name
  {
    if f == [] then None
    else if f[|f| - 1].name == name then Some(|f| - 1)
    else FindLast(f[..|f| - 1], name)
  }

  function Top(env: Env): Frame {
    if env == [] then [] else env[|env| - 1]
  }

  function Below(env: Env): Env {
    if env == [] then [] else env[..|env| - 1]
  }

  /** The innermost declaration of a name: its frame and its place in the frame. */
  function Lookup(env: Env, name: string): (r: Option<(nat, nat)>)
    ensures r.Some? ==> r.value.0 < |env| && r.value.1 < |env[r.value.0]| && env[r.value.0][r.value.1].name == name
    decreases |env|
  {
    if env == [] then None
    else
      var here := FindLast(Top(env), name);
      if here.Some? then Some((|env| - 1, here.value)) else Lookup(Below(env), name)
  }

  function Found(env: Env, name: string): Binding
    requires Lookup(env, name).Some?
  {
    var at := Lookup(env, name).value;
    env[at.0][at.1]
  }

  function Update(env: Env, at: (nat, nat), b: Binding): Env
    requires at.0 < |env| && at.1 < |env[at.0]|
  {
    env[at.0 := env[at.0][at.1 := b]]
  }

  function MarkUsed(env: Env, name: string): Env {
    match Lookup(env, name)
    case None => env
    case Some(at) => Update(env, at, env[at.0][at.1].(used := true))
  }

  function MarkMutable(env: Env, name: string): Env {
    match FindFirst(Top(env), name)
    case None => env
    case Some(i) => Below(env) + [Top(env)[i := Top(env)[i].(mutable := true)]]
  }

  function Add(env: Env, b: Binding): Env {
    Below(env) + [Top(env) + [b]]
  }

  /** Globals, parameters and captures: declared once, never reported. */
  function DeclareExisting(env: Env, name: string): Env {
    if FindFirst(Top(env), name).Some? then env
    else Add(env, Binding(name, false, false, Loc(0, 0), false))
  }

  function DeclareAllExisting(env: Env, names: seq<string>): Env
    decreases names
  {
    if names == [] then env else DeclareAllExisting(DeclareExisting(env, names[0]), names[1..])
  }

  // ----- reporting -----

  datatype Report = Report(ok: bool, errors: nat, typeErrors: nat, warnings: nat, emitWarnings: bool, bag: Bag)

  datatype State = State(env: Env, report: Report)

  function FullMessage(func: string, message: string): string {
    if func != "" then "in function " + func + ": " + message else message
  }

  function SpanOf(c: Context, loc: Loc, length: int): Span {
    if loc.line > 0 then c.span(loc.line, loc.col, length) else NO_SPAN
  }

  function AddError(c: Context, r: Report, kind: string, message: string, loc: Loc, length: int): Report {
    var d := Diag(c.code(kind, message), Error, FullMessage(c.func, message), SpanOf(c, loc, length));
    var r' := r.(bag := Emit(r.bag, d));
    if Emitted(r.bag, d) then
      r'.(errors := r.errors + 1, typeErrors := r.typeErrors + if kind == "TypeError" then 1 else 0, ok := false)
    else r'
  }

  function AddWarning(c: Context, r: Report, kind: string, message: string, loc: Loc, length: int): Report {
    if !r.emitWarnings then r
    else
      var d := Diag(c.code(kind, message), Warning, message, SpanOf(c, loc, length));
      r.(bag := Emit(r.bag, d), warnings := r.warnings + if Emitted(r.bag, d) then 1 else 0)
  }

  function ReportError(c: Context, st: State, kind: string, message: string, loc: Loc, length: int): State {
    st.(report := AddError(c, st.report, kind, message, loc, length))
  }

  // ----- scope operations -----

  function Push(st: State): State {
    st.(env := st.env + [[]])
  }

  /** The unused names of a frame, the latest first. */
  function WarnUnused(c: Context, r: Report, f: Frame): Report
    decreases |f|
  {
    if f == [] then r
    else
      var b := f[|f| - 1];
      var r' := if b.warn && !b.used
                then AddWarning(c, r, "SemanticWarning", "unused variable '" + b.name + "'", b.loc, |b.name|) else r;
      WarnUnused(c, r', f[..|f| - 1])
  }

  /** Leaving the outermost frame is not a thing the traversal does. */
  function Pop(c: Context, st: State): State {
    if |st.env| <= 1 then st
    else State(Below(st.env), if st.report.errors == 0 then WarnUnused(c, st.report, Top(st.env)) else st.report)
  }

  function Declare(c: Context, st: State, name: string, loc: Loc): State {
    if name == "_" then st
    else if FindFirst(Top(st.env), name).Some? then
      ReportError(c, st, "NameError", "duplicate symbol '" + name + "'", loc, |name|)
    else st.(env := Add(st.env, Binding(name, false, false, loc, true)))
  }

  predicate IsLambda(func: string) {
    "__lambda_" <= func
  }

  function Require(c: Context, st: State, name: string, loc: Loc): State {
    if name == "_" || Lookup(st.env, name).Some? then st
    else if IsLambda(c.func) then
      ReportError(c, st, "NameError", "variable `" + name + "` must be explicitly captured", loc, |name|)
    else ReportError(c, st, "NameError", "undefined symbol '" + name + "'", loc, |name|)
  }

  function Use(c: Context, st: State, name: string, loc: Loc): State {
    var st' := Require(c, st, name, loc);
    st'.(env := MarkUsed(st'.env, name))
  }

  // ----- calls, literals and matches -----

  function CheckGenericCall(c: Context, st: State, text: string, typeArgs: nat, loc: Loc): State {
    match FindFunction(c.program.functions, text)
    case None => st
    case Some(i) =>
      var wanted := c.program.functions[i].typeParams;
      if wanted == 0 then
        if typeArgs > 0 then ReportError(c, st, "TypeError", "function '" + text + "' is not generic", loc, |text|) else st
      else if typeArgs != wanted then
        ReportError(c, st, "TypeError", "generic function '" + text + "' requires " + Digits(wanted) + " type arguments", loc, |text|)
      else st
  }

  function Digits(n: nat): string {
    if n < 10 then [(n as char) + '0'] else Digits(n / 10) + [((n % 10) as char) + '0']
  }

  /** The initialisers after `i` that repeat its field. */
  function CheckRepeats(c: Context, st: State, e: Expr, i: nat, j: nat): State
    requires e.StructLiteral? && i < |e.fields|
    decreases |e.fields| - j
  {
    if j >= |e.fields| then st
    else
      var st' := if e.fields[i] == e.fields[j] then
                   ReportError(c, st, "NameError", "duplicate initializer field '" + e.fields[i] + "' in struct '" + e.text + "'", e.loc, |e.fields[i]|)
                 else st;
      CheckRepeats(c, st', e, i, j + 1)
  }

  function CheckInitialisers(c: Context, st: State, e: Expr, decl: Struct, i: nat): State
    requires e.StructLiteral?
    decreases |e.fields| - i
  {
    if i >= |e.fields| then st
    else
      var st1 := CheckRepeats(c, st, e, i, i + 1);
      var st2 := if e.fields[i] !in decl.fields then
                   ReportError(c, st1, "NameError", "unknown field '" + e.fields[i] + "' on struct '" + e.text + "'", e.loc, |e.fields[i]|)
                 else st1;
      CheckInitialisers(c, st2, e, decl, i + 1)
  }

  function CheckMissing(c: Context, st: State, e: Expr, decl: Struct, i: nat): State
    requires e.StructLiteral?
    decreases |decl.fields| - i
  {
    if i >= |decl.fields| then st
    else
      var st' := if decl.fields[i] !in e.fields then
                   ReportError(c, st, "NameError", "missing field '" + decl.fields[i] + "' in struct '" + e.text + "'", e.loc, |decl.fields[i]|)
                 else st;
      CheckMissing(c, st', e, decl, i + 1)
  }

  function CheckStructFields(c: Context, st: State, e: Expr): State
    requires e.StructLiteral?
  {
    match FindStruct(c.program.structs, e.text)
    case None => ReportError(c, st, "NameError", "unknown struct '" + e.text + "'", e.loc, |e.text|)
    case Some(s) =>
      CheckMissing(c, CheckInitialisers(c, st, e, c.program.structs[s], 0), e, c.program.structs[s], 0)
  }

  /** The type whose constructors a match names: that of the first one it names. */
  function MatchedAdt(p: Program, patterns: seq<Expr>): (r: Option<nat>)
    ensures r.Some? ==> r.value < |p.adts|
  {
    if patterns == [] then None
    else
      var here := FindVariant(p.adts, Text(patterns[0]));
      if here.Some? then here else MatchedAdt(p, patterns[1..])
  }

  predicate Names(patterns: seq<Expr>, variant: string) {
    exists i :: 0 <= i < |patterns| && Text(patterns[i]) == variant
  }

  function Missing(patterns: seq<Expr>, variants: seq<string>, found: string): string {
    if variants == [] then found
    else if Names(patterns, variants[0]) then Missing(patterns, variants[1..], found)
    else Missing(patterns, variants[1..], if found != "" then found + ", " + variants[0] else found + variants[0])
  }

  function CheckExhaustive(c: Context, st: State, patterns: seq<Expr>, loc: Loc): State {
    if NoExpr in patterns then st
    else
      match MatchedAdt(c.program, patterns)
      case None => st
      case Some(a) =>
        var missing := Missing(patterns, c.program.adts[a].variants, "");
        if missing == "" then st
        else ReportError(c, st, "SemanticError", "non-exhaustive match for '" + c.program.adts[a].name + "': missing " + missing, loc, 5)
  }

  function CheckCapture(c: Context, st: State, name: string, loc: Loc): State {
    if Lookup(st.env, name).Some? then
      if Found(st.env, name).mutable then
        ReportError(c, st, "TypeError", "mutable capture '" + name + "' is not supported", loc, |name|)
      else st.(env := MarkUsed(st.env, name))
    else if !IsFunction(c.program, name) && !IsVariant(c.program, name) then
      ReportError(c, st, "NameError", "undefined capture '" + name + "'", loc, |name|)
    else st
  }

  function CheckCaptures(c: Context, st: State, names: seq<string>, loc: Loc): State
    decreases names
  {
    if names == [] then st else CheckCaptures(c, CheckCapture(c, st, names[0], loc), names[1..], loc)
  }

  function PatternsOf(arms: seq<ExprArm>): (r: seq<Expr>)
    ensures |r| == |arms|
  {
    seq(|arms|, i requires 0 <= i < |arms| => arms[i].pattern)
  }

  function StmtPatternsOf(arms: seq<StmtArm>): (r: seq<Expr>)
    ensures |r| == |arms|
  {
    seq(|arms|, i requires 0 <= i < |arms| => arms[i].pattern)
  }

  /** `Some(x)` binds `x`; a constructor pattern binds its arguments that are names. */
  function Binders(p: Program, pattern: Expr): (r: seq<Expr>)
    ensures forall i :: 0 <= i < |r| ==> r[i].Ident?
  {
    if pattern.OptionOf? && pattern.hasValue && pattern.inner.Ident? then [pattern.inner]
    else if pattern.Call? && IsVariant(p, pattern.text) then Identifiers(pattern.args)
    else []
  }

  function Identifiers(es: seq<Expr>): (r: seq<Expr>)
    ensures forall i :: 0 <= i < |r| ==> r[i].Ident?
  {
    if es == [] then []
    else (if es[0].Ident? then [es[0]] else []) + Identifiers(es[1..])
  }

  function DeclareAll(c: Context, st: State, names: seq<Expr>): State
    requires forall i :: 0 <= i < |names| ==> names[i].Ident?
    decreases names
  {
    if names == [] then st else DeclareAll(c, Declare(c, st, names[0].text, names[0].loc), names[1..])
  }

  function DeclareBindings(c: Context, st: State, pattern: Expr): State {
    DeclareAll(c, st, Binders(c.program, pattern))
  }

  // ----- the traversal -----

  function CheckExpr(c: Context, st: State, e: Expr): State
    decreases e, 2
  {
    match e
    case NoExpr => st
    case Literal(_) => st
    case Ident(t, loc) => if IsVariant(c.program, t) || IsFunction(c.program, t) then st else Use(c, st, t, loc)
    case Addr(t, loc) => Use(c, st, t, loc)
    case Operator(_, _, operands) => CheckExprs(c, st, operands)
    case OptionOf(_, inner) => CheckExpr(c, st, inner)
    case StructLiteral(_, _, args, _) => CheckExprs(c, CheckStructFields(c, st, e), args)
    case Call(_, _, _, _, _) => CheckCall(c, st, e)
    case Lambda(_, captures, loc) => CheckCaptures(c, st, captures, loc)
    case MatchOf(subject, arms, loc) =>
      CheckArms(c, CheckExhaustive(c, CheckExpr(c, st, subject), PatternsOf(arms), loc), arms)
    case BlockOf(body, value) =>
      Pop(c, CheckExpr(c, CheckBlockHere(c, Push(st), body), value))
  }

  function CheckCall(c: Context, st: State, e: Expr): State
    requires e.Call?
    decreases e, 1
  {
    var st1 :=
      if e.callee != NoExpr then CheckExpr(c, st, e.callee)
      else if e.text != "clone" && !IsFunction(c.program, e.text) && !IsVariant(c.program, e.text) && Lookup(st.env, e.text).None?
      then ReportError(c, st, "NameError", "undefined function '" + e.text + "'", e.loc, |e.text|)
      else st;
    var st2 := if e.callee == NoExpr && e.text != "clone" then CheckGenericCall(c, st1, e.text, e.typeArgs, e.loc) else st1;
    CheckExprs(c, st2, e.args)
  }

  function CheckExprs(c: Context, st: State, es: seq<Expr>): State
    decreases es, 0
  {
    if es == [] then st else CheckExprs(c, CheckExpr(c, st, es[0]), es[1..])
  }

  function CheckArms(c: Context, st: State, arms: seq<ExprArm>): State
    decreases arms, 0
  {
    if arms == [] then st else CheckArms(c, CheckArm(c, st, arms[0]), arms[1..])
  }

  function CheckArm(c: Context, st: State, arm: ExprArm): State
    decreases arm, 0
  {
    var st1 := CheckPattern(c, st, arm.pattern);
    if arm.body == NoExpr then st1
    else Pop(c, CheckExpr(c, DeclareBindings(c, Push(st1), arm.pattern), arm.body))
  }

  function CheckPattern(c: Context, st: State, p: Expr): State
    decreases p, 3
  {
    if p == NoExpr then st
    else if p.OptionOf? && p.hasValue && p.inner.Ident? then st
    else if p.Call? && IsVariant(c.program, p.text) then CheckPatternArgs(c, st, p.args)
    else CheckExpr(c, st, p)
  }

  function CheckPatternArgs(c: Context, st: State, args: seq<Expr>): State
    decreases args, 0
  {
    if args == [] then st
    else CheckPatternArgs(c, if args[0].Ident? then st else CheckPattern(c, st, args[0]), args[1..])
  }

  function CheckStmt(c: Context, st: State, s: Stmt): State
    decreases s, 2
  {
    match s
    case NoStmt => st
    case Other(_) => st
    case Let(name, isMut, init, loc) =>
      var st' := Declare(c, CheckExpr(c, st, init), name, loc);
      if isMut then st'.(env := MarkMutable(st'.env, name)) else st'
    case Assign(name, value, loc) => CheckExpr(c, Require(c, st, name, loc), value)
    case Evaluate(_, operands) => CheckExprs(c, st, operands)
    case Block(stmts) => Pop(c, CheckStmts(c, Push(st), stmts))
    case While(cond, body) => CheckStmt(c, CheckExpr(c, st, cond), body)
    case ForRange(_, _, _, _, _) => CheckForRange(c, st, s)
    case If(cond, body, els) => CheckStmt(c, CheckStmt(c, CheckExpr(c, st, cond), body), els)
    case Match(subject, arms, loc) =>
      CheckStmtArms(c, CheckExhaustive(c, CheckExpr(c, st, subject), StmtPatternsOf(arms), loc), arms)
  }

  function CheckForRange(c: Context, st: State, s: Stmt): State
    requires s.ForRange?
    decreases s, 1
  {
    var st1 := CheckExpr(c, CheckExpr(c, st, s.from), s.to);
    var st2 := if Lookup(st1.env, s.name).Some? then
                 ReportError(c, st1, "NameError", "for iterator '" + s.name + "' conflicts with existing symbol", s.loc, |s.name|)
               else st1;
    Pop(c, CheckStmt(c, Declare(c, Push(st2), s.name, s.loc), s.body))
  }

  function CheckStmts(c: Context, st: State, ss: seq<Stmt>): State
    decreases ss, 0
  {
    if ss == [] then st else CheckStmts(c, CheckStmt(c, st, ss[0]), ss[1..])
  }

  function CheckStmtArms(c: Context, st: State, arms: seq<StmtArm>): State
    decreases arms, 0
  {
    if arms == [] then st else CheckStmtArms(c, CheckStmtArm(c, st, arms[0]), arms[1..])
  }

  function CheckStmtArm(c: Context, st: State, arm: StmtArm): State
    decreases arm, 0
  {
    Pop(c, CheckStmt(c, DeclareBindings(c, Push(CheckPattern(c, st, arm.pattern)), arm.pattern), arm.body))
  }

  /** The block of a block expression shares the frame of its value. */
  function CheckBlockHere(c: Context, st: State, s: Stmt): State
    decreases s, 3
  {
    if s.Block? then CheckStmts(c, st, s.stmts) else CheckStmt(c, st, s)
  }

  function StartEnv(globals: seq<string>, params: seq<string>, captures: seq<string>): Env {
    DeclareAllExisting(DeclareAllExisting(DeclareAllExisting([[]], globals), params), captures)
  }

  /** One function body. A lambda's captures are declared like its parameters. */
  function CheckFunctionBody(c: Context, r: Report, globals: seq<string>, params: seq<string>, captures: seq<string>, body: Stmt): State {
    CheckStmt(c, State(StartEnv(globals, params, captures), r), body)
  }
}
