/**
  The statement fragment that control-flow lowering is proved for, with its
  big-step meaning. Stores are lexically scoped: a `let` binds its name for the
  rest of its block, and a loop iterator is bound for the loop body.
 */
module Source {
  import opened Options
  import opened Ir

  datatype Expr =
    | Lit(n: int)
    | Var(name: string)
    | Binary(op: Op, left: Expr, right: Expr)
    | Neg(e: Expr)
    | Not(e: Expr)
    | And(left: Expr, right: Expr)
    | Or(left: Expr, right: Expr)
    | IfExpr(cond: Expr, thn: Expr, els: Expr)
    | Invoke(name: string, args: seq<Expr>)

  /** A match arm; a missing pattern is the wildcard `_`. */
  datatype Arm = Arm(pattern: Option<Expr>, body: Stmt)

  datatype Stmt =
    | Let(name: string, e: Expr)
    | Assign(name: string, e: Expr)
    | PrintStmt(e: Expr)
    | ExprStmt(e: Expr)
    | Block(body: seq<Stmt>)
    | If(cond: Expr, thn: Stmt, els: Option<Stmt>)
    | While(cond: Expr, loop: Stmt)
    | ForRange(name: string, from: Expr, to: Expr, loop: Stmt)
    | Match(subject: Expr, arms: seq<Arm>)
    | Break
    | Continue
    | Return
    | ReturnExpr(e: Expr)

  datatype Function = Function(params: seq<string>, isVoid: bool, body: Stmt)

  type Env = map<string, int>

  function Get(env: Env, name: string): int {
    if name in env then env[name] else 0
  }

  /** A value, and the world once it is computed. */
  datatype Valued = Valued(n: int, out: World)

  /** Operands from left to right; the right one of `and` and `or`, and the branches of a
      condition, only when they are needed. */
  function Eval(e: Expr, env: Env, out: World): Valued
    decreases e, 1
  {
    match e
    case Lit(n) => Valued(n, out)
    case Var(x) => Valued(Get(env, x), out)
    case Binary(op, l, r) =>
      var x := Eval(l, env, out);
      var y := Eval(r, env, x.out);
      Valued(Apply(op, x.n, y.n), y.out)
    case Neg(e0) =>
      var x := Eval(e0, env, out);
      Valued(Apply(Sub, 0, x.n), x.out)
    case Not(e0) =>
      var x := Eval(e0, env, out);
      Valued(Flag(x.n == 0), x.out)
    case And(l, r) =>
      var x := Eval(l, env, out);
      if x.n == 0 then Valued(0, x.out)
      else
        var y := Eval(r, env, x.out);
        Valued(Flag(y.n != 0), y.out)
    case Or(l, r) =>
      var x := Eval(l, env, out);
      if x.n != 0 then Valued(1, x.out)
      else
        var y := Eval(r, env, x.out);
        Valued(Flag(y.n != 0), y.out)
    case IfExpr(c, t, f) =>
      var x := Eval(c, env, out);
      if x.n != 0 then Eval(t, env, x.out) else Eval(f, env, x.out)
    case Invoke(name, args) =>
      var xs := EvalArgs(args, env, out);
      Valued(xs.1.answer(xs.1.events, name, xs.0), Happens(xs.1, Called(name, xs.0)))
  }

  function EvalArgs(es: seq<Expr>, env: Env, out: World): (r: (seq<int>, World))
    ensures |r.0| == |es|
    decreases es, 0
  {
    if es == [] then ([], out)
    else
      var x := Eval(es[0], env, out);
      var xs := EvalArgs(es[1..], env, x.out);
      ([x.n] + xs.0, xs.1)
  }

  datatype State = State(env: Env, out: World)

  function EvalIn(e: Expr, st: State): Valued {
    Eval(e, st.env, st.out)
  }

  /** How a statement ends. `TimeOut` means that the loop budget ran out. */
  datatype Result =
    | Normal(st: State)
    | Broke(st: State)
    | Continued(st: State)
    | Returned(ret: Option<int>, out: World)
    | TimeOut

  function Bind(st: State, name: string, v: int): State {
    st.(env := st.env[name := v])
  }

  /** Ends the scope of `name`: what it meant in `outer` comes back. */
  function Unbind(st: State, name: string, outer: Env): State {
    st.(env := if name in outer then st.env[name := outer[name]] else st.env - {name})
  }

  function UnbindResult(r: Result, name: string, outer: Env): Result {
    match r
    case Normal(st) => Normal(Unbind(st, name, outer))
    case Broke(st) => Broke(Unbind(st, name, outer))
    case Continued(st) => Continued(Unbind(st, name, outer))
    case _ => r
  }

  /** The body a match selects, and the world once the patterns before it are evaluated. */
  datatype Choice = Choice(body: Option<Stmt>, out: World)

  /** The first arm whose pattern equals `v`, or a wildcard. */
  function Select(arms: seq<Arm>, v: int, env: Env, out: World): Choice {
    if arms == [] then Choice(None, out)
    else if arms[0].pattern.None? then Choice(Some(arms[0].body), out)
    else
      var x := Eval(arms[0].pattern.value, env, out);
      if x.n == v then Choice(Some(arms[0].body), x.out) else Select(arms[1..], v, env, x.out)
  }

  lemma {:induction false} SelectIsSmaller(arms: seq<Arm>, v: int, env: Env, out: World)
    requires Select(arms, v, env, out).body.Some?
    ensures exists k :: 0 <= k < |arms| && Select(arms, v, env, out).body == Some(arms[k].body)
  {
    hide Eval;
    if arms[0].pattern.Some? {
      var x := Eval(arms[0].pattern.value, env, out);
      if x.n != v {
        SelectIsSmaller(arms[1..], v, env, x.out);
        var k :| 0 <= k < |arms| - 1 && Select(arms, v, env, out).body == Some(arms[1..][k].body);
        assert arms[k + 1] == arms[1..][k];
      }
    }
  }

  /** The big-step meaning of one statement, with a budget of `fuel` iterations
      for each loop. Outside any loop `break` and `continue` do nothing. */
  function Exec(s: Stmt, st: State, inLoop: bool, isVoid: bool, fuel: nat): Result
    decreases fuel, s, 1
  {
    match s
    case Let(x, e) =>
      var v := EvalIn(e, st);
      Normal(Bind(st.(out := v.out), x, v.n))
    case Assign(x, e) =>
      var v := EvalIn(e, st);
      Normal(Bind(st.(out := v.out), x, v.n))
    case PrintStmt(e) =>
      var v := EvalIn(e, st);
      Normal(st.(out := Happens(v.out, Printed(v.n))))
    case ExprStmt(e) => Normal(st.(out := EvalIn(e, st).out))
    case Block(body) => ExecSeq(body, st, inLoop, isVoid, fuel)
    case If(c, t, f) =>
      var v := EvalIn(c, st);
      var st1 := st.(out := v.out);
      if v.n != 0 then ExecBody(t, st1, inLoop, isVoid, fuel)
      else if f.Some? then ExecBody(f.value, st1, inLoop, isVoid, fuel)
      else Normal(st1)
    case While(c, body) =>
      var v := EvalIn(c, st);
      var st1 := st.(out := v.out);
      if v.n == 0 then Normal(st1)
      else if fuel == 0 then TimeOut
      else
        var r := ExecBody(body, st1, true, isVoid, fuel);
        if r.Normal? || r.Continued? then Exec(s, r.st, inLoop, isVoid, fuel - 1)
        else if r.Broke? then Normal(r.st)
        else r
    case ForRange(x, a, b, body) =>
      var from := EvalIn(a, st);
      var to := Eval(b, st.env, from.out);
      UnbindResult(ExecFor(x, to.n, body, Bind(st.(out := to.out), x, from.n), isVoid, fuel), x, st.env)
    case Match(subject, arms) =>
      var v := EvalIn(subject, st);
      var chosen := Select(arms, v.n, st.env, v.out);
      if chosen.body.None? then Normal(st.(out := chosen.out))
      else
        SelectIsSmaller(arms, v.n, st.env, v.out);
        ExecBody(chosen.body.value, st.(out := chosen.out), inLoop, isVoid, fuel)
    case Break => if inLoop then Broke(st) else Normal(st)
    case Continue => if inLoop then Continued(st) else Normal(st)
    case Return => Returned(if isVoid then None else Some(0), st.out)
    case ReturnExpr(e) =>
      var v := EvalIn(e, st);
      Returned(Some(v.n), v.out)
  }

  /** The iterations of a range loop; the limit was evaluated before the first. */
  function ExecFor(x: string, to: int, body: Stmt, st: State, isVoid: bool, fuel: nat): Result
    decreases fuel, body, 3
  {
    if Get(st.env, x) >= to then Normal(st)
    else if fuel == 0 then TimeOut
    else
      var r := ExecBody(body, st, true, isVoid, fuel);
      if r.Normal? || r.Continued? then
        ExecFor(x, to, body, Bind(r.st, x, Apply(Add, Get(r.st.env, x), 1)), isVoid, fuel - 1)
      else if r.Broke? then Normal(r.st)
      else r
  }

  /** A statement used as a body is a scope of its own. */
  function ExecBody(s: Stmt, st: State, inLoop: bool, isVoid: bool, fuel: nat): Result
    decreases fuel, s, 2
  {
    var r := Exec(s, st, inLoop, isVoid, fuel);
    if s.Let? then UnbindResult(r, s.name, st.env) else r
  }

  function ExecSeq(ss: seq<Stmt>, st: State, inLoop: bool, isVoid: bool, fuel: nat): Result
    decreases fuel, ss, 0
  {
    if ss == [] then Normal(st)
    else
      var r := Exec(ss[0], st, inLoop, isVoid, fuel);
      var r' := if r.Normal? then ExecSeq(ss[1..], r.st, inLoop, isVoid, fuel) else r;
      if ss[0].Let? then UnbindResult(r', ss[0].name, st.env) else r'
  }

  function BindArgs(params: seq<string>, args: seq<int>): Env
    requires |params| == |args|
  {
    if params == [] then map[] else BindArgs(params[..|params| - 1], args[..|args| - 1])[params[|params| - 1] := args[|args| - 1]]
  }

  /** Running a whole function. Falling off its end returns nothing or zero. */
  function Call(f: Function, args: seq<int>, out: World, fuel: nat): Result
    requires |args| == |f.params|
  {
    var r := ExecBody(f.body, State(BindArgs(f.params, args), out), false, f.isVoid, fuel);
    if r.Normal? then Returned(if f.isVoid then None else Some(0), r.st.out) else r
  }

  // ----- scoping that lowering relies on -----

  function Reads(e: Expr): set<string>
    decreases e, 1
  {
    match e
    case Lit(_) => {}
    case Var(x) => {x}
    case Binary(_, l, r) => Reads(l) + Reads(r)
    case Neg(e0) => Reads(e0)
    case Not(e0) => Reads(e0)
    case And(l, r) => Reads(l) + Reads(r)
    case Or(l, r) => Reads(l) + Reads(r)
    case IfExpr(c, t, f) => Reads(c) + Reads(t) + Reads(f)
    case Invoke(_, args) => ReadsOfAll(args)
  }

  function ReadsOfAll(es: seq<Expr>): set<string>
    decreases es, 0
  {
    if es == [] then {} else Reads(es[0]) + ReadsOfAll(es[1..])
  }

  /** Every name is bound where it is used, and no declaration shadows a name in
      scope. A wildcard arm comes last. */
  predicate Scoped(s: Stmt, scope: set<string>)
    decreases s, 1
  {
    match s
    case Let(x, e) => Reads(e) <= scope && x !in scope
    case Assign(x, e) => Reads(e) <= scope && x in scope
    case PrintStmt(e) => Reads(e) <= scope
    case ExprStmt(e) => Reads(e) <= scope
    case Block(body) => ScopedSeq(body, scope)
    case If(c, t, f) => Reads(c) <= scope && Scoped(t, scope) && (f.Some? ==> Scoped(f.value, scope))
    case While(c, body) => Reads(c) <= scope && Scoped(body, scope)
    case ForRange(x, a, b, body) =>
      Reads(a) <= scope && Reads(b) <= scope && x !in scope && Scoped(body, scope + {x})
    case Match(subject, arms) => Reads(subject) <= scope && ScopedArms(arms, scope)
    case Break => true
    case Continue => true
    case Return => true
    case ReturnExpr(e) => Reads(e) <= scope
  }

  predicate ScopedSeq(ss: seq<Stmt>, scope: set<string>)
    decreases ss, 0
  {
    ss != [] ==>
      && Scoped(ss[0], scope)
      && ScopedSeq(ss[1..], if ss[0].Let? then scope + {ss[0].name} else scope)
  }

  predicate ScopedArms(arms: seq<Arm>, scope: set<string>)
    decreases arms, 0
  {
    arms != [] ==>
      && (arms[0].pattern.None? ==> |arms| == 1)
      && ScopedArm(arms[0], scope)
      && ScopedArms(arms[1..], scope)
  }

  predicate ScopedArm(arm: Arm, scope: set<string>)
    decreases arm, 0
  {
    && (arm.pattern.Some? ==> Reads(arm.pattern.value) <= scope)
    && Scoped(arm.body, scope)
  }

  function Elements(params: seq<string>): set<string> {
    set x | x in params
  }

  predicate ScopedFunction(f: Function) {
    && (forall i, j :: 0 <= i < j < |f.params| ==> f.params[i] != f.params[j])
    && Scoped(f.body, Elements(f.params))
  }
}
