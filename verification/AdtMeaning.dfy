/**
  What programs with variants mean, before and after lowering, and that it is the same.
 */
module AdtMeaning {
  import opened AdtLowering
  import opened Options

  /** Con is a value of a variant, with its payload or none; Rec is a record. */
  datatype Value =
    | Int(n: int)
    | Str(s: string)
    | Flt(r: real)
    | Addr(a: int)
    | Con(name: string, payload: seq<Value>)
    | Rec(names: seq<string>, values: seq<Value>)

  /** What operators on numbers do is left open, and so is what functions, methods, indices
      and arrays make of their operands. A source program knows variants, a lowered one has
      records and a function for each variant. */
  datatype World = World(adts: seq<Adt>, op: (string, int, int) -> Option<int>,
                         ext: (string, string, seq<Value>) -> Option<Value>, source: bool)

  datatype State = State(vars: map<string, Value>, printed: seq<Value>)

  datatype Outcome = Next(st: State) | Broke(st: State) | Continued(st: State) | Returned(v: Value, printed: seq<Value>)

  predicate FitsLane(ty: string, v: Value) {
    match PayloadField(ty)
    case "payload_i32" => v.Int? && -0x8000_0000 <= v.n < 0x8000_0000
    case "payload_string" => v.Str?
    case "payload_f64" => v.Flt?
    case _ => v.Con? || v.Addr? || v.Rec?
  }

  /** One variant built from its arguments; none when they do not fit its declaration. */
  function Build(adts: seq<Adt>, name: string, args: seq<Value>): Option<Value>
    requires Declared(adts) && IsVariant(adts, name)
  {
    var ty := PayloadOf(adts, name);
    if ty == "" then if args == [] then Some(Con(name, [])) else None
    else if |args| == 1 && FitsLane(ty, args[0]) then Some(Con(name, args)) else None
  }

  // ----- records for variants -----

  function LaneValues(local: int, lane: string, v: Value): (r: seq<Value>)
    ensures |r| == |LANES|
  {
    [Lane("tag", lane, v, Int(local)), Lane("payload_i32", lane, v, Int(0)), Lane("payload_string", lane, v, Str("")),
     Lane("payload_ptr", lane, v, Int(0)), Lane("payload_f64", lane, v, Flt(0.0))]
  }

  function Lowered(adts: seq<Adt>, v: Value): Value
    requires Declared(adts)
    decreases v, 1
  {
    if v.Con? && IsVariant(adts, v.name) then
      if v.payload == [] then Rec(LANES, LaneValues(FindLocal(adts, v.name), "", Int(0)))
      else Rec(LANES, LaneValues(FindLocal(adts, v.name), PayloadField(PayloadOf(adts, v.name)), Lowered(adts, v.payload[0])))
    else if v.Rec? then Rec(v.names, LoweredAll(adts, v.values))
    else v
  }

  function LoweredAll(adts: seq<Adt>, vs: seq<Value>): (r: seq<Value>)
    requires Declared(adts)
    ensures |r| == |vs| && forall i :: 0 <= i < |vs| ==> r[i] == Lowered(adts, vs[i])
    decreases vs, 0
  {
    seq(|vs|, i requires 0 <= i < |vs| => Lowered(adts, vs[i]))
  }

  // ----- expressions -----

  /** Literals and variables. */
  function EvalAtom(e: Exp, vars: map<string, Value>): Option<Value> {
    if e.Hole? then None
    else if e.tag in ["int", "bool"] then Some(Int(e.num))
    else if e.tag == "string" then Some(Str(e.text))
    else if e.tag == "float" then Some(Flt(e.flt))
    else if e.tag == "ident" && e.text in vars then Some(vars[e.text])
    else None
  }

  function EvalAtoms(es: seq<Exp>, vars: map<string, Value>): Option<seq<Value>> {
    if es == [] then Some([])
    else
      match (EvalAtom(es[0], vars), EvalAtoms(es[1..], vars))
      case (Some(v), Some(vs)) => Some([v] + vs)
      case _ => None
  }

  /** The function of a variant called: its body is a record of literals and its parameter. */
  function RunCtor(adts: seq<Adt>, name: string, args: seq<Value>): Option<Value>
    requires Declared(adts) && IsVariant(adts, name)
  {
    var record := CtorRecord(adts[FindVariant(adts, name)], FindLocal(adts, name));
    if |args| != (if PayloadOf(adts, name) == "" then 0 else 1) then None
    else
      match EvalAtoms(record.args, if args == [] then map[] else map["value" := args[0]])
      case None => None
      case Some(vs) => Some(Rec(record.names, vs))
  }

  function FieldOf(v: Value, name: string): Option<Value> {
    if !v.Rec? then None
    else
      var i := IndexFrom(v.names, name, 0);
      if i < 0 || i >= |v.values| then None else Some(v.values[i])
  }

  function Operate(w: World, op: string, a: Value, b: Value): Option<Value> {
    if op == "==" && a.Str? && b.Str? then Some(Int(if a == b then 1 else 0))
    else if !a.Int? || !b.Int? then None
    else if op == "==" then Some(Int(if a == b then 1 else 0))
    else match w.op(op, a.n, b.n) case None => None case Some(n) => Some(Int(n))
  }

  /** What is left open is given the lowered operands in either world. */
  function Outside(w: World, tag: string, text: string, vs: seq<Value>): Option<Value>
    requires Declared(w.adts)
  {
    match w.ext(tag, text, if w.source then LoweredAll(w.adts, vs) else vs)
    case None => None
    case Some(v) => Some(if w.source then v else Lowered(w.adts, v))
  }

  predicate IsOutside(tag: string) {
    tag in ["index", "slice", "array_literal", "method_call"]
  }

  function Eval(w: World, e: Exp, vars: map<string, Value>): Option<Value>
    requires Declared(w.adts)
    decreases e, 1
  {
    if e.Hole? then None
    else if e.tag == "ident" && w.source && IsVariant(w.adts, e.text) then Build(w.adts, e.text, [])
    else if e.tag == "call" then
      match EvalAll(w, e.args, vars)
      case None => None
      case Some(vs) =>
        if !IsVariant(w.adts, e.text) then Outside(w, "call", e.text, vs)
        else if w.source then Build(w.adts, e.text, vs)
        else RunCtor(w.adts, e.text, vs)
    else if e.tag == "binop" then
      match (Eval(w, e.left, vars), Eval(w, e.right, vars))
      case (Some(a), Some(b)) => Operate(w, e.text, a, b)
      case _ => None
    else if e.tag == "unaryop" then
      match Eval(w, e.left, vars)
      case Some(a) => Operate(w, e.text, Int(0), a)
      case None => None
    else if e.tag == "if_expr" then
      if e.args == [] then None
      else
        match Eval(w, e.left, vars)
        case None => None
        case Some(v) => if !v.Int? then None else if v.n != 0 then Eval(w, e.right, vars) else Eval(w, e.args[0], vars)
    else if IsOutside(e.tag) then
      match (EvalIfAny(w, e.left, vars), EvalIfAny(w, e.right, vars), EvalAll(w, e.args, vars))
      case (Some(l), Some(r), Some(vs)) => Outside(w, e.tag, e.text, l + r + vs)
      case _ => None
    else if e.tag == "option" then
      match EvalIfAny(w, e.left, vars)
      case None => None
      case Some(vs) => Outside(w, "option", "", vs)
    else if e.tag == "struct_literal" then
      match EvalAll(w, e.args, vars)
      case None => None
      case Some(vs) => Some(Rec(e.names, vs))
    else if e.tag == "field" then
      match Eval(w, e.left, vars)
      case None => None
      case Some(v) => FieldOf(v, e.text)
    else EvalAtom(e, vars)
  }

  /** An operand that may be missing. */
  function EvalIfAny(w: World, e: Exp, vars: map<string, Value>): Option<seq<Value>>
    requires Declared(w.adts)
    decreases e, 2
  {
    if e.Hole? then Some([]) else match Eval(w, e, vars) case None => None case Some(v) => Some([v])
  }

  function EvalAll(w: World, es: seq<Exp>, vars: map<string, Value>): Option<seq<Value>>
    requires Declared(w.adts)
    decreases es, 0
  {
    if es == [] then Some([])
    else
      match (Eval(w, es[0], vars), EvalAll(w, es[1..], vars))
      case (Some(v), Some(vs)) => Some([v] + vs)
      case _ => None
  }

  /** Does an arm take the value? A variant is looked for among those of the type of the
      value, and what stands in its parentheses must take the payload; anything else is
      compared. */
  function Takes(w: World, p: Exp, v: Value, vars: map<string, Value>): Option<bool>
    requires Declared(w.adts)
  {
    if p.Hole? then Some(true)
    else if w.source && IsCtor(w.adts, p) then
      if !v.Con? || FindVariant(w.adts, v.name) != FindVariant(w.adts, p.text) then None
      else if v.name != p.text then Some(false)
      else if p.tag == "ident" || p.args == [] || NamesPayload(w.adts, p.args[0]) then Some(true)
      else if |v.payload| == 1 then Takes(w, p.args[0], v.payload[0], vars)
      else None
    else
      match Eval(w, p, vars)
      case None => None
      case Some(x) => match Operate(w, "==", v, x) case None => None case Some(r) => Some(r == Int(1))
  }

  /** A name for the payload, or `_`. */
  predicate NamesPayload(adts: seq<Adt>, q: Exp) {
    HasTag(q, "ident") && !IsVariant(adts, q.text)
  }

  /** The variables with the names that a pattern gives to parts of the value; none when a
      part is not there. */
  function Matched(adts: seq<Adt>, p: Exp, v: Value, vars: map<string, Value>): Option<map<string, Value>> {
    if !HasTag(p, "call") || !IsCtor(adts, p) || p.args == [] then Some(vars)
    else if NamesPayload(adts, p.args[0]) && p.args[0].text == "_" then Some(vars)
    else if !v.Con? || |v.payload| != 1 then None
    else if NamesPayload(adts, p.args[0]) then Some(vars[p.args[0].text := v.payload[0]])
    else Matched(adts, p.args[0], v.payload[0], vars)
  }

  /** The state in which the body of an arm runs. */
  function Bound(w: World, p: Exp, v: Value, st: State): Option<State> {
    if !w.source then Some(st)
    else match Matched(w.adts, p, v, st.vars) case None => None case Some(vars) => Some(st.(vars := vars))
  }

  function Exec(w: World, s: Stm, st: State, fuel: nat): Option<Outcome>
    requires Declared(w.adts)
    decreases fuel, s, 1
  {
    if s.NoStm? then Some(Next(st))
    else
      match s.tag
      case "return_expr" => (match Eval(w, s.value, st.vars) case None => None case Some(v) => Some(Returned(v, st.printed)))
      case "let" =>
        (match Eval(w, s.assign, st.vars)
         case None => None
         case Some(v) => Some(Next(st.(vars := st.vars[s.name := v]))))
      case "assign" =>
        (match Eval(w, s.assign, st.vars)
         case None => None
         case Some(v) => if s.name in st.vars then Some(Next(st.(vars := st.vars[s.name := v]))) else None)
      case "expr" => (match Eval(w, s.value, st.vars) case None => None case Some(_) => Some(Next(st)))
      case "print" =>
        (match Eval(w, s.value, st.vars)
         case None => None
         case Some(v) => Some(Next(st.(printed := st.printed + [v]))))
      case "block" => ExecAll(w, s.stmts, st, fuel)
      case "if" =>
        (match Eval(w, s.value, st.vars)
         case None => None
         case Some(v) => if !v.Int? then None else if v.n != 0 then Exec(w, s.body, st, fuel) else Exec(w, s.els, st, fuel))
      case "while" =>
        (match Eval(w, s.value, st.vars)
         case None => None
         case Some(v) =>
           if !v.Int? then None
           else if v.n == 0 then Some(Next(st))
           else
             match Exec(w, s.body, st, fuel)
             case None => None
             case Some(Broke(st')) => Some(Next(st'))
             case Some(Returned(r, out)) => Some(Returned(r, out))
             case Some(o) => if fuel == 0 then None else Exec(w, s, o.st, fuel - 1))
      case "for_range" =>
        (match (Eval(w, s.value, st.vars), Eval(w, s.assign, st.vars))
         case (Some(from), Some(to)) =>
           if from.Int? && to.Int? then ExecRange(w, s, to.n, st.(vars := st.vars[s.name := from]), fuel) else None
         case _ => None)
      case "break" => Some(Broke(st))
      case "continue" => Some(Continued(st))
      case "match" =>
        (match Eval(w, s.value, st.vars)
         case None => None
         case Some(v) => ExecArms(w, v, s.patterns, s.bodies, 0, st, fuel))
      case _ => None
  }

  /** The rounds of a range loop: the variable is read before each and counted up behind it. */
  function ExecRange(w: World, s: Stm, to: int, st: State, fuel: nat): Option<Outcome>
    requires Declared(w.adts) && s.Stm?
    decreases fuel, s, 0
  {
    if s.name !in st.vars || !st.vars[s.name].Int? then None
    else if st.vars[s.name].n >= to then Some(Next(st))
    else
      match Exec(w, s.body, st, fuel)
      case None => None
      case Some(Broke(st')) => Some(Next(st'))
      case Some(Returned(r, out)) => Some(Returned(r, out))
      case Some(o) =>
        if fuel == 0 || s.name !in o.st.vars || !o.st.vars[s.name].Int? then None
        else ExecRange(w, s, to, o.st.(vars := o.st.vars[s.name := Int(Counted(o.st.vars[s.name].n))]), fuel - 1)
  }

  /** The next 32-bit number. */
  function Counted(n: int): int {
    if n == 0x7fff_ffff then -0x8000_0000 else n + 1
  }

  function ExecAll(w: World, ss: seq<Stm>, st: State, fuel: nat): Option<Outcome>
    requires Declared(w.adts)
    decreases fuel, ss, 0
  {
    if ss == [] then Some(Next(st))
    else
      match Exec(w, ss[0], st, fuel)
      case Some(Next(st')) => ExecAll(w, ss[1..], st', fuel)
      case o => o
  }

  /** The first arm that takes the value runs. */
  function ExecArms(w: World, v: Value, patterns: seq<Exp>, bodies: seq<Stm>, k: nat, st: State, fuel: nat): Option<Outcome>
    requires Declared(w.adts)
    decreases fuel, bodies, 0, |bodies| - k
  {
    if k >= |patterns| || k >= |bodies| then Some(Next(st))
    else
      match Takes(w, patterns[k], v, st.vars)
      case None => None
      case Some(false) => ExecArms(w, v, patterns, bodies, k + 1, st, fuel)
      case Some(true) =>
        match Bound(w, patterns[k], v, st)
        case None => None
        case Some(st') => Exec(w, bodies[k], st', fuel)
  }

  // ----- lowered states -----

  function LoweredVars(adts: seq<Adt>, vars: map<string, Value>): map<string, Value>
    requires Declared(adts)
  {
    map x | x in vars :: Lowered(adts, vars[x])
  }

  function LoweredState(adts: seq<Adt>, st: State): State
    requires Declared(adts)
  {
    State(LoweredVars(adts, st.vars), LoweredAll(adts, st.printed))
  }

  function LoweredOutcome(adts: seq<Adt>, o: Outcome): Outcome
    requires Declared(adts)
  {
    match o
    case Next(st) => Next(LoweredState(adts, st))
    case Broke(st) => Broke(LoweredState(adts, st))
    case Continued(st) => Continued(LoweredState(adts, st))
    case Returned(v, out) => Returned(Lowered(adts, v), LoweredAll(adts, out))
  }

  function Target(w: World): World {
    w.(source := false)
  }

  // ----- programs the lowering handles -----

  /** The type in which this variant is found has no other variant that is found in it. */
  predicate OnlyVariant(adts: seq<Adt>, name: string)
    requires IsVariant(adts, name)
  {
    forall other :: other in adts[FindVariant(adts, name)].variants && FindVariant(adts, other) == FindVariant(adts, name) ==> other == name
  }

  /** A pattern that every value of its type matches: a chain of constructors, each the only
      one of its type, that ends with a name or with nothing. */
  predicate Total(adts: seq<Adt>, q: Exp) {
    || q.Hole?
    || NamesPayload(adts, q)
    || (IsCtor(adts, q) && OnlyVariant(adts, q.text) && (q.tag == "ident" || q.args == [] || Total(adts, q.args[0])))
  }

  /** Such a pattern that gives no names. */
  predicate TakesAnything(adts: seq<Adt>, q: Exp) {
    || q.Hole?
    || (NamesPayload(adts, q) && q.text == "_")
    || (IsCtor(adts, q) && OnlyVariant(adts, q.text) && (q.tag == "ident" || q.args == [] || TakesAnything(adts, q.args[0])))
  }

  /** What a pattern has inside its parentheses is a name, `_`, or matches anyway and gives
      no names. */
  predicate FlatPattern(adts: seq<Adt>, p: Exp) {
    HasTag(p, "call") && IsVariant(adts, p.text) && p.args != [] ==> NamesPayload(adts, p.args[0]) || TakesAnything(adts, p.args[0])
  }

  /** A body that is no bare expression, unless the pattern is a variant by itself. */
  predicate PlainArm(adts: seq<Adt>, p: Exp, body: Stm) {
    body.Stm? && body.tag == "expr" ==> IsCtor(adts, p) && p.tag == "ident"
  }

  /** No variant stands in it by itself, without parentheses. */
  predicate Settled(adts: seq<Adt>, e: Exp)
    decreases e, 1
  {
    e.Exp? ==>
      && (e.tag == "ident" ==> !IsVariant(adts, e.text))
      && Settled(adts, e.left) && Settled(adts, e.right) && AllSettled(adts, e.args)
  }

  predicate AllSettled(adts: seq<Adt>, es: seq<Exp>)
    decreases es, 0
  {
    es != [] ==> Settled(adts, es[0]) && AllSettled(adts, es[1..])
  }

  predicate Lowerable(adts: seq<Adt>, s: Stm)
    decreases s, 1
  {
    s.Stm? ==>
      && (s.tag in ["if", "while", "for_range"] ==> Lowerable(adts, s.body) && Lowerable(adts, s.els))
      && (s.tag == "block" ==> AllLowerable(adts, s.stmts))
      && (s.tag == "match" ==>
            && |s.bodies| == |s.patterns| && AllLowerable(adts, s.bodies)
            && (if exists k :: 0 <= k < |s.patterns| && IsCtor(adts, s.patterns[k]) then ArmsLowerable(adts, s.patterns, s.bodies)
                else forall k :: 0 <= k < |s.patterns| ==> Settled(adts, s.patterns[k])))
  }

  predicate AllLowerable(adts: seq<Adt>, ss: seq<Stm>)
    decreases ss, 0
  {
    ss != [] ==> Lowerable(adts, ss[0]) && AllLowerable(adts, ss[1..])
  }

  predicate ArmsLowerable(adts: seq<Adt>, patterns: seq<Exp>, bodies: seq<Stm>) {
    |patterns| == |bodies| &&
    forall k :: 0 <= k < |patterns| ==> FlatPattern(adts, patterns[k]) && PlainArm(adts, patterns[k], bodies[k])
  }
}
