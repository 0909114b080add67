/**
  Types with variants are lowered to records: a tag and one lane for each kind of payload.
  Constructors become record literals, matches become chains of tests of the tag. Types
  have no parameters.
 */
module AdtLowering {
  // ----- trees -----

  datatype Exp =
    | Hole
    | Exp(tag: string, text: string, num: int, flt: real, left: Exp, right: Exp, args: seq<Exp>, names: seq<string>)

  datatype Stm =
    | NoStm
    | Stm(tag: string, name: string, ty: string, value: Exp, assign: Exp, body: Stm, els: Stm, stmts: seq<Stm>,
          patterns: seq<Exp>, bodies: seq<Stm>)

  function IntLit(n: int): Exp {
    Exp("int", "", n, 0.0, Hole, Hole, [], [])
  }

  function StringLit(s: string): Exp {
    Exp("string", s, 0, 0.0, Hole, Hole, [], [])
  }

  function FloatLit(r: real): Exp {
    Exp("float", "", 0, r, Hole, Hole, [], [])
  }

  function Ident(name: string): Exp {
    Exp("ident", name, 0, 0.0, Hole, Hole, [], [])
  }

  function Binop(op: string, l: Exp, r: Exp): Exp {
    Exp("binop", op, 0, 0.0, l, r, [], [])
  }

  function Call(name: string, args: seq<Exp>): Exp {
    Exp("call", name, 0, 0.0, Hole, Hole, args, [])
  }

  function Field(e: Exp, name: string): Exp {
    Exp("field", name, 0, 0.0, e, Hole, [], [])
  }

  function SomeExp(e: Exp): Exp {
    Exp("option", "", 0, 0.0, e, Hole, [], [])
  }

  function Record(ty: string, names: seq<string>, values: seq<Exp>): Exp {
    Exp("struct_literal", ty, 0, 0.0, Hole, Hole, values, names)
  }

  function Simple(tag: string, name: string, ty: string, value: Exp, assign: Exp): Stm {
    Stm(tag, name, ty, value, assign, NoStm, NoStm, [], [], [])
  }

  function Return(e: Exp): Stm {
    Simple("return_expr", "", "", e, Hole)
  }

  function Let(name: string, ty: string, e: Exp): Stm {
    Simple("let", name, ty, Hole, e)
  }

  function Block(stmts: seq<Stm>): Stm {
    Stm("block", "", "", Hole, Hole, NoStm, NoStm, stmts, [], [])
  }

  function If(cond: Exp, then_: Stm, else_: Stm): Stm {
    Stm("if", "", "", cond, Hole, then_, else_, [], [], [])
  }

  function While(cond: Exp, body: Stm): Stm {
    Stm("while", "", "", cond, Hole, body, NoStm, [], [], [])
  }

  function ForRange(name: string, from: Exp, to: Exp, body: Stm): Stm {
    Stm("for_range", name, "", from, to, body, NoStm, [], [], [])
  }

  function Match(subject: Exp, patterns: seq<Exp>, bodies: seq<Stm>): Stm {
    Stm("match", "", "", subject, Hole, NoStm, NoStm, [], patterns, bodies)
  }

  predicate HasTag(e: Exp, tag: string) {
    e.Exp? && e.tag == tag
  }

  // ----- declarations -----

  datatype Adt = Adt(name: string, variants: seq<string>, payloads: seq<string>)

  predicate Declared(adts: seq<Adt>) {
    forall i :: 0 <= i < |adts| ==> |adts[i].payloads| == |adts[i].variants|
  }

  /** The first place from i on where the name stands, or -1. */
  function IndexFrom(names: seq<string>, name: string, i: nat): (r: int)
    ensures r == -1 || (i <= r < |names| && names[r] == name && name !in names[i..r])
    ensures r == -1 ==> i >= |names| || name !in names[i..]
    decreases |names| - i
  {
    if i >= |names| then -1 else if names[i] == name then i else IndexFrom(names, name, i + 1)
  }

  function VariantFrom(adts: seq<Adt>, name: string, i: nat): (r: int)
    ensures r == -1 || (i <= r < |adts| && name in adts[r].variants)
    ensures forall k :: i <= k < |adts| && (r == -1 || k < r) ==> name !in adts[k].variants
    decreases |adts| - i
  {
    if i >= |adts| then -1 else if name in adts[i].variants then i else VariantFrom(adts, name, i + 1)
  }

  /** The type that declares a variant, and the position of the variant in it; -1 for
      names that are no variants. */
  function FindVariant(adts: seq<Adt>, name: string): (r: int)
    ensures r == -1 || (0 <= r < |adts| && name in adts[r].variants)
    ensures forall k :: 0 <= k < |adts| && (r == -1 || k < r) ==> name !in adts[k].variants
  {
    VariantFrom(adts, name, 0)
  }

  function FindLocal(adts: seq<Adt>, name: string): (r: int)
    ensures r == -1 <==> FindVariant(adts, name) == -1
    ensures r == -1 || (0 <= r < |adts[FindVariant(adts, name)].variants| && adts[FindVariant(adts, name)].variants[r] == name)
  {
    var d := FindVariant(adts, name);
    if d < 0 then -1 else IndexFrom(adts[d].variants, name, 0)
  }

  predicate IsVariant(adts: seq<Adt>, name: string) {
    FindVariant(adts, name) >= 0
  }

  /** The declared payload type of a variant; empty when it has no payload. */
  function PayloadOf(adts: seq<Adt>, name: string): string
    requires Declared(adts) && IsVariant(adts, name)
  {
    adts[FindVariant(adts, name)].payloads[FindLocal(adts, name)]
  }

  // ----- lanes -----

  const LANES := ["tag", "payload_i32", "payload_string", "payload_ptr", "payload_f64"]

  const SCALARS := ["i8", "u8", "i16", "u16", "i32", "u32", "i64", "u64", "usize", "bool", "char", "f32", "f64", "string"]

  function PayloadField(ty: string): string {
    if ty == "string" then "payload_string"
    else if ty in ["f32", "f64"] then "payload_f64"
    else if ty !in SCALARS then "payload_ptr"
    else "payload_i32"
  }

  function StorageType(ty: string): string {
    if ty == "string" then "string"
    else if ty in ["f32", "f64"] then "f64"
    else if ty !in SCALARS then ty
    else "i32"
  }

  function Lane<T>(name: string, lane: string, payload: T, empty: T): T {
    if name == lane then payload else empty
  }

  /** The lanes of a variant: its position, and the payload in its lane. */
  function Lanes(local: int, lane: string, payload: Exp): (r: seq<Exp>)
    ensures |r| == |LANES|
  {
    [Lane("tag", lane, payload, IntLit(local)), Lane("payload_i32", lane, payload, IntLit(0)),
     Lane("payload_string", lane, payload, StringLit("")), Lane("payload_ptr", lane, payload, IntLit(0)),
     Lane("payload_f64", lane, payload, FloatLit(0.0))]
  }

  function TypeBase(ty: string): string {
    if ty == [] || ty[0] == '[' || ty[0] == ':' then "" else [ty[0]] + TypeBase(ty[1..])
  }

  /** The body of the function that is made for a variant. */
  function CtorRecord(d: Adt, local: nat): Exp
    requires local < |d.payloads|
  {
    var ty := d.payloads[local];
    Record(d.name, LANES, Lanes(local, if ty == "" then "" else PayloadField(ty), Ident("value")))
  }

  function CtorBody(d: Adt, local: nat): Stm
    requires local < |d.payloads|
  {
    Block([Return(CtorRecord(d, local))])
  }

  // ----- expressions -----

  /** A constructor applied: the record is written in place. The argument is the first one,
      lowered. */
  function AdtRecord(adts: seq<Adt>, name: string, args: seq<Exp>, expected: string): Exp
    requires Declared(adts) && IsVariant(adts, name)
  {
    var ty := PayloadOf(adts, name);
    var lane := if ty == "" || args == [] then "" else PayloadField(ty);
    Record(TypeBase(expected), LANES, Lanes(FindLocal(adts, name), lane, if args == [] then Hole else args[0]))
  }

  predicate Rebuilt(tag: string) {
    tag in ["binop", "unaryop", "index", "slice", "field", "array_literal", "method_call", "if_expr"]
  }

  function LowerExp(adts: seq<Adt>, e: Exp): Exp
    requires Declared(adts)
    decreases e, 1
  {
    if e.Hole? then e
    else if e.tag == "ident" && IsVariant(adts, e.text) && PayloadOf(adts, e.text) == "" then Call(e.text, [])
    else if e.tag == "call" && IsVariant(adts, e.text) then
      AdtRecord(adts, e.text, LowerExps(adts, e.args), adts[FindVariant(adts, e.text)].name)
    else if e.tag == "call" then Call(e.text, LowerExps(adts, e.args))
    else if e.tag == "struct_literal" then Record(TypeBase(e.text), e.names, LowerExps(adts, e.args))
    else if Rebuilt(e.tag) then
      Exp(e.tag, e.text, 0, 0.0, LowerExp(adts, e.left), LowerExp(adts, e.right), LowerExps(adts, e.args), [])
    else if e.tag == "option" && !e.left.Hole? then SomeExp(LowerExp(adts, e.left))
    else e
  }

  function LowerExps(adts: seq<Adt>, es: seq<Exp>): (r: seq<Exp>)
    requires Declared(adts)
    ensures |r| == |es|
    decreases es, 0
  {
    if es == [] then [] else [LowerExp(adts, es[0])] + LowerExps(adts, es[1..])
  }

  /** Where a type is expected, constructors are written in place. */
  function LowerExpected(adts: seq<Adt>, e: Exp, expected: string): Exp
    requires Declared(adts)
  {
    if e.Exp? && expected != "" && e.tag == "call" && IsVariant(adts, e.text) then
      AdtRecord(adts, e.text, LowerExps(adts, e.args), expected)
    else if e.Exp? && expected != "" && e.tag == "ident" && IsVariant(adts, e.text) then
      AdtRecord(adts, e.text, [], expected)
    else LowerExp(adts, e)
  }

  /** The type a variable is declared with, or that of the constructor it gets. */
  function DeclaredType(adts: seq<Adt>, e: Exp, ty: string): string {
    if ty != "" then ty
    else if e.Exp? && e.tag in ["call", "ident"] && IsVariant(adts, e.text) then adts[FindVariant(adts, e.text)].name
    else ""
  }

  // ----- statements -----

  /** A pattern that names a variant, with or without something in parentheses. */
  predicate IsCtor(adts: seq<Adt>, p: Exp) {
    p.Exp? && p.tag in ["call", "ident"] && IsVariant(adts, p.text)
  }

  predicate Binds(adts: seq<Adt>, p: Exp) {
    HasTag(p, "call") && IsVariant(adts, p.text) && p.args != [] &&
    HasTag(p.args[0], "ident") && p.args[0].text != "_" && !IsVariant(adts, p.args[0].text)
  }

  function LowerStm(adts: seq<Adt>, s: Stm): Stm
    requires Declared(adts)
    decreases s, 2
  {
    if s.NoStm? then s
    else
      match s.tag
      case "return_expr" => Return(LowerExp(adts, s.value))
      case "let" =>
        var ty := DeclaredType(adts, s.assign, s.ty);
        Let(s.name, ty, LowerExpected(adts, s.assign, ty))
      case "assign" => Simple("assign", s.name, "", Hole, LowerExp(adts, s.assign))
      case "expr" => Simple("expr", "", "", LowerExp(adts, s.value), Hole)
      case "print" => Simple("print", "", "", LowerExp(adts, s.value), Hole)
      case "block" => Block(LowerStms(adts, s.stmts))
      case "if" => If(LowerExp(adts, s.value), LowerStm(adts, s.body), LowerStm(adts, s.els))
      case "while" => While(LowerExp(adts, s.value), LowerStm(adts, s.body))
      case "for_range" => ForRange(s.name, LowerExp(adts, s.value), LowerExp(adts, s.assign), LowerStm(adts, s.body))
      case "match" =>
        var subject := LowerExp(adts, s.value);
        if exists k :: 0 <= k < |s.patterns| && IsCtor(adts, s.patterns[k])
        then MatchChain(adts, subject, s.patterns, s.bodies, 0)
        else Match(subject, s.patterns, LowerStms(adts, s.bodies))
      case _ => s
  }

  function LowerStms(adts: seq<Adt>, ss: seq<Stm>): (r: seq<Stm>)
    requires Declared(adts)
    ensures |r| == |ss|
    decreases ss, 0
  {
    if ss == [] then [] else [LowerStm(adts, ss[0])] + LowerStms(adts, ss[1..])
  }

  /** A bare expression as the body of an arm is returned. */
  function ArmBody(adts: seq<Adt>, body: Stm): Stm
    requires Declared(adts)
    decreases body, 3
  {
    if body.Stm? && body.tag == "expr" then Return(LowerExp(adts, body.value)) else LowerStm(adts, body)
  }

  /** The arms from k on. The subject is read again for every test and every binding. */
  function MatchChain(adts: seq<Adt>, subject: Exp, patterns: seq<Exp>, bodies: seq<Stm>, k: nat): Stm
    requires Declared(adts)
    decreases bodies, 1, |bodies| - k
  {
    if k >= |patterns| || k >= |bodies| then Block([])
    else
      var p := patterns[k];
      if p.Hole? then ArmBody(adts, bodies[k])
      else if IsCtor(adts, p) then
        If(Binop("==", Field(subject, "tag"), IntLit(FindLocal(adts, p.text))), BoundBody(adts, subject, p, bodies[k]),
           MatchChain(adts, subject, patterns, bodies, k + 1))
      else
        If(Binop("==", subject, LowerExp(adts, p)), ArmBody(adts, bodies[k]), MatchChain(adts, subject, patterns, bodies, k + 1))
  }

  function BoundBody(adts: seq<Adt>, subject: Exp, p: Exp, body: Stm): Stm
    requires Declared(adts) && IsCtor(adts, p)
    decreases body, 4
  {
    if p.tag != "call" then LowerStm(adts, body)
    else if !Binds(adts, p) then ArmBody(adts, body)
    else
      var ty := PayloadOf(adts, p.text);
      Block([Let(p.args[0].text, StorageType(ty), Field(subject, PayloadField(ty))), ArmBody(adts, body)])
  }
}
