/**
  The target of control-flow lowering: functions made of basic blocks, as the
  builder calls of `src/builder.vix` append them, and the machine that runs them.
  Temporaries and stack slots are numbered; slot 0 is the null pointer that
  `get_var` returns for an unknown name, so using it faults.
 */
module Ir {
  import opened Options

  datatype Val = Const(n: int) | Temp(t: nat) | Arg(i: nat)

  datatype Op = Add | Sub | Mul | Div | Rem | Eq | Ne | Lt | Le | Gt | Ge

  datatype Instr =
    | Bin(dst: nat, op: Op, left: Val, right: Val)
    | Zext(dst: nat, v: Val)
    | Alloca(slot: nat)
    | Load(dst: nat, slot: nat)
    | Store(v: Val, slot: nat)
    | Phi(dst: nat, v0: Val, from0: nat, v1: Val, from1: nat)
    | Print(v: Val)
    | CallFn(dst: nat, name: string, args: seq<Val>)

  datatype Term =
    | Br(target: nat)
    | CondBr(cond: Val, whenTrue: nat, whenFalse: nat)
    | Ret(v: Val)
    | RetVoid

  datatype Block = Block(code: seq<Instr>, term: Option<Term>)

  /** The 32-bit two's-complement value of an unbounded result. */
  function Wrap(n: int): int {
    (n + 0x8000_0000) % 0x1_0000_0000 - 0x8000_0000
  }

  function Magnitude(n: int): nat {
    if n < 0 then -n else n
  }

  /** Division truncated toward zero, as C divides. */
  function Truncated(a: int, b: int): int
    requires b != 0
  {
    if (a < 0) == (b < 0) then Magnitude(a) / Magnitude(b) else -(Magnitude(a) / Magnitude(b))
  }

  function Flag(b: bool): int {
    if b then 1 else 0
  }

  /** What an operator computes on 32-bit integers; `/` and `%` are the guarded
      runtime calls, which give 0 for a zero divisor and for the overflowing quotient. */
  function Apply(op: Op, a: int, b: int): int {
    match op
    case Add => Wrap(a + b)
    case Sub => Wrap(a - b)
    case Mul => Wrap(a * b)
    case Div => if b == 0 || (a == -0x8000_0000 && b == -1) then 0 else Truncated(a, b)
    case Rem => if b == 0 || (a == -0x8000_0000 && b == -1) then 0 else a - Truncated(a, b) * b
    case Eq => Flag(a == b)
    case Ne => Flag(a != b)
    case Lt => Flag(a < b)
    case Le => Flag(a <= b)
    case Gt => Flag(a > b)
    case Ge => Flag(a >= b)
  }

  // ----- what is outside -----

  /** What a program does that can be seen: numbers printed, and functions called. */
  datatype Event = Printed(n: int) | Called(name: string, args: seq<int>)

  /** What happened so far, in order, and what a call is answered with then. */
  datatype World = World(events: seq<Event>, answer: (seq<Event>, string, seq<int>) -> int)

  function Happens(w: World, e: Event): World {
    w.(events := w.events + [e])
  }

  // ----- the machine -----

  datatype Prog = Prog(blocks: seq<Block>, args: seq<int>)

  datatype Cfg =
    | Running(block: nat, pc: nat, prev: nat, temps: map<nat, int>, mem: map<nat, int>, out: World)
    | Halt(ret: Option<int>, out: World)
    | Fault

  function ValueOf(p: Prog, c: Cfg, v: Val): Option<int>
    requires c.Running?
  {
    match v
    case Const(n) => Some(n)
    case Temp(t) => if t in c.temps then Some(c.temps[t]) else None
    case Arg(i) => if i < |p.args| then Some(p.args[i]) else None
  }

  function ValuesOf(p: Prog, c: Cfg, vs: seq<Val>): (r: Option<seq<int>>)
    requires c.Running?
    ensures r.Some? ==> |r.value| == |vs|
  {
    if vs == [] then Some([])
    else
      match (ValueOf(p, c, vs[0]), ValuesOf(p, c, vs[1..]))
      case (Some(n), Some(ns)) => Some([n] + ns)
      case _ => None
  }

  function SetTemp(c: Cfg, dst: nat, v: Option<int>): Cfg
    requires c.Running?
  {
    if v.Some? then c.(temps := c.temps[dst := v.value], pc := c.pc + 1) else Fault
  }

  function Execute(p: Prog, c: Cfg, i: Instr): Cfg
    requires c.Running?
  {
    match i
    case Bin(dst, op, l, r) =>
      var a, b := ValueOf(p, c, l), ValueOf(p, c, r);
      SetTemp(c, dst, if a.Some? && b.Some? then Some(Apply(op, a.value, b.value)) else None)
    case Zext(dst, v) => SetTemp(c, dst, ValueOf(p, c, v))
    case Alloca(slot) => c.(mem := c.mem - {slot}, pc := c.pc + 1)
    case Load(dst, slot) => SetTemp(c, dst, if slot != 0 && slot in c.mem then Some(c.mem[slot]) else None)
    case Store(v, slot) =>
      var a := ValueOf(p, c, v);
      if a.Some? && slot != 0 then c.(mem := c.mem[slot := a.value], pc := c.pc + 1) else Fault
    case Phi(dst, v0, from0, v1, from1) =>
      SetTemp(c, dst, if c.prev == from0 then ValueOf(p, c, v0)
                      else if c.prev == from1 then ValueOf(p, c, v1) else None)
    case Print(v) =>
      var a := ValueOf(p, c, v);
      if a.Some? then c.(out := Happens(c.out, Printed(a.value)), pc := c.pc + 1) else Fault
    case CallFn(dst, name, args) =>
      match ValuesOf(p, c, args)
      case None => Fault
      case Some(ns) =>
        c.(temps := c.temps[dst := c.out.answer(c.out.events, name, ns)], out := Happens(c.out, Called(name, ns)), pc := c.pc + 1)
  }

  function Jump(c: Cfg, target: nat): Cfg
    requires c.Running?
  {
    Running(target, 0, c.block, c.temps, c.mem, c.out)
  }

  function Leave(p: Prog, c: Cfg, t: Term): Cfg
    requires c.Running?
  {
    match t
    case Br(b) => Jump(c, b)
    case CondBr(v, b0, b1) =>
      var a := ValueOf(p, c, v);
      if a.Some? then Jump(c, if a.value != 0 then b0 else b1) else Fault
    case Ret(v) =>
      var a := ValueOf(p, c, v);
      if a.Some? then Halt(a, c.out) else Fault
    case RetVoid => Halt(None, c.out)
  }

  /** One machine step. Running past the code of a block without terminator faults. */
  function Step(p: Prog, c: Cfg): Cfg {
    if !c.Running? then c
    else if c.block >= |p.blocks| then Fault
    else
      var b := p.blocks[c.block];
      if c.pc < |b.code| then Execute(p, c, b.code[c.pc])
      else if b.term.Some? then Leave(p, c, b.term.value)
      else Fault
  }

  function Run(p: Prog, n: nat, c: Cfg): Cfg {
    if n == 0 then c else Run(p, n - 1, Step(p, c))
  }

  lemma {:induction false} RunPlus(p: Prog, m: nat, n: nat, c: Cfg)
    ensures Run(p, m + n, c) == Run(p, n, Run(p, m, c))
  {
    if m > 0 {
      RunPlus(p, m - 1, n, Step(p, c));
    }
  }

  /** A machine that has stopped stays as it is. */
  lemma {:induction false} RunStopped(p: Prog, n: nat, c: Cfg)
    requires !c.Running?
    ensures Run(p, n, c) == c
  {
    if n > 0 {
      RunStopped(p, n - 1, c);
    }
  }
}
