/**
  What the lines of a function do, for any meaning of its operations: values, memory and
  effects are opaque, but an operation sees only its words with the names resolved.
 */
module MirSemantics {
  import opened Options
  import opened MirLines

  datatype Item = Val(v: int) | Raw(p: Piece)

  /** A meaning of the operations. Memory is any state at all, under some number. */
  datatype Meaning = Meaning(
    word: string -> int,
    truth: int -> bool,
    pure: (string, seq<Item>, int) -> int,
    result: (seq<Item>, int) -> int,
    memory: (seq<Item>, int) -> int)

  /** The words for the truth values mean them. */
  predicate Sensible(m: Meaning) {
    && m.truth(m.word("1")) && m.truth(m.word("true"))
    && !m.truth(m.word("0")) && !m.truth(m.word("false"))
  }

  datatype State =
    | Running(pc: nat, env: map<string, int>, mem: int, trace: seq<seq<Item>>)
    | Halted(trace: seq<seq<Item>>)

  function Value(m: Meaning, env: map<string, int>, w: string): int {
    if w in env then env[w] else m.word(w)
  }

  function Resolve(m: Meaning, env: map<string, int>, p: Piece): Item {
    if p.Word? then Val(Value(m, env, p.text)) else Raw(p)
  }

  function ResolveAll(m: Meaning, env: map<string, int>, ps: seq<Piece>): (r: seq<Item>)
    ensures |r| == |ps| && forall i :: 0 <= i < |ps| ==> r[i] == Resolve(m, env, ps[i])
  {
    seq(|ps|, i requires 0 <= i < |ps| => Resolve(m, env, ps[i]))
  }

  // ----- control flow -----

  function Header(lbl: string): seq<Piece> {
    [Word("block"), Gap, Word(lbl), Other(':')]
  }

  predicate IsHeader(ps: seq<Piece>) {
    |ps| == 4 && ps[2].Word? && ps == Header(ps[2].text)
  }

  /** A function is a list of lines; those that were dropped are not there. */
  type Code = seq<Option<Line>>

  predicate Begins(l: Option<Line>, lbl: string) {
    l.Some? && l.value == Plain(Header(lbl))
  }

  /** The first block of a name. */
  function Target(f: Code, lbl: string): Option<nat> {
    if f == [] then None
    else if Begins(f[0], lbl) then Some(0)
    else
      match Target(f[1..], lbl)
      case None => None
      case Some(k) => Some(k + 1)
  }

  predicate IsReturn(ps: seq<Piece>) {
    |ps| > 0 && ps[0] in {Word("ret"), Word("unreachable")}
  }

  /** The assignments that do more than give a value. */
  predicate IsEffect(rhs: seq<Piece>) {
    |rhs| > 1 && rhs[0] in {Word("call"), Word("syscall"), Word("call_indirect")} && rhs[1] == Gap
  }

  function Goto(f: Code, lbl: string, st: State): State
    requires st.Running?
  {
    match Target(f, lbl)
    case None => Halted(st.trace)
    case Some(k) => st.(pc := k)
  }

  function StepPlain(m: Meaning, f: Code, ps: seq<Piece>, st: State): State
    requires st.Running?
  {
    if IsJump(ps) then Goto(f, ps[4].text, st)
    else if IsCondJump(ps) then
      Goto(f, if m.truth(Value(m, st.env, ps[2].text)) then ps[7].text else ps[12].text, st)
    else
      var items := ResolveAll(m, st.env, ps);
      if IsReturn(ps) then Halted(st.trace + [items])
      else st.(pc := st.pc + 1, mem := m.memory(items, st.mem), trace := st.trace + [items])
  }

  function StepAssign(m: Meaning, dest: string, rhs: seq<Piece>, st: State): State
    requires st.Running?
  {
    var items := ResolveAll(m, st.env, rhs);
    if AliasValue(rhs).Some? then
      st.(pc := st.pc + 1, env := st.env[dest := Value(m, st.env, AliasValue(rhs).value)])
    else if IsEffect(rhs) then
      Running(st.pc + 1, st.env[dest := m.result(items, st.mem)], m.memory(items, st.mem), st.trace + [items])
    else
      st.(pc := st.pc + 1, env := st.env[dest := m.pure(dest, items, st.mem)])
  }

  function Step(m: Meaning, f: Code, st: State): State {
    if st.Halted? then st
    else if st.pc >= |f| then Halted(st.trace)
    else if f[st.pc].None? then st.(pc := st.pc + 1)
    else if f[st.pc].value.Assign? then StepAssign(m, f[st.pc].value.dest, f[st.pc].value.rhs, st)
    else StepPlain(m, f, f[st.pc].value.body, st)
  }

  function Run(m: Meaning, f: Code, st: State, n: nat): State {
    if n == 0 then st else Step(m, f, Run(m, f, st, n - 1))
  }

  function Start(env: map<string, int>, mem: int): State {
    Running(0, env, mem, [])
  }

  function CodeOf(lines: seq<Line>): (r: Code)
    ensures |r| == |lines| && forall i :: 0 <= i < |lines| ==> r[i] == Some(lines[i])
  {
    seq(|lines|, i requires 0 <= i < |lines| => Some(lines[i]))
  }

  // ----- paths and dominance -----

  /** The lines that can be executed right after a line. */
  predicate Edge(f: Code, i: nat, j: nat) {
    i < |f| && j < |f| &&
    if f[i].None? || f[i].value.Assign? then j == i + 1
    else
      var ps := f[i].value.body;
      if IsJump(ps) then Target(f, ps[4].text) == Some(j)
      else if IsCondJump(ps) then Target(f, ps[7].text) == Some(j) || Target(f, ps[12].text) == Some(j)
      else !IsReturn(ps) && j == i + 1
  }

  ghost predicate Path(f: Code, p: seq<nat>) {
    && p != [] && p[0] == 0 && (forall k :: 0 <= k < |p| ==> p[k] < |f|)
    && forall k :: 0 <= k < |p| - 1 ==> Edge(f, p[k], p[k + 1])
  }

  ghost predicate PathTo(f: Code, p: seq<nat>, u: nat) {
    Path(f, p) && p[|p| - 1] == u
  }

  /** Every path to line u has been through line d before. */
  ghost predicate Dominates(f: Code, d: nat, u: nat) {
    forall p :: PathTo(f, p, u) ==> d in p[..|p| - 1]
  }

  /** A value has a definition that every use comes after. */
  ghost predicate Available(lines: seq<Line>, w: string, u: nat) {
    forall d :: 0 <= d < |lines| && lines[d].Assign? && lines[d].dest == w ==> Dominates(CodeOf(lines), d, u)
  }

  predicate ValueName(w: string) {
    |w| > 0 && w[0] == '%'
  }

  predicate IsLabelOf(l: Line, w: string) {
    l.Plain? &&
    (|| l.body == Header(w)
     || (IsJump(l.body) && l.body[4].text == w)
     || (IsCondJump(l.body) && w in {l.body[7].text, l.body[12].text}))
  }

  /** Static single assignment in the strict sense, with labels that are no values. */
  ghost predicate Strict(lines: seq<Line>) {
    && (forall i :: 0 <= i < |lines| && lines[i].Assign? ==> ValueName(lines[i].dest))
    && (forall i, j :: 0 <= i < j < |lines| && lines[i].Assign? && lines[j].Assign? ==> lines[i].dest != lines[j].dest)
    && (forall i, j, w :: 0 <= i < |lines| && 0 <= j < |lines| && lines[i].Assign? && IsLabelOf(lines[j], w) ==> lines[i].dest != w)
    && (forall u, w :: 0 <= u < |lines| && Contains(Uses(lines[u]), w) ==> Available(lines, w, u))
  }
}
