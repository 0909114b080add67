/**
  The interpreter: a tape that grows to the right, a pointer, and jumps between matching
  brackets. Input and output are lists of bytes; a run is cut off after a number of steps.
 */
module Brainfuck {
  import opened Options
  import opened Brackets

  const CELLS: nat := 30000

  datatype Machine = Machine(pc: nat, tape: seq<int>, ptr: int, input: seq<int>, output: seq<int>)

  datatype Outcome =
    | Running(m: Machine)
    | Finished(m: Machine)
    | OffTheLeft(m: Machine)
    | Unmatched(m: Machine)

  /** The pointer is on the tape and every cell holds a byte. */
  predicate Sane(m: Machine) {
    0 <= m.ptr < |m.tape| && forall i :: 0 <= i < |m.tape| ==> 0 <= m.tape[i] < 256
  }

  function Zeros(n: nat): (r: seq<int>)
    ensures |r| == n && forall i :: 0 <= i < n ==> r[i] == 0
  {
    seq(n, i => 0)
  }

  function Start(input: seq<int>): Machine {
    Machine(0, Zeros(CELLS), 0, input, [])
  }

  function Set(m: Machine, v: int): Machine
    requires Sane(m)
  {
    m.(tape := m.tape[m.ptr := v % 256])
  }

  /** The next byte of the input, or a zero at its end. */
  function Read(m: Machine): Machine
    requires Sane(m)
  {
    if m.input == [] || m.input[0] < 0 then Set(m, 0).(input := if m.input == [] then [] else m.input[1..])
    else Set(m, m.input[0]).(input := m.input[1..])
  }

  function Jump(m: Machine, target: Option<nat>): Outcome {
    if target.Some? then Running(m.(pc := target.value + 1)) else Unmatched(m)
  }

  function Step(p: string, m: Machine): Outcome
    requires Sane(m)
  {
    if m.pc >= |p| then Finished(m)
    else
      var next := m.(pc := m.pc + 1);
      match p[m.pc]
      case '>' => Running(if m.ptr + 1 >= |m.tape| then next.(ptr := m.ptr + 1, tape := m.tape + [0]) else next.(ptr := m.ptr + 1))
      case '<' => if m.ptr == 0 then OffTheLeft(m) else Running(next.(ptr := m.ptr - 1))
      case '+' => Running(Set(next, m.tape[m.ptr] + 1))
      case '-' => Running(Set(next, m.tape[m.ptr] - 1))
      case '.' => Running(next.(output := m.output + [m.tape[m.ptr]]))
      case ',' => Running(Read(next))
      case '[' => if m.tape[m.ptr] == 0 then Jump(m, Forward(p, m.pc)) else Running(next)
      case ']' => if m.tape[m.ptr] != 0 then Jump(m, Backward(p, m.pc)) else Running(next)
      case _ => Running(next)
  }

  lemma StepKeepsSane(p: string, m: Machine)
    requires Sane(m)
    ensures Sane(Step(p, m).m)
    ensures Balanced(p) ==> !Step(p, m).Unmatched?
  {
    hide Forward, Backward, Balanced;
    if Balanced(p) {
      BalancedIffAllFound(p);
    }
  }

  /** At most n steps. */
  function Steps(p: string, m: Machine, n: nat): (r: Outcome)
    requires Sane(m)
    ensures Sane(r.m)
    decreases n
  {
    if n == 0 then Running(m)
    else
      StepKeepsSane(p, m);
      var r := Step(p, m);
      if r.Running? then Steps(p, r.m, n - 1) else r
  }

  /** Over whole runs: a validated program never reports an unmatched bracket, and every
      state it reaches has the pointer on the tape and bytes in the cells. */
  lemma {:induction false} RunsAreSound(p: string, m: Machine, n: nat)
    requires Balanced(p) && Sane(m)
    ensures Sane(Steps(p, m, n).m) && !Steps(p, m, n).Unmatched?
    decreases n
  {
    hide Balanced, Step;
    if n > 0 {
      StepKeepsSane(p, m);
      if Step(p, m).Running? { RunsAreSound(p, Step(p, m).m, n - 1); }
    }
  }

  /** A jump only ever goes to a bracket of the other kind, and the next jump from there
      comes back: entering a loop and leaving it are at the same two brackets. */
  lemma JumpsComeBack(p: string, m: Machine)
    requires Balanced(p) && Sane(m) && m.pc < |p| && p[m.pc] == '[' && m.tape[m.ptr] == 0
    ensures var j := Step(p, m).m.pc - 1;
            && 0 <= j < |p| && p[j] == ']' && Match(p, m.pc, j) && Backward(p, j) == Some(m.pc)
  {
    BalancedIffAllFound(p);
    var j := Forward(p, m.pc).value;
    SearchesAreInverse(p, m.pc, j);
    ForwardIsMatch(p, m.pc, j);
  }

  class Interpreter {
    var tape: seq<int>
    var dataPtr: int
    var input: seq<int>
    var output: seq<int>
    ghost var pc: nat

    constructor (input: seq<int>)
      ensures View() == Start(input)
    {
      tape := seq(CELLS, i => 0);
      dataPtr := 0;
      this.input := input;
      output := [];
      pc := 0;
    }

    ghost function View(): Machine
      reads this
    {
      Machine(pc, tape, dataPtr, input, output)
    }

    method GrowTape(minSize: nat)
      modifies `tape
      ensures tape == if |old(tape)| <= minSize then old(tape) + Zeros(minSize + 1 - |old(tape)|) else old(tape)
    {
      while |tape| <= minSize
        invariant |old(tape)| <= |tape| && (|tape| <= minSize + 1 || tape == old(tape))
        invariant tape == old(tape) + Zeros(|tape| - |old(tape)|)
        decreases minSize + 1 - |tape|
      {
        tape := tape + [0];
      }
    }

    method MoveRight()
      requires Sane(View())
      modifies `tape, `dataPtr
      ensures View() == if old(dataPtr) + 1 >= |old(tape)| then old(View()).(ptr := old(dataPtr) + 1, tape := old(tape) + [0])
                        else old(View()).(ptr := old(dataPtr) + 1)
    {
      dataPtr := dataPtr + 1;
      if dataPtr >= |tape| {
        GrowTape(dataPtr);
        assert Zeros(1) == [0];
      }
    }

    method MoveLeft() returns (moved: bool)
      requires Sane(View())
      modifies `dataPtr
      ensures moved == (old(dataPtr) > 0)
      ensures dataPtr == if moved then old(dataPtr) - 1 else old(dataPtr)
    {
      if dataPtr == 0 { return false; }
      dataPtr := dataPtr - 1;
      moved := true;
    }

    method IncCell()
      requires Sane(View())
      modifies `tape
      ensures View() == Set(old(View()), old(tape[dataPtr]) + 1)
    {
      var v := tape[dataPtr];
      tape := tape[dataPtr := (v + 1) % 256];
    }

    method DecCell()
      requires Sane(View())
      modifies `tape
      ensures View() == Set(old(View()), old(tape[dataPtr]) - 1)
    {
      var v := tape[dataPtr];
      tape := tape[dataPtr := (v - 1) % 256];
    }

    method ReadCell()
      requires Sane(View())
      modifies `tape, `input
      ensures View() == Read(old(View()))
    {
      var c := -1;
      if input != [] {
        c := input[0];
        input := input[1..];
      }
      tape := tape[dataPtr := if c < 0 then 0 else c % 256];
    }

    /** Runs a program, the text before its terminator, for at most `fuel` steps; none if it
        is not validated. */
    method RunBrainfuck(p: string, fuel: nat) returns (r: Option<Outcome>)
      requires Sane(View()) && pc == 0
      modifies this
      ensures r.None? <==> !Balanced(p)
      ensures r.Some? ==> r.value == Steps(p, old(View()), fuel) && !r.value.Unmatched?
    {
      hide Balanced, Step;
      var valid := ValidateBrackets(p);
      if !valid { return None; }
      ghost var start := View();
      RunsAreSound(p, start, fuel);
      var here := 0;
      for n := 0 to fuel
        invariant Sane(View()) && pc == here
        invariant Steps(p, View(), fuel - n) == Steps(p, start, fuel)
      {
        StepKeepsSane(p, View());
        var o := RunStep(p, here);
        match o
        case Running(m) =>
          here := m.pc;
          pc := m.pc;
        case _ => return Some(o);
      }
      r := Some(Running(Machine(here, tape, dataPtr, input, output)));
    }

    /** One turn of the loop; the new position is in the result. */
    method RunStep(p: string, here: nat) returns (o: Outcome)
      requires Sane(View()) && pc == here
      modifies `tape, `dataPtr, `input, `output
      ensures o == Step(p, old(View()))
      ensures o.Running? ==> View() == o.m.(pc := here)
    {
      hide Forward, Backward;
      if here >= |p| { return Finished(Machine(here, tape, dataPtr, input, output)); }
      var next := here + 1;
      match p[here] {
      case '>' => MoveRight();
      case '<' =>
        var moved := MoveLeft();
        if !moved { return OffTheLeft(Machine(here, tape, dataPtr, input, output)); }
      case '+' => IncCell();
      case '-' => DecCell();
      case '.' => output := output + [tape[dataPtr]];
      case ',' => ReadCell();
      case '[' =>
        if tape[dataPtr] == 0 {
          var jump := FindForward(p, here);
          if jump.None? { return Unmatched(Machine(here, tape, dataPtr, input, output)); }
          next := jump.value + 1;
        }
      case ']' =>
        if tape[dataPtr] != 0 {
          var jump := FindBackward(p, here);
          if jump.None? { return Unmatched(Machine(here, tape, dataPtr, input, output)); }
          next := jump.value + 1;
        }
      case _ =>
      }
      o := Running(Machine(next, tape, dataPtr, input, output));
    }
  }
}
