/**
  What the commands do to cell, pointer, input and output, and small programs made of them.
 */
module BrainfuckCommands {
  import opened Brackets
  import opened Brainfuck

  /** Adding and subtracting wrap around at 256, at the cell of the pointer only. */
  lemma CountingWraps(p: string, m: Machine)
    requires Sane(m) && m.pc < |p| && p[m.pc] in {'+', '-'}
    ensures var v := m.tape[m.ptr];
            var w := if p[m.pc] == '+' then (if v == 255 then 0 else v + 1) else (if v == 0 then 255 else v - 1);
            Step(p, m) == Running(m.(pc := m.pc + 1, tape := m.tape[m.ptr := w]))
  {
  }

  /** Output is the cell; input is the next byte, or zero when there is none. */
  lemma BytesGoInAndOut(p: string, m: Machine)
    requires Sane(m) && m.pc < |p| && p[m.pc] in {'.', ','} && forall i :: 0 <= i < |m.input| ==> 0 <= m.input[i] < 256
    ensures p[m.pc] == '.' ==> Step(p, m) == Running(m.(pc := m.pc + 1, output := m.output + [m.tape[m.ptr]]))
    ensures p[m.pc] == ',' && m.input == [] ==> Step(p, m) == Running(m.(pc := m.pc + 1, tape := m.tape[m.ptr := 0]))
    ensures p[m.pc] == ',' && m.input != [] ==>
              Step(p, m) == Running(m.(pc := m.pc + 1, tape := m.tape[m.ptr := m.input[0]], input := m.input[1..]))
  {
  }

  /** Moving right grows the tape by a zero when it is used up; moving left of the first cell is
      the end. Anything that is no command is passed over. */
  lemma MovingGrowsTheTape(p: string, m: Machine)
    requires Sane(m) && m.pc < |p|
    ensures p[m.pc] == '>' ==>
              Step(p, m) == Running(m.(pc := m.pc + 1, ptr := m.ptr + 1,
                                       tape := if m.ptr == |m.tape| - 1 then m.tape + [0] else m.tape))
    ensures p[m.pc] == '<' ==>
              Step(p, m) == if m.ptr == 0 then OffTheLeft(m) else Running(m.(pc := m.pc + 1, ptr := m.ptr - 1))
    ensures p[m.pc] !in "><+-.,[]" ==> Step(p, m) == Running(m.(pc := m.pc + 1))
  {
  }

  /** A loop is left behind its partner on a zero, and repeated behind its partner on anything
      else. */
  lemma BracketsJump(p: string, m: Machine, i: nat, j: nat)
    requires Sane(m) && Match(p, i, j)
    ensures m.pc == i ==> Step(p, m) == Running(m.(pc := if m.tape[m.ptr] == 0 then j + 1 else i + 1))
    ensures m.pc == j ==> Step(p, m) == Running(m.(pc := if m.tape[m.ptr] == 0 then j + 1 else i + 1))
  {
    ForwardIsMatch(p, i, j);
    BackwardIsMatch(p, i, j);
  }

  lemma {:induction false} StepsThen(p: string, m: Machine, a: nat, b: nat)
    requires Sane(m) && Steps(p, m, a).Running?
    ensures Steps(p, m, a + b) == Steps(p, Steps(p, m, a).m, b)
    decreases a
  {
    hide Step;
    if a > 0 {
      StepKeepsSane(p, m);
      StepsThen(p, Step(p, m).m, a - 1, b);
    }
  }

  function Repeat(c: char, n: nat): (r: string)
    ensures |r| == n && forall i :: 0 <= i < n ==> r[i] == c
  {
    seq(n, _ => c)
  }

  lemma {:induction false} Pluses(p: string, n: nat, k: nat, input: seq<int>)
    requires k <= n <= |p| && forall i :: 0 <= i < n ==> p[i] == '+'
    ensures Steps(p, Start(input), k) == Running(Start(input).(pc := k, tape := Start(input).tape[0 := k % 256]))
    decreases k
  {
    var m := Start(input);
    if k == 0 {
      assert m.tape[0 := 0] == m.tape;
    } else {
      hide Step;
      Pluses(p, n, k - 1, input);
      var m1 := Steps(p, m, k - 1).m;
      StepsThen(p, m, k - 1, 1);
      CountingWraps(p, m1);
      StepKeepsSane(p, m1);
      assert Steps(p, m1, 1) == Step(p, m1);
      assert m1.tape[0 := k % 256] == m.tape[0 := k % 256];
    }
  }

  /** As many `+` as one likes and a `.` print their number, modulo 256. */
  lemma PlusesArePrinted(n: nat, input: seq<int>)
    ensures Steps(Repeat('+', n) + ".", Start(input), n + 1).m.output == [n % 256]
  {
    var p := Repeat('+', n) + ".";
    assert forall i :: 0 <= i < n ==> p[i] == '+';
    Pluses(p, n, n, input);
    var m := Steps(p, Start(input), n).m;
    StepsThen(p, Start(input), n, 1);
    StepKeepsSane(p, m);
    assert Steps(p, m, 1) == Step(p, m);
    assert p[n] == '.';
  }

  function Echo(n: nat): (r: string)
    ensures |r| == 2 * n && forall i :: 0 <= i < 2 * n ==> r[i] == if i % 2 == 0 then ',' else '.'
  {
    seq(2 * n, i => if i % 2 == 0 then ',' else '.')
  }

  lemma {:induction false} Echoed(input: seq<int>, k: nat)
    requires k <= |input| && forall i :: 0 <= i < |input| ==> 0 <= input[i] < 256
    ensures var r := Steps(Echo(|input|), Start(input), 2 * k);
            r.Running? && r.m.pc == 2 * k && r.m.input == input[k..] && r.m.output == input[..k]
    decreases k
  {
    var p := Echo(|input|);
    if k > 0 {
      hide Step;
      Echoed(input, k - 1);
      var m := Steps(p, Start(input), 2 * k - 2).m;
      StepsThen(p, Start(input), 2 * k - 2, 2);
      BytesGoInAndOut(p, m);
      StepKeepsSane(p, m);
      var m1 := Step(p, m).m;
      BytesGoInAndOut(p, m1);
      StepKeepsSane(p, m1);
      assert Steps(p, m, 2) == Steps(p, m1, 1) == Step(p, m1);
      assert input[..k] == input[..k - 1] + [input[k - 1]] && input[k - 1..][1..] == input[k..];
    }
  }

  /** `,.` once for each byte prints the input. */
  lemma EchoPrintsTheInput(input: seq<int>)
    requires forall i :: 0 <= i < |input| ==> 0 <= input[i] < 256
    ensures Steps(Echo(|input|), Start(input), 2 * |input|).m.output == input
  {
    Echoed(input, |input|);
    assert input[..|input|] == input;
  }

  lemma ClosesNext(p: string, i: nat)
    requires i + 3 <= |p| && p[i..i + 3] == "[-]"
    ensures p[i] == '[' && p[i + 1] == '-' && p[i + 2] == ']' && Match(p, i, i + 2)
  {
    assert p[i] == p[i..i + 3][0] && p[i + 1] == p[i..i + 3][1] && p[i + 2] == p[i..i + 3][2];
    assert Depth(p, i + 1) == Depth(p, i) + 1 && Depth(p, i + 2) == Depth(p, i + 1) && Depth(p, i + 3) == Depth(p, i + 2) - 1;
  }

  /** From its middle on, with something in the cell. */
  lemma {:induction false} ClearingGoesOn(p: string, m: Machine, i: nat)
    requires Sane(m) && i + 3 <= |p| && p[i..i + 3] == "[-]" && m.pc == i + 1 && m.tape[m.ptr] > 0
    ensures Steps(p, m, 2 * m.tape[m.ptr]) == Running(m.(pc := i + 3, tape := m.tape[m.ptr := 0]))
    decreases m.tape[m.ptr]
  {
    hide Step, Match;
    ClosesNext(p, i);
    var v := m.tape[m.ptr];
    CountingWraps(p, m);
    StepKeepsSane(p, m);
    var m1 := Step(p, m).m;
    BracketsJump(p, m1, i, i + 2);
    StepKeepsSane(p, m1);
    var m2 := Step(p, m1).m;
    assert Steps(p, m, 2) == Steps(p, m1, 1) == Step(p, m1) == Running(m2);
    if v > 1 {
      ClearingGoesOn(p, m2, i);
      StepsThen(p, m, 2, 2 * v - 2);
      assert m2.tape[m.ptr := 0] == m.tape[m.ptr := 0];
    }
  }

  /** `[-]` anywhere in a program sets the cell to zero, in two steps for each that it held
      and one more. */
  lemma TheClearingLoopClears(p: string, m: Machine, i: nat)
    requires Sane(m) && i + 3 <= |p| && p[i..i + 3] == "[-]" && m.pc == i
    ensures Steps(p, m, 1 + 2 * m.tape[m.ptr]) == Running(m.(pc := i + 3, tape := m.tape[m.ptr := 0]))
  {
    hide Step, Match;
    ClosesNext(p, i);
    BracketsJump(p, m, i, i + 2);
    StepKeepsSane(p, m);
    var m1 := Step(p, m).m;
    assert Steps(p, m, 1) == Step(p, m);
    StepsThen(p, m, 1, 2 * m.tape[m.ptr]);
    if m.tape[m.ptr] > 0 {
      ClearingGoesOn(p, m1, i);
    } else {
      assert m.tape[m.ptr := 0] == m.tape;
    }
  }
}
