/**
  Which operators bind tighter: the precedence of expressions, with the operators of each
  level written out.
 */
module Precedence {
  import opened Syntax
  import opened Parsing
  import opened ParsingComplete

  /** From the loosest level to the tightest. */
  function Operators(level: nat): set<string> {
    match level
    case 1 => {"or"}
    case 2 => {"and"}
    case 3 => {"|"}
    case 4 => {"&"}
    case 5 => {"??"}
    case 6 => {"==", "!=", "<", "<=", ">", ">="}
    case 7 => {"<<", ">>"}
    case 8 => {"+", "-"}
    case 9 => {"*", "/", "%"}
    case _ => {}
  }

  predicate Operator(t: Token, level: nat) {
    t.text in Operators(level) && t.kind == if t.text in {"or", "and"} then Keyword else Symbol
  }

  /** A token that no expression goes on with. */
  predicate Ends(t: Token) {
    t.text !in {"[", ".", "(", "::", "{", "|>"} && forall level :: 1 <= level <= 9 ==> !Operator(t, level)
  }

  /** A literal, name, call, index, bracketed expression and the like, or one of these with
      prefix operators. */
  predicate Operand(c: Cst) {
    Fits(c) && Starts(c) && !c.Bin? && !c.Pipe?
  }

  /** The operands and the operators between them stand here. */
  predicate Spelled(ts: seq<Token>, pos: nat, a: Cst, p: Token, b: Cst) {
    var n := pos + Width(a);
    && Operand(a) && Operand(b) && Occurs(ts, pos, Tokens(a) + [p] + Tokens(b))
    && NotGeneric(ts, pos, a) && NotGeneric(ts, n + 1, b)
  }

  predicate SpelledOn(ts: seq<Token>, pos: nat, a: Cst, p: Token, b: Cst, q: Token, c: Cst) {
    && Spelled(ts, pos, a, p, b) && Operand(c)
    && Occurs(ts, pos, Tokens(a) + [p] + Tokens(b) + [q] + Tokens(c))
    && NotGeneric(ts, pos + Width(a) + 1 + Width(b) + 1, c)
  }

  lemma LevelIs(t: Token, level: nat)
    requires Operator(t, level)
    ensures OpLevel(t) == level && 1 <= level <= 9
  {
  }

  lemma EndsIs(t: Token)
    requires Ends(t)
    ensures Follow(t, 0)
  {
    if OpLevel(t) > 0 { assert !Operator(t, OpLevel(t)); }
  }

  lemma OperandLevel(c: Cst)
    requires Operand(c)
    ensures Level(c) >= UNARY
  {
    hide Fits, Starts;
  }

  lemma BinFits(p: Token, l: Cst, r: Cst, level: nat)
    requires Operator(p, level) && Fits(l) && Starts(l) && Fits(r) && Starts(r)
    requires Level(l) >= LeftLevel(level) && Level(r) >= RightLevel(level)
    ensures Fits(Bin(p, l, r)) && Starts(Bin(p, l, r)) && Level(Bin(p, l, r)) == level
  {
    LevelIs(p, level);
    assert !Bin(p, l, r).Borrow?;
  }

  /** An operand alone. */
  lemma OperandEnds(ts: seq<Token>, pos: nat, a: Cst)
    requires Operand(a) && Occurs(ts, pos, Tokens(a)) && NotGeneric(ts, pos, a) && Ends(At(ts, pos + Width(a)))
    ensures ParseExpression(ts, pos) == Ok(a, pos + Width(a))
  {
    hide Fits, Starts, Ends, NotGeneric, ParseExpression;
    EndsIs(At(ts, pos + Width(a)));
    ExpressionParses(ts, pos, a);
  }

  lemma Grouped(ts: seq<Token>, pos: nat, e: Cst)
    requires Fits(e) && Starts(e) && Occurs(ts, pos, Tokens(e)) && NotGeneric(ts, pos, e) && Ends(At(ts, pos + Width(e)))
    ensures ParseExpression(ts, pos) == Ok(e, pos + Width(e))
  {
    hide Fits, Starts, Ends, NotGeneric, ParseExpression;
    EndsIs(At(ts, pos + Width(e)));
    ExpressionParses(ts, pos, e);
  }

  /** The two readings of `a p b q c`. */
  function LeftFirst(a: Cst, p: Token, b: Cst, q: Token, c: Cst): Cst {
    Bin(q, Bin(p, a, b), c)
  }

  function RightFirst(a: Cst, p: Token, b: Cst, q: Token, c: Cst): Cst {
    Bin(p, a, Bin(q, b, c))
  }

  lemma BothAreSpelled(ts: seq<Token>, pos: nat, a: Cst, p: Token, b: Cst, q: Token, c: Cst)
    requires SpelledOn(ts, pos, a, p, b, q, c)
    ensures var (l, r) := (LeftFirst(a, p, b, q, c), RightFirst(a, p, b, q, c));
            && Occurs(ts, pos, Tokens(l)) && NotGeneric(ts, pos, l) && Occurs(ts, pos, Tokens(r)) && NotGeneric(ts, pos, r)
            && Width(l) == Width(r) == Width(a) + 1 + Width(b) + 1 + Width(c)
  {
    hide Fits, Starts, GenericCallAhead;
    var (x, y, z) := (Tokens(a), Tokens(b), Tokens(c));
    assert x + [p] + (y + [q] + z) == x + [p] + y + [q] + z;
  }

  /** After `a p b q c`: where the tokens end that are read. */
  function EndOf(pos: nat, a: Cst, b: Cst, c: Cst): nat {
    pos + Width(a) + 1 + Width(b) + 1 + Width(c)
  }

  /** Of two operators of different levels the one of the later level binds tighter, on
      either side. */
  lemma LaterLevelsBindTighter(ts: seq<Token>, pos: nat, a: Cst, p: Token, b: Cst, q: Token, c: Cst, i: nat, j: nat)
    requires SpelledOn(ts, pos, a, p, b, q, c) && Ends(At(ts, EndOf(pos, a, b, c)))
    requires Operator(p, i) && Operator(q, j) && i != j
    ensures ParseExpression(ts, pos)
            == Ok(if i < j then RightFirst(a, p, b, q, c) else LeftFirst(a, p, b, q, c), EndOf(pos, a, b, c))
  {
    hide Fits, Starts, Ends, NotGeneric, Level, Occurs, Operator, ParseExpression;
    Operands(ts, pos, a, p, b, q, c);
    BothAreSpelled(ts, pos, a, p, b, q, c);
    LevelIs(p, i);
    LevelIs(q, j);
    if i < j {
      BinFits(q, b, c, j);
      BinFits(p, a, Bin(q, b, c), i);
      Grouped(ts, pos, RightFirst(a, p, b, q, c));
    } else {
      BinFits(p, a, b, i);
      BinFits(q, Bin(p, a, b), c, j);
      Grouped(ts, pos, LeftFirst(a, p, b, q, c));
    }
  }

  lemma Operands(ts: seq<Token>, pos: nat, a: Cst, p: Token, b: Cst, q: Token, c: Cst)
    requires SpelledOn(ts, pos, a, p, b, q, c)
    ensures Fits(a) && Starts(a) && Level(a) >= UNARY && Fits(b) && Starts(b) && Level(b) >= UNARY
    ensures Fits(c) && Starts(c) && Level(c) >= UNARY
  {
    OperandLevel(a);
    OperandLevel(b);
    OperandLevel(c);
  }

  /** Two of one level group to the left, two `??` to the right. */
  lemma OneLevelGroups(ts: seq<Token>, pos: nat, a: Cst, p: Token, b: Cst, q: Token, c: Cst, i: nat)
    requires SpelledOn(ts, pos, a, p, b, q, c) && Ends(At(ts, EndOf(pos, a, b, c)))
    requires Operator(p, i) && Operator(q, i) && !(p.text in {"==", "!=", "<", "<=", ">", ">="})
    ensures ParseExpression(ts, pos)
            == Ok(if p.text == "??" then RightFirst(a, p, b, q, c) else LeftFirst(a, p, b, q, c), EndOf(pos, a, b, c))
  {
    hide Fits, Starts, Ends, NotGeneric, Level, Occurs, ParseExpression;
    Operands(ts, pos, a, p, b, q, c);
    BothAreSpelled(ts, pos, a, p, b, q, c);
    LevelIs(p, i);
    if p.text == "??" {
      BinFits(q, b, c, i);
      BinFits(p, a, Bin(q, b, c), i);
      Grouped(ts, pos, RightFirst(a, p, b, q, c));
    } else {
      BinFits(p, a, b, i);
      BinFits(q, Bin(p, a, b), c, i);
      Grouped(ts, pos, LeftFirst(a, p, b, q, c));
    }
  }

  /** Comparisons do not chain: the expression ends in front of the second. */
  lemma ComparisonsEnd(ts: seq<Token>, pos: nat, a: Cst, p: Token, b: Cst, q: Token)
    requires Spelled(ts, pos, a, p, b) && At(ts, pos + Width(a) + 1 + Width(b)) == q
    requires p.kind == q.kind == Symbol
    requires p.text in {"==", "!=", "<", "<=", ">", ">="} && q.text in {"==", "!=", "<", "<=", ">", ">="}
    ensures ParseExpression(ts, pos) == Ok(Bin(p, a, b), pos + Width(a) + 1 + Width(b))
  {
    hide Fits, Starts, NotGeneric, Level, Occurs, ParseBinary;
    var n := pos + Width(a);
    OperandLevel(a);
    OperandLevel(b);
    Split(ts, pos, Tokens(a) + [p], Tokens(b));
    Split(ts, pos, Tokens(a), [p]);
    One(ts, n, p);
    BinaryParses(ts, pos, a, COMPARE + 1);
    BinaryParses(ts, n + 1, b, COMPARE + 1);
    OneComparison(ts, pos, a, n, b, n + 1 + Width(b));
    LooserLevels(ts, pos, Bin(p, a, b), n + 1 + Width(b), 1);
  }

  lemma OneComparison(ts: seq<Token>, pos: nat, a: Cst, n: nat, b: Cst, m: nat)
    requires pos <= |ts| && n < |ts| && OpLevel(ts[n]) == COMPARE
    requires ParseBinary(ts, pos, COMPARE + 1) == Ok(a, n) && ParseBinary(ts, n + 1, COMPARE + 1) == Ok(b, m)
    ensures ParseBinary(ts, pos, COMPARE) == Ok(Bin(ts[n], a, b), m)
  {
    hide ParseUnary;
  }

  lemma {:induction false} LooserLevels(ts: seq<Token>, pos: nat, c: Cst, n: nat, lvl: nat)
    requires pos <= |ts| && 1 <= lvl <= COMPARE && n <= |ts| && OpLevel(At(ts, n)) == COMPARE
    requires ParseBinary(ts, pos, COMPARE) == Ok(c, n)
    ensures ParseBinary(ts, pos, lvl) == Ok(c, n)
    decreases COMPARE - lvl
  {
    if lvl < COMPARE { LooserLevels(ts, pos, c, n, lvl + 1); }
  }
}
