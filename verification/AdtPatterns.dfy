/**
  A match without a constructor among its patterns keeps its patterns as they are written:
  exactly when a pattern can stand so.
 */
module AdtPatterns {
  import opened AdtLowering
  import opened AdtMeaning
  import opened AdtPreserved
  import opened AdtExact
  import opened Options

  /** A tree whose parts all belong to its tag, without conditional expressions. */
  predicate Strict(e: Exp)
    decreases e, 1
  {
    e.Exp? ==>
      && e.tag != "if_expr"
      && (e.tag in ["int", "bool", "string", "float", "ident"] ==> e.left.Hole? && e.right.Hole? && e.args == [])
      && (e.tag == "binop" ==> e.args == [])
      && (e.tag in ["unaryop", "field", "option"] ==> e.right.Hole? && e.args == [])
      && (e.tag in ["call", "struct_literal"] ==> e.left.Hole? && e.right.Hole?)
      && Strict(e.left) && Strict(e.right) && AllStrict(e.args)
  }

  predicate AllStrict(es: seq<Exp>)
    decreases es, 0
  {
    es != [] ==> Strict(es[0]) && AllStrict(es[1..])
  }

  /** The variables that are not called like a variant. */
  function Others(adts: seq<Adt>, vars: map<string, Value>): map<string, Value> {
    map x | x in vars && !IsVariant(adts, x) :: vars[x]
  }

  /** A source program never reads the rest. */
  lemma {:induction false} OthersSuffice(w: World, e: Exp, vars: map<string, Value>)
    requires Declared(w.adts) && w.source
    ensures Eval(w, e, Others(w.adts, vars)) == Eval(w, e, vars)
    decreases e, 1
  {
    hide Build, Outside, Operate, FieldOf;
    if e.Exp? {
      if e.tag in ["call", "struct_literal"] {
        AllOthersSuffice(w, e.args, vars);
      } else if e.tag == "binop" {
        OthersSuffice(w, e.left, vars);
        OthersSuffice(w, e.right, vars);
      } else if e.tag in ["unaryop", "field"] {
        OthersSuffice(w, e.left, vars);
      } else if e.tag == "if_expr" {
        OthersSuffice(w, e.left, vars);
        OthersSuffice(w, e.right, vars);
        if e.args != [] { OthersSuffice(w, e.args[0], vars); }
      } else if e.tag == "option" {
        OthersIfAny(w, e.left, vars);
      } else if IsOutside(e.tag) {
        OthersIfAny(w, e.left, vars);
        OthersIfAny(w, e.right, vars);
        AllOthersSuffice(w, e.args, vars);
      }
    }
  }

  lemma {:induction false} OthersIfAny(w: World, e: Exp, vars: map<string, Value>)
    requires Declared(w.adts) && w.source
    ensures EvalIfAny(w, e, Others(w.adts, vars)) == EvalIfAny(w, e, vars)
    decreases e, 2
  {
    hide Eval;
    if e.Exp? { OthersSuffice(w, e, vars); }
  }

  lemma {:induction false} AllOthersSuffice(w: World, es: seq<Exp>, vars: map<string, Value>)
    requires Declared(w.adts) && w.source
    ensures EvalAll(w, es, Others(w.adts, vars)) == EvalAll(w, es, vars)
    decreases es, 0
  {
    hide Eval;
    if es != [] {
      OthersSuffice(w, es[0], vars);
      AllOthersSuffice(w, es[1..], vars);
    }
  }

  /** No variable is called like a variant. */
  predicate Apart(adts: seq<Adt>, vars: map<string, Value>) {
    forall x :: x in vars ==> !IsVariant(adts, x)
  }

  /** Left as it is, a variant by itself has no value after lowering. */
  lemma {:induction false} UnsettledIsStuck(w: World, e: Exp, vars: map<string, Value>)
    requires Declared(w.adts) && !w.source && Apart(w.adts, vars) && Strict(e) && !Settled(w.adts, e)
    ensures Eval(w, e, vars) == None
    decreases e, 1
  {
    hide RunCtor, Outside, Operate, FieldOf;
    if e.tag in ["call", "struct_literal"] {
      UnsettledAmong(w, e.args, vars);
    } else if e.tag == "binop" {
      UnsettledPart(w, e.left, vars);
      UnsettledPart(w, e.right, vars);
    } else if e.tag in ["unaryop", "field"] {
      UnsettledPart(w, e.left, vars);
    } else if e.tag == "option" {
      UnsettledIfAny(w, e.left, vars);
    } else if IsOutside(e.tag) {
      UnsettledIfAny(w, e.left, vars);
      UnsettledIfAny(w, e.right, vars);
      if !AllSettled(w.adts, e.args) { UnsettledAmong(w, e.args, vars); }
    }
  }

  lemma {:induction false} UnsettledPart(w: World, e: Exp, vars: map<string, Value>)
    requires Declared(w.adts) && !w.source && Apart(w.adts, vars) && Strict(e)
    ensures Settled(w.adts, e) || Eval(w, e, vars) == None
    decreases e, 2
  {
    hide RunCtor, Outside, Operate, FieldOf, EvalAll, EvalIfAny;
    if !Settled(w.adts, e) { UnsettledIsStuck(w, e, vars); }
  }

  lemma {:induction false} UnsettledIfAny(w: World, e: Exp, vars: map<string, Value>)
    requires Declared(w.adts) && !w.source && Apart(w.adts, vars) && Strict(e)
    ensures Settled(w.adts, e) || EvalIfAny(w, e, vars) == None
    decreases e, 3
  {
    hide Eval;
    UnsettledPart(w, e, vars);
  }

  lemma {:induction false} UnsettledAmong(w: World, es: seq<Exp>, vars: map<string, Value>)
    requires Declared(w.adts) && !w.source && Apart(w.adts, vars) && AllStrict(es) && !AllSettled(w.adts, es)
    ensures EvalAll(w, es, vars) == None
    decreases es, 0
  {
    hide Eval;
    UnsettledPart(w, es[0], vars);
    if Settled(w.adts, es[0]) { UnsettledAmong(w, es[1..], vars); }
  }

  /** A pattern that means something keeps its meaning where it is not lowered, for all
      variables, exactly when no variant stands in it without parentheses. */
  lemma PatternsStayExactly(w: World, p: Exp, vars: map<string, Value>)
    requires Declared(w.adts) && w.source && Strict(p) && Eval(w, p, vars).Some?
    ensures (forall vs :: Eval(w, p, vs).Some? ==>
               Eval(Target(w), p, LoweredVars(w.adts, vs)) == Some(Lowered(w.adts, Eval(w, p, vs).value)))
            <==> Settled(w.adts, p)
  {
    hide Eval, Lowered, Strict, Settled;
    if Settled(w.adts, p) {
      forall vs | Eval(w, p, vs).Some?
        ensures Eval(Target(w), p, LoweredVars(w.adts, vs)) == Some(Lowered(w.adts, Eval(w, p, vs).value))
      {
        RawAgrees(w, p, vs);
      }
    } else {
      var others := Others(w.adts, vars);
      OthersSuffice(w, p, vars);
      UnsettledPart(Target(w), p, LoweredVars(w.adts, others));
    }
  }

  /** In this match the argument of the first pattern is left as a name that nothing has. */
  lemma AVariantInAPatternStaysAName(op: (string, int, int) -> Option<int>)
    ensures var w := World(TWO, op, (tag, text, vs) => Some(Int(1)), true);
            var s := Match(IntLit(1), [Call("f", [Ident("A")]), Hole], [Return(IntLit(1)), Return(IntLit(2))]);
            Declared(TWO) && Exec(w, s, NOTHING, 0) == Some(Returned(Int(1), []))
            && Exec(Target(w), LowerStm(TWO, s), LoweredState(TWO, NOTHING), 0) == None
  {
    hide FindVariant, FindLocal, LowerStm, Eval, EvalAll, MatchChain, Takes;
    var w := World(TWO, op, (tag, text, vs) => Some(Int(1)), true);
    var p := Call("f", [Ident("A")]);
    var s := Match(IntLit(1), [p, Hole], [Return(IntLit(1)), Return(IntLit(2))]);
    CallOfVariant(w, map[]);
    NoCtor(s);
    OneIsOne(w);
    OneIsOne(Target(w));
    MatchRuns(w, s, Int(1), NOTHING, 0);
    var t := LowerStm(TWO, s);
    MatchRuns(Target(w), t, Int(1), LoweredState(TWO, NOTHING), 0);
    assert Exec(w, s.bodies[0], NOTHING, 0) == Some(Returned(Int(1), []));
    assert Bound(w, p, Int(1), NOTHING) == Some(NOTHING) by { NoF(); }
  }

  lemma OneIsOne(w: World)
    requires Declared(w.adts)
    ensures Eval(w, IntLit(1), map[]) == Some(Int(1))
  {
  }

  lemma CallOfVariant(w: World, vars: map<string, Value>)
    requires w.adts == TWO && Declared(TWO) && w.source && vars == map[]
    requires forall tag, text, vs :: w.ext(tag, text, vs) == Some(Int(1))
    ensures Takes(w, Call("f", [Ident("A")]), Int(1), vars) == Some(true)
    ensures Takes(Target(w), Call("f", [Ident("A")]), Int(1), vars) == None
  {
    hide FindVariant, FindLocal;
    TwoVariants();
    NoF();
    var p := Call("f", [Ident("A")]);
    assert Build(TWO, "A", []) == Some(Con("A", []));
    EvalOne(w, Ident("A"), vars, Con("A", []));
    assert Eval(w, p, vars) == Outside(w, "call", "f", [Con("A", [])]);
    assert Eval(Target(w), Ident("A"), vars) == None;
    assert EvalAll(Target(w), [Ident("A")], vars) == None;
    assert Eval(Target(w), p, vars) == None;
  }

  lemma NoCtor(s: Stm)
    requires s == Match(IntLit(1), [Call("f", [Ident("A")]), Hole], [Return(IntLit(1)), Return(IntLit(2))])
    ensures Declared(TWO) && LowerStm(TWO, s).Stm? && LowerStm(TWO, s).tag == "match" && LowerStm(TWO, s).value == IntLit(1)
    ensures LowerStm(TWO, s).patterns == s.patterns && |LowerStm(TWO, s).bodies| == 2
  {
    NoF();
    assert s.patterns[0] == Call("f", [Ident("A")]) && s.patterns[1] == Hole;
    assert forall k :: 0 <= k < |s.patterns| ==> !IsCtor(TWO, s.patterns[k]);
  }

  lemma NoF()
    ensures !IsVariant(TWO, "f")
  {
    assert VariantFrom(TWO, "f", 1) == -1;
  }
}
