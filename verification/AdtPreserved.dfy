/**
  Lowering keeps what a program does, values of variants becoming records.
 */
module AdtPreserved {
  import opened AdtLowering
  import opened AdtMeaning
  import opened Options

  // ----- records -----

  lemma EvalFive(w: World, es: seq<Exp>, vars: map<string, Value>, vs: seq<Value>)
    requires Declared(w.adts) && |es| == 5 && |vs| == 5
    requires Eval(w, es[0], vars) == Some(vs[0]) && Eval(w, es[1], vars) == Some(vs[1]) && Eval(w, es[2], vars) == Some(vs[2])
    requires Eval(w, es[3], vars) == Some(vs[3]) && Eval(w, es[4], vars) == Some(vs[4])
    ensures EvalAll(w, es, vars) == Some(vs)
  {
    hide Eval;
    assert es[5..] == [] && vs[5..] == [];
    assert EvalAll(w, es[5..], vars) == Some(vs[5..]);
    assert es[4..][1..] == es[5..] && vs[4..] == [vs[4]] + vs[5..];
    assert EvalAll(w, es[4..], vars) == Some(vs[4..]);
    assert es[3..][1..] == es[4..] && vs[3..] == [vs[3]] + vs[4..];
    assert EvalAll(w, es[3..], vars) == Some(vs[3..]);
    assert es[2..][1..] == es[3..] && vs[2..] == [vs[2]] + vs[3..];
    assert EvalAll(w, es[2..], vars) == Some(vs[2..]);
    assert es[1..][1..] == es[2..] && vs[1..] == [vs[1]] + vs[2..];
    assert EvalAll(w, es[1..], vars) == Some(vs[1..]);
    assert vs == [vs[0]] + vs[1..];
  }

  lemma EvalFiveAtoms(es: seq<Exp>, vars: map<string, Value>, vs: seq<Value>)
    requires |es| == 5 && |vs| == 5
    requires EvalAtom(es[0], vars) == Some(vs[0]) && EvalAtom(es[1], vars) == Some(vs[1]) && EvalAtom(es[2], vars) == Some(vs[2])
    requires EvalAtom(es[3], vars) == Some(vs[3]) && EvalAtom(es[4], vars) == Some(vs[4])
    ensures EvalAtoms(es, vars) == Some(vs)
  {
    hide EvalAtom;
    assert es[5..] == [] && vs[5..] == [];
    assert EvalAtoms(es[5..], vars) == Some(vs[5..]);
    assert es[4..][1..] == es[5..] && vs[4..] == [vs[4]] + vs[5..];
    assert EvalAtoms(es[4..], vars) == Some(vs[4..]);
    assert es[3..][1..] == es[4..] && vs[3..] == [vs[3]] + vs[4..];
    assert EvalAtoms(es[3..], vars) == Some(vs[3..]);
    assert es[2..][1..] == es[3..] && vs[2..] == [vs[2]] + vs[3..];
    assert EvalAtoms(es[2..], vars) == Some(vs[2..]);
    assert es[1..][1..] == es[2..] && vs[1..] == [vs[1]] + vs[2..];
    assert EvalAtoms(es[1..], vars) == Some(vs[1..]);
    assert vs == [vs[0]] + vs[1..];
  }

  /** A record of lanes is the record of their values. */
  lemma LanesEvaluate(w: World, ty: string, local: int, lane: string, e: Exp, v: Value, vars: map<string, Value>)
    requires Declared(w.adts) && !w.source
    requires lane in LANES ==> Eval(w, e, vars) == Some(v)
    ensures Eval(w, Record(ty, LANES, Lanes(local, lane, e)), vars) == Some(Rec(LANES, LaneValues(local, lane, v)))
  {
    EvalFive(w, Lanes(local, lane, e), vars, LaneValues(local, lane, v));
  }

  lemma PayloadLane(ty: string)
    ensures PayloadField(ty) in LANES && PayloadField(ty) != "tag"
  {
  }

  lemma LaneRead(local: int, lane: string, v: Value)
    requires lane in LANES ==> lane != "tag"
    ensures FieldOf(Rec(LANES, LaneValues(local, lane, v)), "tag") == Some(Int(local))
    ensures lane in LANES ==> FieldOf(Rec(LANES, LaneValues(local, lane, v)), lane) == Some(v)
  {
    assert LANES[0] == "tag";
    assert IndexFrom(LANES, "tag", 0) == 0;
    if lane in LANES { LaneFound(lane); }
  }

  lemma LaneFound(lane: string)
    requires lane in LANES
    ensures var i := IndexFrom(LANES, lane, 0); 0 <= i < 5 && LANES[i] == lane
  {
    assert LANES[0..] == LANES;
  }

  lemma LanesOfCtor(local: int, lane: string, v: Value, vars: map<string, Value>)
    requires lane in LANES ==> "value" in vars && vars["value"] == v
    ensures EvalAtoms(Lanes(local, lane, Ident("value")), vars) == Some(LaneValues(local, lane, v))
  {
    EvalFiveAtoms(Lanes(local, lane, Ident("value")), vars, LaneValues(local, lane, v));
  }

  /** The function of a variant makes the record of the value. */
  lemma CtorMakesRecord(adts: seq<Adt>, name: string, args: seq<Value>)
    requires Declared(adts) && IsVariant(adts, name) && Build(adts, name, args).Some?
    ensures RunCtor(adts, name, LoweredAll(adts, args)) == Some(Lowered(adts, Build(adts, name, args).value))
  {
    hide EvalAtoms, LaneValues, Lanes, FitsLane, FindLocal, FindVariant, PayloadField;
    var ty := PayloadOf(adts, name);
    var local := FindLocal(adts, name);
    if ty == "" {
      LanesOfCtor(local, "", Int(0), map[]);
    } else {
      var v := Lowered(adts, args[0]);
      LanesOfCtor(local, PayloadField(ty), v, map["value" := v]);
    }
  }

  // ----- expressions -----

  lemma VarsLowered(adts: seq<Adt>, vars: map<string, Value>, x: string, v: Value)
    requires Declared(adts)
    ensures LoweredVars(adts, vars[x := v]) == LoweredVars(adts, vars)[x := Lowered(adts, v)]
  {
  }

  lemma BuildOfNothing(adts: seq<Adt>, name: string)
    requires Declared(adts) && IsVariant(adts, name) && Build(adts, name, []).Some?
    ensures PayloadOf(adts, name) == ""
  {
  }

  lemma AllLowered(adts: seq<Adt>, a: seq<Value>, b: seq<Value>)
    requires Declared(adts)
    ensures LoweredAll(adts, a + b) == LoweredAll(adts, a) + LoweredAll(adts, b)
  {
  }

  /** What is left open has the lowered value for the lowered operands. */
  lemma OutsideLowered(w: World, tag: string, text: string, vs: seq<Value>)
    requires Declared(w.adts) && w.source && Outside(w, tag, text, vs).Some?
    ensures Outside(Target(w), tag, text, LoweredAll(w.adts, vs)) == Some(Lowered(w.adts, Outside(w, tag, text, vs).value))
  {
    hide Lowered, LoweredAll;
  }

  lemma FieldLowered(adts: seq<Adt>, v: Value, name: string)
    requires Declared(adts) && FieldOf(v, name).Some?
    ensures FieldOf(Lowered(adts, v), name) == Some(Lowered(adts, FieldOf(v, name).value))
  {
  }

  /** A lowered expression has the lowered value. */
  lemma {:induction false} ExpLowered(w: World, e: Exp, vars: map<string, Value>)
    requires Declared(w.adts) && w.source && Eval(w, e, vars).Some?
    ensures Eval(Target(w), LowerExp(w.adts, e), LoweredVars(w.adts, vars)) == Some(Lowered(w.adts, Eval(w, e, vars).value))
    decreases e, 1
  {
    hide RunCtor, Build, Operate, Outside, FieldOf, Lowered, LoweredAll;
    if e.tag == "ident" && IsVariant(w.adts, e.text) {
      BuildOfNothing(w.adts, e.text);
      CtorMakesRecord(w.adts, e.text, []);
      NoneLowered(w.adts);
    } else if e.tag in ["call", "struct_literal"] {
      CallLowered(w, e, vars);
    } else if e.tag == "binop" {
      ExpLowered(w, e.left, vars);
      ExpLowered(w, e.right, vars);
      OperateLowered(w, e.text, Eval(w, e.left, vars).value, Eval(w, e.right, vars).value);
    } else if e.tag == "unaryop" {
      ExpLowered(w, e.left, vars);
      OperateLowered(w, e.text, Int(0), Eval(w, e.left, vars).value);
    } else if e.tag == "field" {
      ExpLowered(w, e.left, vars);
      FieldLowered(w.adts, Eval(w, e.left, vars).value, e.text);
    } else if e.tag == "if_expr" {
      ChoiceLowered(w, e, vars);
    } else if e.tag == "option" {
      IfAnyLowered(w, e.left, vars);
      OutsideLowered(w, "option", "", EvalIfAny(w, e.left, vars).value);
    } else if IsOutside(e.tag) {
      OpenLowered(w, e, vars);
    } else {
      AtomLowered(w, e, vars);
    }
  }

  lemma NoneLowered(adts: seq<Adt>)
    requires Declared(adts)
    ensures LoweredAll(adts, []) == []
  {
  }

  lemma OneLowered(adts: seq<Adt>, v: Value)
    requires Declared(adts)
    ensures LoweredAll(adts, [v]) == [Lowered(adts, v)]
  {
  }

  lemma AtomLowered(w: World, e: Exp, vars: map<string, Value>)
    requires Declared(w.adts) && EvalAtom(e, vars).Some?
    ensures EvalAtom(e, LoweredVars(w.adts, vars)) == Some(Lowered(w.adts, EvalAtom(e, vars).value))
  {
  }

  /** A call, to a constructor or another function, and a record. */
  lemma {:induction false} CallLowered(w: World, e: Exp, vars: map<string, Value>)
    requires Declared(w.adts) && w.source && e.Exp? && e.tag in ["call", "struct_literal"] && Eval(w, e, vars).Some?
    ensures Eval(Target(w), LowerExp(w.adts, e), LoweredVars(w.adts, vars)) == Some(Lowered(w.adts, Eval(w, e, vars).value))
    decreases e, 0
  {
    hide RunCtor, Build, Outside, LoweredAll, AdtRecord, LoweredVars;
    ExpsLowered(w, e.args, vars);
    if e.tag == "struct_literal" {
      assert !IsOutside(e.tag);
    } else if IsVariant(w.adts, e.text) {
      RecordInPlace(w, e, vars, TypeOf(w.adts, e.text));
    } else {
      OutsideLowered(w, "call", e.text, EvalAll(w, e.args, vars).value);
    }
  }

  /** A conditional expression: the same branch is taken. */
  lemma {:induction false} ChoiceLowered(w: World, e: Exp, vars: map<string, Value>)
    requires Declared(w.adts) && w.source && HasTag(e, "if_expr") && Eval(w, e, vars).Some?
    ensures Eval(Target(w), LowerExp(w.adts, e), LoweredVars(w.adts, vars)) == Some(Lowered(w.adts, Eval(w, e, vars).value))
    decreases e, 0
  {
    hide LoweredAll, LoweredVars, Outside, FieldOf, Operate, Build, RunCtor;
    ExpLowered(w, e.left, vars);
    NumbersStay(w.adts);
    if Eval(w, e.left, vars).value.n != 0 {
      ExpLowered(w, e.right, vars);
    } else {
      ExpLowered(w, e.args[0], vars);
    }
  }

  /** An expression whose meaning is left open: its operands stay where they are. */
  lemma {:induction false} OpenLowered(w: World, e: Exp, vars: map<string, Value>)
    requires Declared(w.adts) && w.source && e.Exp? && IsOutside(e.tag) && Eval(w, e, vars).Some?
    ensures Eval(Target(w), LowerExp(w.adts, e), LoweredVars(w.adts, vars)) == Some(Lowered(w.adts, Eval(w, e, vars).value))
    decreases e, 0
  {
    hide LoweredAll, LoweredVars, Outside, Lowered;
    IfAnyLowered(w, e.left, vars);
    IfAnyLowered(w, e.right, vars);
    ExpsLowered(w, e.args, vars);
    var l, r, vs := EvalIfAny(w, e.left, vars).value, EvalIfAny(w, e.right, vars).value, EvalAll(w, e.args, vars).value;
    AllLowered(w.adts, l, r);
    AllLowered(w.adts, l + r, vs);
    OutsideLowered(w, e.tag, e.text, l + r + vs);
  }

  lemma {:induction false} IfAnyLowered(w: World, e: Exp, vars: map<string, Value>)
    requires Declared(w.adts) && w.source && EvalIfAny(w, e, vars).Some?
    ensures EvalIfAny(Target(w), LowerExp(w.adts, e), LoweredVars(w.adts, vars))
            == Some(LoweredAll(w.adts, EvalIfAny(w, e, vars).value))
    decreases e, 2
  {
    hide Eval;
    LoweredIsNone(w.adts, e);
    if e.Hole? {
      NoneLowered(w.adts);
    } else {
      ExpLowered(w, e, vars);
      OneLowered(w.adts, Eval(w, e, vars).value);
    }
  }

  lemma LoweredIsNone(adts: seq<Adt>, e: Exp)
    requires Declared(adts)
    ensures LowerExp(adts, e).Hole? <==> e.Hole?
  {
  }

  function TypeOf(adts: seq<Adt>, variant: string): string {
    var d := FindVariant(adts, variant);
    if d < 0 then "" else adts[d].name
  }

  lemma OperateLowered(w: World, op: string, a: Value, b: Value)
    requires Declared(w.adts) && Operate(w, op, a, b).Some?
    ensures Lowered(w.adts, a) == a && Lowered(w.adts, b) == b
    ensures Operate(Target(w), op, a, b) == Operate(w, op, a, b)
    ensures Lowered(w.adts, Operate(w, op, a, b).value) == Operate(w, op, a, b).value
    ensures (a.Int? && b.Int?) || (a.Str? && b.Str?)
  {
  }

  lemma {:induction false} ExpsLowered(w: World, es: seq<Exp>, vars: map<string, Value>)
    requires Declared(w.adts) && w.source && EvalAll(w, es, vars).Some?
    ensures EvalAll(Target(w), LowerExps(w.adts, es), LoweredVars(w.adts, vars))
            == Some(LoweredAll(w.adts, EvalAll(w, es, vars).value))
    decreases es, 0
  {
    if es != [] {
      ExpLowered(w, es[0], vars);
      ExpsLowered(w, es[1..], vars);
      var v, vs := Eval(w, es[0], vars).value, EvalAll(w, es[1..], vars).value;
      assert LoweredAll(w.adts, [v] + vs) == [Lowered(w.adts, v)] + LoweredAll(w.adts, vs);
    } else {
      assert LoweredAll(w.adts, []) == [];
    }
  }

  /** A constructor written in place, under whatever type is expected. */
  lemma RecordInPlace(w: World, e: Exp, vars: map<string, Value>, expected: string)
    requires Declared(w.adts) && w.source && HasTag(e, "call") && IsVariant(w.adts, e.text) && Eval(w, e, vars).Some?
    requires EvalAll(w, e.args, vars).Some? ==>
               EvalAll(Target(w), LowerExps(w.adts, e.args), LoweredVars(w.adts, vars))
               == Some(LoweredAll(w.adts, EvalAll(w, e.args, vars).value))
    ensures Eval(Target(w), AdtRecord(w.adts, e.text, LowerExps(w.adts, e.args), expected), LoweredVars(w.adts, vars))
            == Some(Lowered(w.adts, Eval(w, e, vars).value))
  {
    hide Eval, EvalAll, LowerExps, LoweredVars, LaneValues, Lanes, TypeBase, FindVariant, FindLocal;
    CtorCalled(w, e, vars);
    var vs := EvalAll(w, e.args, vars).value;
    var ty := PayloadOf(w.adts, e.text);
    OneEach(w, e.args, vars);
    if ty == "" {
      LanesEvaluate(Target(w), TypeBase(expected), FindLocal(w.adts, e.text), "", Hole, Int(0), LoweredVars(w.adts, vars));
    } else {
      PayloadLane(ty);
      OneEach(Target(w), LowerExps(w.adts, e.args), LoweredVars(w.adts, vars));
      LanesEvaluate(Target(w), TypeBase(expected), FindLocal(w.adts, e.text), PayloadField(ty), LowerExps(w.adts, e.args)[0],
                    Lowered(w.adts, vs[0]), LoweredVars(w.adts, vars));
    }
  }

  lemma CtorCalled(w: World, e: Exp, vars: map<string, Value>)
    requires Declared(w.adts) && w.source && HasTag(e, "call") && IsVariant(w.adts, e.text) && Eval(w, e, vars).Some?
    ensures EvalAll(w, e.args, vars).Some? && Eval(w, e, vars) == Build(w.adts, e.text, EvalAll(w, e.args, vars).value)
  {
    hide Build, FindVariant;
  }

  lemma OneEach(w: World, es: seq<Exp>, vars: map<string, Value>)
    requires Declared(w.adts) && EvalAll(w, es, vars).Some?
    ensures es == [] <==> EvalAll(w, es, vars).value == []
    ensures es != [] ==> Eval(w, es[0], vars) == Some(EvalAll(w, es, vars).value[0])
  {
  }

  lemma NullaryInPlace(w: World, e: Exp, vars: map<string, Value>, expected: string)
    requires Declared(w.adts) && w.source && HasTag(e, "ident") && IsVariant(w.adts, e.text) && Eval(w, e, vars).Some?
    ensures Eval(Target(w), AdtRecord(w.adts, e.text, [], expected), LoweredVars(w.adts, vars))
            == Some(Lowered(w.adts, Eval(w, e, vars).value))
  {
    LanesEvaluate(Target(w), TypeBase(expected), FindLocal(w.adts, e.text), "", Hole, Int(0), LoweredVars(w.adts, vars));
  }

  lemma ExpectedLowered(w: World, e: Exp, expected: string, vars: map<string, Value>)
    requires Declared(w.adts) && w.source && Eval(w, e, vars).Some?
    ensures Eval(Target(w), LowerExpected(w.adts, e, expected), LoweredVars(w.adts, vars))
            == Some(Lowered(w.adts, Eval(w, e, vars).value))
  {
    hide Eval, EvalAll, AdtRecord, LowerExp, LowerExps;
    if e.Exp? && expected != "" && e.tag == "call" && IsVariant(w.adts, e.text) {
      ArgsLowered(w, e, vars);
      RecordInPlace(w, e, vars, expected);
    } else if e.Exp? && expected != "" && e.tag == "ident" && IsVariant(w.adts, e.text) {
      NullaryInPlace(w, e, vars, expected);
    } else {
      ExpLowered(w, e, vars);
    }
  }

  lemma ArgsLowered(w: World, e: Exp, vars: map<string, Value>)
    requires Declared(w.adts) && w.source && HasTag(e, "call") && Eval(w, e, vars).Some?
    ensures EvalAll(w, e.args, vars).Some?
    ensures EvalAll(Target(w), LowerExps(w.adts, e.args), LoweredVars(w.adts, vars))
            == Some(LoweredAll(w.adts, EvalAll(w, e.args, vars).value))
  {
    ExpsLowered(w, e.args, vars);
  }

  /** An expression without variants that stand by themselves need not be lowered. */
  lemma {:induction false} RawAgrees(w: World, e: Exp, vars: map<string, Value>)
    requires Declared(w.adts) && w.source && Settled(w.adts, e) && Eval(w, e, vars).Some?
    ensures Eval(Target(w), e, LoweredVars(w.adts, vars)) == Some(Lowered(w.adts, Eval(w, e, vars).value))
    decreases e, 1
  {
    hide RunCtor, Build, Operate, Outside, FieldOf, Lowered, LoweredAll;
    if e.tag == "call" {
      RawCallAgrees(w, e, vars);
    } else if e.tag == "struct_literal" {
      RawAllAgree(w, e.args, vars);
      RecordLowered(w.adts, e.names, EvalAll(w, e.args, vars).value);
    } else if e.tag == "binop" {
      RawAgrees(w, e.left, vars);
      RawAgrees(w, e.right, vars);
      OperateLowered(w, e.text, Eval(w, e.left, vars).value, Eval(w, e.right, vars).value);
    } else if e.tag == "unaryop" {
      RawAgrees(w, e.left, vars);
      OperateLowered(w, e.text, Int(0), Eval(w, e.left, vars).value);
    } else if e.tag == "field" {
      RawAgrees(w, e.left, vars);
      FieldLowered(w.adts, Eval(w, e.left, vars).value, e.text);
    } else if e.tag == "if_expr" {
      RawAgrees(w, e.left, vars);
      NumbersStay(w.adts);
      if Eval(w, e.left, vars).value.n != 0 { RawAgrees(w, e.right, vars); } else { RawAgrees(w, e.args[0], vars); }
    } else if e.tag == "option" {
      RawIfAny(w, e.left, vars);
      OutsideLowered(w, "option", "", EvalIfAny(w, e.left, vars).value);
    } else if IsOutside(e.tag) {
      RawOpenAgrees(w, e, vars);
    } else {
      AtomLowered(w, e, vars);
    }
  }

  lemma RecordLowered(adts: seq<Adt>, names: seq<string>, vs: seq<Value>)
    requires Declared(adts)
    ensures Lowered(adts, Rec(names, vs)) == Rec(names, LoweredAll(adts, vs))
  {
  }

  lemma {:induction false} RawCallAgrees(w: World, e: Exp, vars: map<string, Value>)
    requires Declared(w.adts) && w.source && Settled(w.adts, e) && HasTag(e, "call") && Eval(w, e, vars).Some?
    ensures Eval(Target(w), e, LoweredVars(w.adts, vars)) == Some(Lowered(w.adts, Eval(w, e, vars).value))
    decreases e, 0
  {
    hide RunCtor, Build, Outside, Lowered, LoweredAll;
    RawAllAgree(w, e.args, vars);
    var vs := EvalAll(w, e.args, vars).value;
    if IsVariant(w.adts, e.text) { CtorMakesRecord(w.adts, e.text, vs); } else { OutsideLowered(w, "call", e.text, vs); }
  }

  lemma {:induction false} RawOpenAgrees(w: World, e: Exp, vars: map<string, Value>)
    requires Declared(w.adts) && w.source && Settled(w.adts, e) && e.Exp? && IsOutside(e.tag) && Eval(w, e, vars).Some?
    ensures Eval(Target(w), e, LoweredVars(w.adts, vars)) == Some(Lowered(w.adts, Eval(w, e, vars).value))
    decreases e, 0
  {
    hide LoweredAll, LoweredVars, Outside, Lowered;
    RawIfAny(w, e.left, vars);
    RawIfAny(w, e.right, vars);
    RawAllAgree(w, e.args, vars);
    var l, r, vs := EvalIfAny(w, e.left, vars).value, EvalIfAny(w, e.right, vars).value, EvalAll(w, e.args, vars).value;
    AllLowered(w.adts, l, r);
    AllLowered(w.adts, l + r, vs);
    OutsideLowered(w, e.tag, e.text, l + r + vs);
  }

  lemma {:induction false} RawIfAny(w: World, e: Exp, vars: map<string, Value>)
    requires Declared(w.adts) && w.source && Settled(w.adts, e) && EvalIfAny(w, e, vars).Some?
    ensures EvalIfAny(Target(w), e, LoweredVars(w.adts, vars)) == Some(LoweredAll(w.adts, EvalIfAny(w, e, vars).value))
    decreases e, 2
  {
    hide Eval;
    if e.Hole? {
      NoneLowered(w.adts);
    } else {
      RawAgrees(w, e, vars);
      OneLowered(w.adts, Eval(w, e, vars).value);
    }
  }

  lemma {:induction false} RawAllAgree(w: World, es: seq<Exp>, vars: map<string, Value>)
    requires Declared(w.adts) && w.source && AllSettled(w.adts, es) && EvalAll(w, es, vars).Some?
    ensures EvalAll(Target(w), es, LoweredVars(w.adts, vars)) == Some(LoweredAll(w.adts, EvalAll(w, es, vars).value))
    decreases es, 0
  {
    hide Eval, Lowered;
    if es != [] {
      RawAgrees(w, es[0], vars);
      RawAllAgree(w, es[1..], vars);
      var v, vs := Eval(w, es[0], vars).value, EvalAll(w, es[1..], vars).value;
      OneLowered(w.adts, v);
      AllLowered(w.adts, [v], vs);
    } else {
      NoneLowered(w.adts);
    }
  }

  // ----- statements -----

  lemma PrintedLowered(adts: seq<Adt>, vs: seq<Value>, v: Value)
    requires Declared(adts)
    ensures LoweredAll(adts, vs + [v]) == LoweredAll(adts, vs) + [Lowered(adts, v)]
  {
  }

  ghost predicate Agrees(w: World, s: Stm, t: Stm, st: State, fuel: nat)
    requires Declared(w.adts)
  {
    Exec(w, s, st, fuel).Some? ==>
      Exec(Target(w), t, LoweredState(w.adts, st), fuel) == Some(LoweredOutcome(w.adts, Exec(w, s, st, fuel).value))
  }

  /** A statement that runs to an outcome runs, lowered, to the lowered outcome. */
  lemma {:induction false} StmLowered(w: World, s: Stm, st: State, fuel: nat)
    requires Declared(w.adts) && w.source && Lowerable(w.adts, s)
    ensures Agrees(w, s, LowerStm(w.adts, s), st, fuel)
    decreases fuel, s, 2
  {
    hide Eval, LowerExp, LowerExpected, LoweredVars, LoweredAll, Lowered, MatchChain, ExecArms, DeclaredType;
    if s.Stm? && Exec(w, s, st, fuel).Some? {
      match s.tag
      case "return_expr" => ExpLowered(w, s.value, st.vars);
      case "let" =>
        ExpectedLowered(w, s.assign, DeclaredType(w.adts, s.assign, s.ty), st.vars);
        VarsLowered(w.adts, st.vars, s.name, Eval(w, s.assign, st.vars).value);
      case "assign" =>
        ExpLowered(w, s.assign, st.vars);
        VarsLowered(w.adts, st.vars, s.name, Eval(w, s.assign, st.vars).value);
        VarsKept(w.adts, st.vars, s.name);
      case "expr" => ExpLowered(w, s.value, st.vars);
      case "print" =>
        ExpLowered(w, s.value, st.vars);
        PrintedLowered(w.adts, st.printed, Eval(w, s.value, st.vars).value);
      case "block" => StmsLowered(w, s.stmts, st, fuel);
      case "if" =>
        ExpLowered(w, s.value, st.vars);
        NumbersStay(w.adts);
        StmLowered(w, s.body, st, fuel);
        StmLowered(w, s.els, st, fuel);
      case "while" => WhileLowered(w, s, st, fuel);
      case "for_range" => ForLowered(w, s, st, fuel);
      case "match" => MatchLowered(w, s, st, fuel);
      case _ => {}
    }
  }

  lemma VarsKept(adts: seq<Adt>, vars: map<string, Value>, x: string)
    requires Declared(adts)
    ensures x in LoweredVars(adts, vars) <==> x in vars
  {
  }

  lemma NumbersStay(adts: seq<Adt>)
    requires Declared(adts)
    ensures forall n :: Lowered(adts, Int(n)) == Int(n)
  {
  }

  lemma {:induction false} StmsLowered(w: World, ss: seq<Stm>, st: State, fuel: nat)
    requires Declared(w.adts) && w.source && AllLowerable(w.adts, ss)
    ensures ExecAll(w, ss, st, fuel).Some? ==>
              ExecAll(Target(w), LowerStms(w.adts, ss), LoweredState(w.adts, st), fuel)
              == Some(LoweredOutcome(w.adts, ExecAll(w, ss, st, fuel).value))
    decreases fuel, ss, 0
  {
    hide Exec, LowerStm, LoweredState, Lowerable;
    if ss != [] && ExecAll(w, ss, st, fuel).Some? {
      StmLowered(w, ss[0], st, fuel);
      var o := Exec(w, ss[0], st, fuel).value;
      assert LowerStms(w.adts, ss)[1..] == LowerStms(w.adts, ss[1..]);
      if o.Next? { StmsLowered(w, ss[1..], o.st, fuel); }
    }
  }

  lemma {:induction false} WhileLowered(w: World, s: Stm, st: State, fuel: nat)
    requires Declared(w.adts) && w.source && Lowerable(w.adts, s) && s.Stm? && s.tag == "while"
    ensures Agrees(w, s, LowerStm(w.adts, s), st, fuel)
    decreases fuel, s, 1
  {
    hide Eval, LowerExp, LoweredState, Lowered;
    if Exec(w, s, st, fuel).Some? {
      VarsOfState(w.adts, st);
      ExpLowered(w, s.value, st.vars);
      NumbersStay(w.adts);
      if Eval(w, s.value, st.vars).value.n != 0 {
        StmLowered(w, s.body, st, fuel);
        var o := Exec(w, s.body, st, fuel).value;
        if (o.Next? || o.Continued?) && fuel > 0 { WhileLowered(w, s, o.st, fuel - 1); }
      }
    }
  }

  /** A range loop runs from the same number to the same number. */
  lemma {:induction false} ForLowered(w: World, s: Stm, st: State, fuel: nat)
    requires Declared(w.adts) && w.source && Lowerable(w.adts, s) && s.Stm? && s.tag == "for_range"
    ensures Agrees(w, s, LowerStm(w.adts, s), st, fuel)
    decreases fuel, s, 1
  {
    hide Eval, LowerExp, Lowered, ExecRange, LoweredVars, LoweredAll;
    if Exec(w, s, st, fuel).Some? {
      VarsOfState(w.adts, st);
      ExpLowered(w, s.value, st.vars);
      ExpLowered(w, s.assign, st.vars);
      NumbersStay(w.adts);
      var from, to := Eval(w, s.value, st.vars).value, Eval(w, s.assign, st.vars).value;
      VarsLowered(w.adts, st.vars, s.name, from);
      RangeLowered(w, s, to.n, st.(vars := st.vars[s.name := from]), fuel);
    }
  }

  lemma {:induction false} RangeLowered(w: World, s: Stm, to: int, st: State, fuel: nat)
    requires Declared(w.adts) && w.source && Lowerable(w.adts, s) && s.Stm? && s.tag == "for_range"
    ensures ExecRange(w, s, to, st, fuel).Some? ==>
              ExecRange(Target(w), LowerStm(w.adts, s), to, LoweredState(w.adts, st), fuel)
              == Some(LoweredOutcome(w.adts, ExecRange(w, s, to, st, fuel).value))
    decreases fuel, s, 0
  {
    hide Eval, LowerExp, Lowered, LoweredVars, LoweredAll, Exec;
    if ExecRange(w, s, to, st, fuel).Some? {
      VarRead(w.adts, st, s.name);
      if st.vars[s.name].n < to {
        StmLowered(w, s.body, st, fuel);
        var o := Exec(w, s.body, st, fuel).value;
        if (o.Next? || o.Continued?) && fuel > 0 {
          VarRead(w.adts, o.st, s.name);
          var next := Int(Counted(o.st.vars[s.name].n));
          NumbersStay(w.adts);
          VarsLowered(w.adts, o.st.vars, s.name, next);
          RangeLowered(w, s, to, o.st.(vars := o.st.vars[s.name := next]), fuel - 1);
        }
      }
    }
  }

  lemma VarRead(adts: seq<Adt>, st: State, x: string)
    requires Declared(adts) && x in st.vars && st.vars[x].Int?
    ensures x in LoweredState(adts, st).vars && LoweredState(adts, st).vars[x] == st.vars[x]
  {
  }

  lemma VarsOfState(adts: seq<Adt>, st: State)
    requires Declared(adts)
    ensures LoweredState(adts, st).vars == LoweredVars(adts, st.vars)
  {
  }

  lemma {:induction false} MatchLowered(w: World, s: Stm, st: State, fuel: nat)
    requires Declared(w.adts) && w.source && Lowerable(w.adts, s) && s.Stm? && s.tag == "match"
    ensures Agrees(w, s, LowerStm(w.adts, s), st, fuel)
    decreases fuel, s, 1
  {
    hide Eval, LowerExp, LoweredState, Lowered, ExecArms, MatchChain;
    if Exec(w, s, st, fuel).Some? {
      VarsOfState(w.adts, st);
      ExpLowered(w, s.value, st.vars);
      var v, subject := Eval(w, s.value, st.vars).value, LowerExp(w.adts, s.value);
      if exists k :: 0 <= k < |s.patterns| && IsCtor(w.adts, s.patterns[k]) {
        ChainLowered(w, subject, v, s.patterns, s.bodies, 0, st, fuel);
      } else {
        ArmsLowered(w, v, s.patterns, s.bodies, 0, st, fuel);
      }
    }
  }

  lemma {:induction false} LowerableAt(adts: seq<Adt>, ss: seq<Stm>, k: nat)
    requires Declared(adts) && AllLowerable(adts, ss) && k < |ss|
    ensures Lowerable(adts, ss[k]) && LowerStms(adts, ss)[k] == LowerStm(adts, ss[k])
  {
    if k > 0 {
      LowerableAt(adts, ss[1..], k - 1);
      assert LowerStms(adts, ss)[k] == LowerStms(adts, ss[1..])[k - 1];
    }
  }

  /** Comparing a value with what a pattern stands for. */
  lemma ComparedLowered(w: World, p: Exp, v: Value, st: State)
    requires Declared(w.adts) && w.source && Settled(w.adts, p) && !p.Hole? && !IsCtor(w.adts, p) && Takes(w, p, v, st.vars).Some?
    ensures Eval(w, p, st.vars).Some? && Operate(w, "==", v, Eval(w, p, st.vars).value).Some?
    ensures Takes(Target(w), p, Lowered(w.adts, v), LoweredVars(w.adts, st.vars)) == Takes(w, p, v, st.vars)
  {
    hide Eval;
    OperateLowered(w, "==", v, Eval(w, p, st.vars).value);
    RawAgrees(w, p, st.vars);
  }

  lemma {:induction false} ArmsLowered(w: World, v: Value, patterns: seq<Exp>, bodies: seq<Stm>, k: nat, st: State, fuel: nat)
    requires Declared(w.adts) && w.source && AllLowerable(w.adts, bodies)
    requires forall i :: 0 <= i < |patterns| ==> !IsCtor(w.adts, patterns[i]) && Settled(w.adts, patterns[i])
    ensures ExecArms(w, v, patterns, bodies, k, st, fuel).Some? ==>
              ExecArms(Target(w), Lowered(w.adts, v), patterns, LowerStms(w.adts, bodies), k, LoweredState(w.adts, st), fuel)
              == Some(LoweredOutcome(w.adts, ExecArms(w, v, patterns, bodies, k, st, fuel).value))
    decreases fuel, bodies, 0, |bodies| - k
  {
    hide Exec, LowerStm, LowerStms, Lowered, Takes, LoweredState, Lowerable;
    if k < |patterns| && k < |bodies| && ExecArms(w, v, patterns, bodies, k, st, fuel).Some? {
      LowerableAt(w.adts, bodies, k);
      VarsOfState(w.adts, st);
      if patterns[k].Hole? { AlwaysTaken(w, v, st.vars); AlwaysTaken(Target(w), Lowered(w.adts, v), LoweredState(w.adts, st).vars); }
      else { ComparedLowered(w, patterns[k], v, st); }
      if Takes(w, patterns[k], v, st.vars).value {
        StmLowered(w, bodies[k], st, fuel);
      } else {
        ArmsLowered(w, v, patterns, bodies, k + 1, st, fuel);
      }
    }
  }

  lemma AlwaysTaken(w: World, v: Value, vars: map<string, Value>)
    requires Declared(w.adts)
    ensures Takes(w, Hole, v, vars) == Some(true)
  {
  }

  /** The body of an arm in a chain. */
  lemma {:induction false} BodyLowered(w: World, body: Stm, st: State, fuel: nat)
    requires Declared(w.adts) && w.source && Lowerable(w.adts, body) && !(body.Stm? && body.tag == "expr")
    ensures Agrees(w, body, ArmBody(w.adts, body), st, fuel)
    decreases fuel, body, 3
  {
    hide Exec, LowerStm, LoweredState;
    StmLowered(w, body, st, fuel);
  }

  /** The test that an arm with a variant is lowered to. */
  function TagTest(adts: seq<Adt>, subject: Exp, p: Exp): Exp
    requires p.Exp?
  {
    Binop("==", Field(subject, "tag"), IntLit(FindLocal(adts, p.text)))
  }

  /** It looks at the variant and at nothing else. */
  lemma TagIsTested(w: World, subject: Exp, p: Exp, v: Value, lowered: map<string, Value>)
    requires Declared(w.adts) && w.source && IsCtor(w.adts, p)
    requires v.Con? && FindVariant(w.adts, v.name) == FindVariant(w.adts, p.text)
    requires Eval(Target(w), subject, lowered) == Some(Lowered(w.adts, v))
    ensures Eval(Target(w), TagTest(w.adts, subject, p), lowered) == Some(Int(if v.name == p.text then 1 else 0))
  {
    hide LaneValues, FieldOf, PayloadField;
    var local := FindLocal(w.adts, v.name);
    if v.payload == [] {
      LaneRead(local, "", Int(0));
    } else {
      PayloadLane(PayloadOf(w.adts, v.name));
      LaneRead(local, PayloadField(PayloadOf(w.adts, v.name)), Lowered(w.adts, v.payload[0]));
    }
    assert Eval(Target(w), Field(subject, "tag"), lowered) == Some(Int(local));
  }

  lemma {:induction false} AnythingIsTaken(w: World, q: Exp, x: Value, vars: map<string, Value>)
    requires Declared(w.adts) && w.source && TakesAnything(w.adts, q) && IsCtor(w.adts, q) && Takes(w, q, x, vars).Some?
    ensures Takes(w, q, x, vars) == Some(true)
  {
    assert x.name in w.adts[FindVariant(w.adts, q.text)].variants;
    if q.tag != "ident" && q.args != [] && IsCtor(w.adts, q.args[0]) {
      AnythingIsTaken(w, q.args[0], x.payload[0], vars);
    }
  }

  /** The test of an arm that names a variant. */
  lemma TagTested(w: World, subject: Exp, p: Exp, v: Value, vars: map<string, Value>, lowered: map<string, Value>)
    requires Declared(w.adts) && w.source && IsCtor(w.adts, p) && FlatPattern(w.adts, p) && Takes(w, p, v, vars).Some?
    requires Eval(Target(w), subject, lowered) == Some(Lowered(w.adts, v))
    ensures Eval(Target(w), TagTest(w.adts, subject, p), lowered) == Some(Int(if Takes(w, p, v, vars).value then 1 else 0))
    ensures Takes(w, p, v, vars).value == (v.Con? && v.name == p.text)
  {
    hide Eval;
    TagIsTested(w, subject, p, v, lowered);
    if v.name == p.text && p.tag != "ident" && p.args != [] && IsCtor(w.adts, p.args[0]) {
      AnythingIsTaken(w, p.args[0], v.payload[0], vars);
    }
  }

  lemma {:induction false} NothingNamed(adts: seq<Adt>, q: Exp, x: Value, vars: map<string, Value>)
    requires TakesAnything(adts, q) && Matched(adts, q, x, vars).Some?
    ensures Matched(adts, q, x, vars) == Some(vars)
  {
    if HasTag(q, "call") && IsCtor(adts, q) && q.args != [] && !NamesPayload(adts, q.args[0]) {
      NothingNamed(adts, q.args[0], x.payload[0], vars);
    }
  }

  /** What an arm binds is its own name for the payload, or nothing. */
  lemma OneNameBound(w: World, p: Exp, v: Value, st: State)
    requires w.source && FlatPattern(w.adts, p) && Bound(w, p, v, st).Some?
    ensures if Binds(w.adts, p) then v.Con? && |v.payload| == 1 && Bound(w, p, v, st) == Some(st.(vars := st.vars[p.args[0].text := v.payload[0]]))
            else Bound(w, p, v, st) == Some(st)
  {
    if HasTag(p, "call") && IsCtor(w.adts, p) && p.args != [] && !NamesPayload(w.adts, p.args[0]) {
      NothingNamed(w.adts, p.args[0], v.payload[0], st.vars);
    }
  }

  /** The payload is read from the lane it was put in. */
  lemma PayloadRead(w: World, subject: Exp, v: Value, lowered: map<string, Value>)
    requires Declared(w.adts) && v.Con? && IsVariant(w.adts, v.name) && |v.payload| == 1
    requires Eval(Target(w), subject, lowered) == Some(Lowered(w.adts, v))
    ensures Eval(Target(w), Field(subject, PayloadField(PayloadOf(w.adts, v.name))), lowered) == Some(Lowered(w.adts, v.payload[0]))
  {
    hide LaneValues, FieldOf, PayloadField;
    var ty := PayloadOf(w.adts, v.name);
    PayloadLane(ty);
    LaneRead(FindLocal(w.adts, v.name), PayloadField(ty), Lowered(w.adts, v.payload[0]));
  }

  /** A body in a block after the binding of its payload. */
  lemma BlockOfTwo(w: World, x: string, ty: string, e: Exp, body: Stm, st: State, v: Value, fuel: nat)
    requires Declared(w.adts) && Eval(w, e, st.vars) == Some(v)
    ensures Exec(w, Block([Let(x, ty, e), body]), st, fuel) == Exec(w, body, st.(vars := st.vars[x := v]), fuel)
  {
    hide Eval;
    var ss, bound := [Let(x, ty, e), body], st.(vars := st.vars[x := v]);
    assert ss[1..] == [body] && [body][1..] == [];
    assert Exec(w, Let(x, ty, e), st, fuel) == Some(Next(bound));
    assert ExecAll(w, [body], bound, fuel) == Exec(w, body, bound, fuel);
    assert ExecAll(w, ss, st, fuel) == ExecAll(w, [body], bound, fuel);
  }

  lemma {:induction false} BoundBodyLowered(w: World, subject: Exp, p: Exp, v: Value, body: Stm, st: State, fuel: nat)
    requires Declared(w.adts) && w.source && Lowerable(w.adts, body) && IsCtor(w.adts, p) && PlainArm(w.adts, p, body)
    requires FlatPattern(w.adts, p)
    requires v.Con? && v.name == p.text && Bound(w, p, v, st).Some?
    requires Eval(Target(w), subject, LoweredState(w.adts, st).vars) == Some(Lowered(w.adts, v))
    requires Exec(w, body, Bound(w, p, v, st).value, fuel).Some?
    ensures Exec(Target(w), BoundBody(w.adts, subject, p, body), LoweredState(w.adts, st), fuel)
            == Some(LoweredOutcome(w.adts, Exec(w, body, Bound(w, p, v, st).value, fuel).value))
    decreases fuel, body, 4
  {
    hide Exec, LowerStm, ArmBody, Eval, Lowered, Lowerable, FlatPattern, Bound;
    OneNameBound(w, p, v, st);
    if p.tag != "call" {
      StmLowered(w, body, st, fuel);
    } else if !Binds(w.adts, p) {
      BodyLowered(w, body, st, fuel);
    } else {
      var x, ty, bound := p.args[0].text, PayloadOf(w.adts, p.text), Bound(w, p, v, st).value;
      PayloadRead(w, subject, v, LoweredState(w.adts, st).vars);
      BlockOfTwo(Target(w), x, StorageType(ty), Field(subject, PayloadField(ty)), ArmBody(w.adts, body), LoweredState(w.adts, st),
                 Lowered(w.adts, v.payload[0]), fuel);
      VarsLowered(w.adts, st.vars, x, v.payload[0]);
      BodyLowered(w, body, bound, fuel);
    }
  }

  lemma IfRuns(w: World, cond: Exp, t: Stm, e: Stm, st: State, n: int, fuel: nat)
    requires Declared(w.adts) && Eval(w, cond, st.vars) == Some(Int(n))
    ensures Exec(w, If(cond, t, e), st, fuel) == if n != 0 then Exec(w, t, st, fuel) else Exec(w, e, st, fuel)
  {
    hide Eval;
  }

  /** The test of an arm that compares. */
  lemma ValueTested(w: World, subject: Exp, p: Exp, v: Value, st: State, lowered: map<string, Value>)
    requires Declared(w.adts) && w.source && !p.Hole? && !IsCtor(w.adts, p) && Takes(w, p, v, st.vars).Some?
    requires lowered == LoweredVars(w.adts, st.vars)
    requires Eval(Target(w), subject, lowered) == Some(Lowered(w.adts, v))
    ensures Eval(Target(w), Binop("==", subject, LowerExp(w.adts, p)), lowered)
            == Some(Int(if Takes(w, p, v, st.vars).value then 1 else 0))
  {
    hide LowerExp;
    var x := Eval(w, p, st.vars).value;
    OperateLowered(w, "==", v, x);
    ExpLowered(w, p, st.vars);
  }

  /** The chain of tests runs what the match runs. */
  lemma {:induction false} ChainLowered(w: World, subject: Exp, v: Value, patterns: seq<Exp>, bodies: seq<Stm>, k: nat, st: State, fuel: nat)
    requires Declared(w.adts) && w.source && AllLowerable(w.adts, bodies) && ArmsLowerable(w.adts, patterns, bodies)
    requires Eval(Target(w), subject, LoweredState(w.adts, st).vars) == Some(Lowered(w.adts, v))
    ensures ExecArms(w, v, patterns, bodies, k, st, fuel).Some? ==>
              Exec(Target(w), MatchChain(w.adts, subject, patterns, bodies, k), LoweredState(w.adts, st), fuel)
              == Some(LoweredOutcome(w.adts, ExecArms(w, v, patterns, bodies, k, st, fuel).value))
    decreases fuel, bodies, 0, |bodies| - k
  {
    hide Exec, LowerStm, ArmBody, BoundBody, Lowered, Takes, Eval, Lowerable, FlatPattern, PlainArm, Bound, LowerExp, LoweredState;
    if k >= |bodies| {
      EmptyRuns(Target(w), LoweredState(w.adts, st), fuel);
    } else if ExecArms(w, v, patterns, bodies, k, st, fuel).Some? {
      var p := patterns[k];
      LowerableAt(w.adts, bodies, k);
      VarsOfState(w.adts, st);
      if p.Hole? {
        AlwaysTaken(w, v, st.vars);
        NothingBound(w, v, st);
        PlainUnder(w.adts, p, bodies[k]);
        BodyLowered(w, bodies[k], st, fuel);
      } else {
        var yes, n := Takes(w, p, v, st.vars).value, if Takes(w, p, v, st.vars).value then 1 else 0;
        var rest := MatchChain(w.adts, subject, patterns, bodies, k + 1);
        if IsCtor(w.adts, p) {
          TagTested(w, subject, p, v, st.vars, LoweredState(w.adts, st).vars);
          IfRuns(Target(w), TagTest(w.adts, subject, p),
                 BoundBody(w.adts, subject, p, bodies[k]), rest, LoweredState(w.adts, st), n, fuel);
          if yes { BoundBodyLowered(w, subject, p, v, bodies[k], st, fuel); }
        } else {
          ValueTested(w, subject, p, v, st, LoweredState(w.adts, st).vars);
          IfRuns(Target(w), Binop("==", subject, LowerExp(w.adts, p)), ArmBody(w.adts, bodies[k]), rest, LoweredState(w.adts, st),
                 n, fuel);
          if yes {
            NothingBoundBy(w, p, v, st);
            PlainUnder(w.adts, p, bodies[k]);
            BodyLowered(w, bodies[k], st, fuel);
          }
        }
        if !yes { ChainLowered(w, subject, v, patterns, bodies, k + 1, st, fuel); }
      }
    }
  }

  lemma EmptyRuns(w: World, st: State, fuel: nat)
    requires Declared(w.adts)
    ensures Exec(w, Block([]), st, fuel) == Some(Next(st))
  {
  }

  lemma NothingBound(w: World, v: Value, st: State)
    ensures Bound(w, Hole, v, st) == Some(st)
  {
  }

  lemma NothingBoundBy(w: World, p: Exp, v: Value, st: State)
    requires !IsCtor(w.adts, p)
    ensures Bound(w, p, v, st) == Some(st)
  {
  }

  lemma PlainUnder(adts: seq<Adt>, p: Exp, body: Stm)
    requires PlainArm(adts, p, body) && !IsCtor(adts, p)
    ensures !(body.Stm? && body.tag == "expr")
  {
  }

  // ----- one match -----

  lemma {:induction false} ArmsPassed(w: World, v: Value, patterns: seq<Exp>, bodies: seq<Stm>, from: nat, k: nat, st: State, fuel: nat)
    requires Declared(w.adts) && from <= k < |patterns| == |bodies|
    requires forall i :: from <= i < k ==> Takes(w, patterns[i], v, st.vars) == Some(false)
    ensures ExecArms(w, v, patterns, bodies, from, st, fuel) == ExecArms(w, v, patterns, bodies, k, st, fuel)
    decreases k - from
  {
    hide Takes;
    if from < k { ArmsPassed(w, v, patterns, bodies, from + 1, k, st, fuel); }
  }

  lemma EvalOne(w: World, e: Exp, vars: map<string, Value>, v: Value)
    requires Declared(w.adts) && Eval(w, e, vars) == Some(v)
    ensures EvalAll(w, [e], vars) == Some([v])
  {
    hide Eval;
    assert [e][1..] == [] && [v] + [] == [v];
    assert EvalAll(w, [], vars) == Some([]);
  }

  lemma {:induction false} NothingIsMissing(w: World, q: Exp, x: Value, vars: map<string, Value>)
    requires Declared(w.adts) && w.source && TakesAnything(w.adts, q) && IsCtor(w.adts, q) && Takes(w, q, x, vars) == Some(true)
    ensures Matched(w.adts, q, x, vars) == Some(vars)
  {
    if q.tag != "ident" && q.args != [] && IsCtor(w.adts, q.args[0]) {
      NothingIsMissing(w, q.args[0], x.payload[0], vars);
    }
  }

  /** An arm that takes a value with a payload finds what it names. */
  lemma PartsAreThere(w: World, p: Exp, v: Value, st: State)
    requires Declared(w.adts) && w.source && IsCtor(w.adts, p) && FlatPattern(w.adts, p) && Takes(w, p, v, st.vars) == Some(true)
    requires v.Con? && |v.payload| == 1
    ensures Bound(w, p, v, st)
            == Some(if Binds(w.adts, p) then st.(vars := st.vars[p.args[0].text := v.payload[0]]) else st)
  {
    if p.tag == "call" && p.args != [] && IsCtor(w.adts, p.args[0]) {
      NothingIsMissing(w, p.args[0], v.payload[0], st.vars);
    } else if p.tag == "call" && p.args != [] && !NamesPayload(w.adts, p.args[0]) {
      assert Matched(w.adts, p.args[0], v.payload[0], st.vars) == Some(st.vars);
    }
  }

  /** A value that is built and then matched, lowered, runs the first arm that takes it, with
      the payload it was built from under the name in the pattern. */
  lemma TheFirstArmRuns(w: World, name: string, arg: Exp, payload: Value, patterns: seq<Exp>, bodies: seq<Stm>, k: nat, st: State, fuel: nat)
    requires Declared(w.adts) && w.source && IsVariant(w.adts, name) && k < |patterns| == |bodies|
    requires Eval(w, arg, st.vars) == Some(payload) && Build(w.adts, name, [payload]).Some?
    requires Lowerable(w.adts, Match(Call(name, [arg]), patterns, bodies))
    requires forall i :: 0 <= i < k ==> Takes(w, patterns[i], Con(name, [payload]), st.vars) == Some(false)
    requires Takes(w, patterns[k], Con(name, [payload]), st.vars) == Some(true)
    ensures var bound := if Binds(w.adts, patterns[k]) then st.(vars := st.vars[patterns[k].args[0].text := payload]) else st;
            Exec(w, bodies[k], bound, fuel).Some? ==>
              Exec(Target(w), LowerStm(w.adts, Match(Call(name, [arg]), patterns, bodies)), LoweredState(w.adts, st), fuel)
              == Some(LoweredOutcome(w.adts, Exec(w, bodies[k], bound, fuel).value))
  {
    var s, v := Match(Call(name, [arg]), patterns, bodies), Con(name, [payload]);
    BuiltByCall(w, name, arg, payload, st.vars);
    TakingArm(w, s, v, k, st);
    hide LowerStm, Lowerable, Takes, LoweredState, Eval, Exec;
    MatchRuns(w, s, v, st, fuel);
    ArmsPassed(w, v, patterns, bodies, 0, k, st, fuel);
    StmLowered(w, s, st, fuel);
  }

  lemma BuiltByCall(w: World, name: string, arg: Exp, payload: Value, vars: map<string, Value>)
    requires Declared(w.adts) && w.source && IsVariant(w.adts, name)
    requires Eval(w, arg, vars) == Some(payload) && Build(w.adts, name, [payload]).Some?
    ensures Eval(w, Call(name, [arg]), vars) == Some(Con(name, [payload]))
  {
    EvalOne(w, arg, vars, payload);
  }

  lemma MatchRuns(w: World, s: Stm, v: Value, st: State, fuel: nat)
    requires Declared(w.adts) && s.Stm? && s.tag == "match" && Eval(w, s.value, st.vars) == Some(v)
    ensures Exec(w, s, st, fuel) == ExecArms(w, v, s.patterns, s.bodies, 0, st, fuel)
  {
    hide Eval, ExecArms;
  }

  /** An arm of a lowerable match that takes a value with a payload. */
  lemma TakingArm(w: World, s: Stm, v: Value, k: nat, st: State)
    requires Declared(w.adts) && w.source && s.Stm? && s.tag == "match" && Lowerable(w.adts, s) && k < |s.patterns|
    requires v.Con? && |v.payload| == 1 && Takes(w, s.patterns[k], v, st.vars) == Some(true)
    ensures Bound(w, s.patterns[k], v, st)
            == Some(if Binds(w.adts, s.patterns[k]) then st.(vars := st.vars[s.patterns[k].args[0].text := v.payload[0]]) else st)
  {
    var p := s.patterns[k];
    if p.Hole? {
      NothingBound(w, v, st);
    } else {
      assert IsCtor(w.adts, p);
      assert FlatPattern(w.adts, p);
      PartsAreThere(w, p, v, st);
    }
  }
}
