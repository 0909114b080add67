/**
  Exactly when an arm of a match is lowered to what it means.
 */
module AdtExact {
  import opened Options
  import opened AdtLowering
  import opened AdtMeaning
  import opened AdtPreserved

  // ----- patterns inside patterns -----

  /** A pattern that can be compared: a number or a text, whatever the variables are. */
  ghost predicate Comparable(w: World, q: Exp)
    requires Declared(w.adts)
  {
    Compares(Eval(w, q, map[])) && forall vars: map<string, Value> :: Eval(w, q, vars) == Eval(w, q, map[])
  }

  predicate Compares(v: Option<Value>) {
    v.Some? && (v.value.Int? || v.value.Str?)
  }

  /** Constructors around a name, `_`, nothing, or something that can be compared. */
  ghost predicate IsPattern(w: World, q: Exp)
    requires Declared(w.adts)
  {
    || q.Hole?
    || NamesPayload(w.adts, q)
    || (IsCtor(w.adts, q) && (q.tag == "ident" || q.args == [] || IsPattern(w, q.args[0])))
    || (!IsCtor(w.adts, q) && Comparable(w, q))
  }

  /** The pattern does not turn the payload away. */
  predicate PayloadTaken(w: World, q: Exp, x: Value, vars: map<string, Value>)
    requires Declared(w.adts)
  {
    Takes(w, q, x, vars).Some? ==> Takes(w, q, x, vars).value
  }

  lemma {:induction false} TotalIsTaken(w: World, q: Exp, x: Value, vars: map<string, Value>)
    requires Declared(w.adts) && w.source && Total(w.adts, q) && !NamesPayload(w.adts, q)
    ensures PayloadTaken(w, q, x, vars)
  {
    if !q.Hole? && Takes(w, q, x, vars).Some? {
      assert x.name in w.adts[FindVariant(w.adts, q.text)].variants;
      if q.tag != "ident" && q.args != [] && !NamesPayload(w.adts, q.args[0]) {
        TotalIsTaken(w, q.args[0], x.payload[0], vars);
      }
    }
  }

  ghost predicate TurnedAway(w: World, q: Exp, x: Value)
    requires Declared(w.adts)
  {
    forall vars: map<string, Value> :: Takes(w, q, x, vars) == Some(false)
  }

  /** Something else than the number or the text. */
  lemma OtherValue(w: World, q: Exp) returns (x: Value)
    requires Declared(w.adts) && w.source && !q.Hole? && !IsCtor(w.adts, q) && Comparable(w, q)
    ensures TurnedAway(w, q, x)
  {
    hide Eval;
    var v := Eval(w, q, map[]).value;
    x := if v.Int? then Int(v.n + 1) else Str(v.s + "x");
    assert x != v by { if v.Str? { assert |v.s + "x"| != |v.s|; } }
    forall vars: map<string, Value> ensures Takes(w, q, x, vars) == Some(false) {
      assert Eval(w, q, vars) == Some(v);
    }
  }

  lemma OtherVariant(w: World, q: Exp) returns (x: Value)
    requires Declared(w.adts) && w.source && IsCtor(w.adts, q) && !OnlyVariant(w.adts, q.text)
    ensures TurnedAway(w, q, x)
  {
    var other :| other in w.adts[FindVariant(w.adts, q.text)].variants
                 && FindVariant(w.adts, other) == FindVariant(w.adts, q.text) && other != q.text;
    x := Con(other, []);
  }

  /** A pattern that is not total turns some value away. */
  lemma {:induction false} Refuted(w: World, q: Exp) returns (x: Value)
    requires Declared(w.adts) && w.source && IsPattern(w, q) && !Total(w.adts, q)
    ensures TurnedAway(w, q, x)
    decreases q
  {
    hide Eval, OnlyVariant, Comparable;
    if !IsCtor(w.adts, q) {
      x := OtherValue(w, q);
    } else if !OnlyVariant(w.adts, q.text) {
      x := OtherVariant(w, q);
    } else {
      var y := Refuted(w, q.args[0]);
      x := Con(q.text, [y]);
      forall vars: map<string, Value> ensures Takes(w, q, x, vars) == Some(false) {
        assert Takes(w, q.args[0], y, vars) == Some(false);
      }
    }
  }

  /** The lowered test of an arm, on a variable with a value, says what the arm says. */
  ghost predicate TestAgrees(w: World, p: Exp, v: Value, vars: map<string, Value>)
    requires Declared(w.adts) && p.Exp?
  {
    Takes(w, p, v, vars).Some? ==>
      Eval(Target(w), TagTest(w.adts, Ident("v"), p), map["v" := Lowered(w.adts, v)])
      == Some(Int(if Takes(w, p, v, vars).value then 1 else 0))
  }

  lemma TestDecides(w: World, p: Exp, v: Value, vars: map<string, Value>)
    requires Declared(w.adts) && w.source && IsCtor(w.adts, p) && Takes(w, p, v, vars).Some?
    ensures v.Con? && (TestAgrees(w, p, v, vars) <==> Takes(w, p, v, vars).value == (v.name == p.text))
  {
    var lowered := map["v" := Lowered(w.adts, v)];
    assert Eval(Target(w), Ident("v"), lowered) == Some(Lowered(w.adts, v));
    hide Eval;
    TagIsTested(w, Ident("v"), p, v, lowered);
  }

  /** For an arm with a pattern inside a pattern: the lowered test is right for every value
      exactly when the inner one is a chain of only constructors. */
  lemma NestedPatternsExact(w: World, p: Exp, vars: map<string, Value>)
    requires Declared(w.adts) && w.source && HasTag(p, "call") && IsVariant(w.adts, p.text) && p.args != []
    requires IsPattern(w, p.args[0])
    ensures (forall v :: TestAgrees(w, p, v, vars)) <==> Total(w.adts, p.args[0])
    ensures Total(w.adts, p.args[0]) <==> NamesPayload(w.adts, p.args[0]) || forall x :: PayloadTaken(w, p.args[0], x, vars)
  {
    hide TestAgrees, Total, IsPattern;
    var q := p.args[0];
    if Total(w.adts, q) {
      forall v ensures TestAgrees(w, p, v, vars) {
        if Takes(w, p, v, vars).Some? {
          TestDecides(w, p, v, vars);
          if v.name == p.text && !NamesPayload(w.adts, q) { TotalIsTaken(w, q, v.payload[0], vars); }
        } else {
          NotAsked(w, p, v, vars);
        }
      }
      if !NamesPayload(w.adts, q) {
        forall x ensures PayloadTaken(w, q, x, vars) { TotalIsTaken(w, q, x, vars); }
      }
    } else {
      NamesAreTotal(w.adts, q);
      var x := Refuted(w, q);
      assert Takes(w, q, x, vars) == Some(false);
      assert !PayloadTaken(w, q, x, vars);
      TestDecides(w, p, Con(p.text, [x]), vars);
    }
  }

  lemma NamesAreTotal(adts: seq<Adt>, q: Exp)
    ensures NamesPayload(adts, q) ==> Total(adts, q)
  {
  }

  lemma NotAsked(w: World, p: Exp, v: Value, vars: map<string, Value>)
    requires Declared(w.adts) && p.Exp? && Takes(w, p, v, vars).None?
    ensures TestAgrees(w, p, v, vars)
  {
  }

  /** The body that an arm is lowered to. */
  function LoweredArm(adts: seq<Adt>, subject: Exp, p: Exp, body: Stm): Stm
    requires Declared(adts)
  {
    if IsCtor(adts, p) then BoundBody(adts, subject, p, body) else ArmBody(adts, body)
  }

  predicate Returns(o: Option<Outcome>) {
    o.Some? ==> o.value.Returned?
  }

  lemma ReturnsOnly(w: World, e: Exp, st: State, fuel: nat)
    requires Declared(w.adts)
    ensures Returns(Exec(w, Return(e), st, fuel))
  {
  }

  lemma BlockReturnsOnly(w: World, x: string, ty: string, e: Exp, r: Exp, st: State, fuel: nat)
    requires Declared(w.adts)
    ensures Returns(Exec(w, Block([Let(x, ty, e), Return(r)]), st, fuel))
  {
    match Eval(w, e, st.vars)
    case None => assert Exec(w, Let(x, ty, e), st, fuel) == None;
    case Some(v) =>
      BlockOfTwo(w, x, ty, e, Return(r), st, v, fuel);
      ReturnsOnly(w, r, st.(vars := st.vars[x := v]), fuel);
  }

  /** A bare expression is returned by every lowered arm but one with a variant by itself. */
  lemma ArmReturnsOnly(w: World, subject: Exp, p: Exp, body: Stm, st: State, fuel: nat)
    requires Declared(w.adts) && body.Stm? && body.tag == "expr" && !(IsCtor(w.adts, p) && p.tag == "ident")
    ensures Returns(Exec(w, LoweredArm(w.adts, subject, p, body), st, fuel))
  {
    hide Exec, Eval, Returns;
    var r := LowerExp(w.adts, body.value);
    assert ArmBody(w.adts, body) == Return(r);
    if IsCtor(w.adts, p) && Binds(w.adts, p) {
      var ty := PayloadOf(w.adts, p.text);
      BlockReturnsOnly(w, p.args[0].text, StorageType(ty), Field(subject, PayloadField(ty)), r, st, fuel);
    } else {
      ReturnsOnly(w, r, st, fuel);
    }
  }

  /** For an arm whose body is a bare expression, when it is reached: the lowered arm does
      what the arm does exactly when its pattern is a variant by itself. */
  lemma ExpressionArmsExact(w: World, subject: Exp, p: Exp, v: Value, body: Stm, st: State, fuel: nat)
    requires Declared(w.adts) && w.source && body.Stm? && body.tag == "expr"
    requires Takes(w, p, v, st.vars) == Some(true) && Bound(w, p, v, st).Some?
    requires Exec(w, body, Bound(w, p, v, st).value, fuel).Some?
    ensures Exec(Target(w), LoweredArm(w.adts, subject, p, body), LoweredState(w.adts, st), fuel)
            == Some(LoweredOutcome(w.adts, Exec(w, body, Bound(w, p, v, st).value, fuel).value))
            <==> IsCtor(w.adts, p) && p.tag == "ident"
  {
    hide Eval, Takes, LowerExp, Lowered, LoweredState, LoweredArm;
    var bound := Bound(w, p, v, st).value;
    assert Exec(w, body, bound, fuel) == Some(Next(bound));
    if IsCtor(w.adts, p) && p.tag == "ident" {
      assert bound == st && Lowerable(w.adts, body);
      StmLowered(w, body, st, fuel);
      IdentArm(w.adts, subject, p, body);
    } else {
      ArmReturnsOnly(Target(w), subject, p, body, LoweredState(w.adts, st), fuel);
    }
  }

  lemma IdentArm(adts: seq<Adt>, subject: Exp, p: Exp, body: Stm)
    requires Declared(adts) && IsCtor(adts, p) && p.tag == "ident"
    ensures LoweredArm(adts, subject, p, body) == LowerStm(adts, body)
  {
  }

  // ----- whole arms -----

  /** An arm does, once lowered, what it does: for a value that the subject has and that the
      arm can be asked about, the test says whether the arm takes it, and if so the lowered
      body does what the body does with what the pattern binds. */
  ghost predicate ArmAgrees(w: World, subject: Exp, p: Exp, v: Value, body: Stm, st: State, fuel: nat)
    requires Declared(w.adts) && p.Exp?
  {
    Takes(w, p, v, st.vars).Some? && Eval(Target(w), subject, LoweredState(w.adts, st).vars) == Some(Lowered(w.adts, v)) ==>
      && Eval(Target(w), TagTest(w.adts, subject, p), LoweredState(w.adts, st).vars)
         == Some(Int(if Takes(w, p, v, st.vars).value then 1 else 0))
      && (Takes(w, p, v, st.vars).value && Bound(w, p, v, st).Some? && Exec(w, body, Bound(w, p, v, st).value, fuel).Some? ==>
            Exec(Target(w), LoweredArm(w.adts, subject, p, body), LoweredState(w.adts, st), fuel)
            == Some(LoweredOutcome(w.adts, Exec(w, body, Bound(w, p, v, st).value, fuel).value)))
  }

  ghost predicate AlwaysAgrees(w: World, p: Exp)
    requires Declared(w.adts) && p.Exp?
  {
    forall subject, v, body, st, fuel ::
      Lowerable(w.adts, body) && PlainArm(w.adts, p, body) ==> ArmAgrees(w, subject, p, v, body, st, fuel)
  }

  lemma FlatAgrees(w: World, subject: Exp, p: Exp, v: Value, body: Stm, st: State, fuel: nat)
    requires Declared(w.adts) && w.source && IsCtor(w.adts, p) && FlatPattern(w.adts, p)
    requires Lowerable(w.adts, body) && PlainArm(w.adts, p, body)
    ensures ArmAgrees(w, subject, p, v, body, st, fuel)
  {
    hide Eval, Exec, Takes, Bound, Lowered, LoweredState, LowerStm, FlatPattern, PlainArm, Lowerable;
    if Takes(w, p, v, st.vars).Some? && Eval(Target(w), subject, LoweredState(w.adts, st).vars) == Some(Lowered(w.adts, v)) {
      TagTested(w, subject, p, v, st.vars, LoweredState(w.adts, st).vars);
      if Takes(w, p, v, st.vars).value && Bound(w, p, v, st).Some? && Exec(w, body, Bound(w, p, v, st).value, fuel).Some? {
        BoundBodyLowered(w, subject, p, v, body, st, fuel);
      }
    }
  }

  /** The name that a chain of constructors ends with. */
  function NameOf(adts: seq<Adt>, q: Exp): string
    requires Total(adts, q) && !TakesAnything(adts, q)
  {
    if NamesPayload(adts, q) then q.text else NameOf(adts, q.args[0])
  }

  /** The value of the chain around what the name is to mean. */
  function Nest(adts: seq<Adt>, q: Exp, x: Value): Value
    requires Total(adts, q) && !TakesAnything(adts, q)
  {
    if NamesPayload(adts, q) then x else Con(q.text, [Nest(adts, q.args[0], x)])
  }

  lemma {:induction false} NestedNameIsBound(w: World, q: Exp, x: Value, vars: map<string, Value>)
    requires Declared(w.adts) && w.source && Total(w.adts, q) && !TakesAnything(w.adts, q) && !NamesPayload(w.adts, q)
    ensures Takes(w, q, Nest(w.adts, q, x), vars) == Some(true)
    ensures Matched(w.adts, q, Nest(w.adts, q, x), vars) == Some(vars[NameOf(w.adts, q) := x])
    ensures !IsVariant(w.adts, NameOf(w.adts, q))
  {
    if !NamesPayload(w.adts, q.args[0]) { NestedNameIsBound(w, q.args[0], x, vars); }
  }

  lemma OneVariable(w: World, name: string, vars: map<string, Value>, v: Value)
    requires Declared(w.adts) && name in vars && vars[name] == v
    ensures Eval(Target(w), Ident(name), LoweredVars(w.adts, vars)) == Some(Lowered(w.adts, v))
  {
  }

  /** A name below the first level means, once lowered, what it meant before. */
  lemma NestedNameIsLost(w: World, p: Exp)
    requires Declared(w.adts) && w.source && HasTag(p, "call") && IsVariant(w.adts, p.text) && p.args != []
    requires Total(w.adts, p.args[0]) && !TakesAnything(w.adts, p.args[0]) && !NamesPayload(w.adts, p.args[0])
    ensures !AlwaysAgrees(w, p)
  {
    hide Takes, Total, TakesAnything, Exec, Eval, Matched;
    var q := p.args[0];
    var y := NameOf(w.adts, q);
    var subject := y + "x";
    var v := Con(p.text, [Nest(w.adts, q, Int(5))]);
    var st := State(map[subject := v, y := Int(1)], []);
    assert |subject| != |y|;
    NestedNameIsBound(w, q, Int(5), st.vars);
    ChainIsTaken(w, p, Nest(w.adts, q, Int(5)), st.vars);
    var bound := st.(vars := st.vars[y := Int(5)]);
    assert Bound(w, p, v, st) == Some(bound);
    ReturnsVariable(w, y, bound, Int(5));
    OneVariable(w, subject, st.vars, v);
    LostName(w, p, Ident(subject), y, st);
    assert Lowered(w.adts, Int(5)) == Int(5);
    assert LoweredOutcome(w.adts, Returned(Int(5), [])) != Returned(Int(1), LoweredState(w.adts, st).printed);
    assert !ArmAgrees(w, Ident(subject), p, v, Return(Ident(y)), st, 0);
    assert Lowerable(w.adts, Return(Ident(y))) && PlainArm(w.adts, p, Return(Ident(y)));
  }

  lemma ChainIsTaken(w: World, p: Exp, x: Value, vars: map<string, Value>)
    requires Declared(w.adts) && w.source && HasTag(p, "call") && IsVariant(w.adts, p.text) && p.args != []
    requires !NamesPayload(w.adts, p.args[0]) && Takes(w, p.args[0], x, vars) == Some(true)
    ensures Takes(w, p, Con(p.text, [x]), vars) == Some(true)
    ensures Matched(w.adts, p, Con(p.text, [x]), vars) == Matched(w.adts, p.args[0], x, vars)
  {
  }

  lemma ReturnsVariable(w: World, y: string, st: State, x: Value)
    requires Declared(w.adts) && y in st.vars && st.vars[y] == x && (w.source ==> !IsVariant(w.adts, y))
    ensures Exec(w, Return(Ident(y)), st, 0) == Some(Returned(x, st.printed))
  {
  }

  lemma LostName(w: World, p: Exp, subject: Exp, y: string, st: State)
    requires Declared(w.adts) && w.source && HasTag(p, "call") && IsVariant(w.adts, p.text) && p.args != []
    requires !NamesPayload(w.adts, p.args[0]) && !IsVariant(w.adts, y) && y in st.vars && st.vars[y] == Int(1)
    ensures Exec(Target(w), LoweredArm(w.adts, subject, p, Return(Ident(y))), LoweredState(w.adts, st), 0)
            == Some(Returned(Int(1), LoweredState(w.adts, st).printed))
  {
    assert LowerStm(w.adts, Return(Ident(y))) == Return(Ident(y));
    assert ArmBody(w.adts, Return(Ident(y))) == Return(Ident(y));
    assert IsCtor(w.adts, p) && !Binds(w.adts, p) && p.tag == "call";
    assert BoundBody(w.adts, subject, p, Return(Ident(y))) == Return(Ident(y));
    assert LoweredArm(w.adts, subject, p, Return(Ident(y))) == Return(Ident(y));
    ReturnsVariable(Target(w), y, LoweredState(w.adts, st), Int(1));
  }

  /** A pattern that does not take everything makes the test wrong. */
  lemma NestedTestIsLost(w: World, p: Exp)
    requires Declared(w.adts) && w.source && HasTag(p, "call") && IsVariant(w.adts, p.text) && p.args != []
    requires IsPattern(w, p.args[0]) && !Total(w.adts, p.args[0])
    ensures !AlwaysAgrees(w, p)
  {
    hide Total, IsPattern, Exec, Lowered, Takes, Eval;
    NamesAreTotal(w.adts, p.args[0]);
    var x := Refuted(w, p.args[0]);
    var v := Con(p.text, [x]);
    var st := State(map["v" := v], []);
    assert Takes(w, p.args[0], x, st.vars) == Some(false);
    NotTakenInside(w, p, x, st.vars);
    OneVariable(w, "v", st.vars, v);
    TagIsTested(w, Ident("v"), p, v, LoweredState(w.adts, st).vars);
    assert !ArmAgrees(w, Ident("v"), p, v, Block([]), st, 0);
    EmptyIsLowerable(w.adts, p);
  }

  lemma NotTakenInside(w: World, p: Exp, x: Value, vars: map<string, Value>)
    requires Declared(w.adts) && w.source && HasTag(p, "call") && IsVariant(w.adts, p.text) && p.args != []
    requires !NamesPayload(w.adts, p.args[0]) && Takes(w, p.args[0], x, vars) == Some(false)
    ensures Takes(w, p, Con(p.text, [x]), vars) == Some(false)
  {
  }

  lemma EmptyIsLowerable(adts: seq<Adt>, p: Exp)
    ensures Lowerable(adts, Block([])) && PlainArm(adts, p, Block([]))
  {
  }

  /** For an arm with a pattern inside a pattern, whatever its body does: it is lowered to
      what it means exactly when the inner pattern is a name, `_`, or a chain of only
      constructors that gives no names. */
  lemma NestedArmsExact(w: World, p: Exp)
    requires Declared(w.adts) && w.source && HasTag(p, "call") && IsVariant(w.adts, p.text) && p.args != []
    requires IsPattern(w, p.args[0])
    ensures AlwaysAgrees(w, p) <==> FlatPattern(w.adts, p)
  {
    hide AlwaysAgrees, Total, TakesAnything, IsPattern, ArmAgrees;
    if FlatPattern(w.adts, p) {
      FlatAlwaysAgrees(w, p);
    } else if Total(w.adts, p.args[0]) {
      NestedNameIsLost(w, p);
    } else {
      NestedTestIsLost(w, p);
    }
  }

  lemma FlatAlwaysAgrees(w: World, p: Exp)
    requires Declared(w.adts) && w.source && IsCtor(w.adts, p) && FlatPattern(w.adts, p)
    ensures AlwaysAgrees(w, p)
  {
    hide ArmAgrees, FlatPattern, Lowerable, PlainArm;
    forall subject, v, body, st, fuel | Lowerable(w.adts, body) && PlainArm(w.adts, p, body)
      ensures ArmAgrees(w, subject, p, v, body, st, fuel)
    {
      FlatAgrees(w, subject, p, v, body, st, fuel);
    }
  }

  // ----- where it does not hold -----

  const NOTHING := State(map[], [])

  lemma NothingLowered(adts: seq<Adt>)
    requires Declared(adts)
    ensures LoweredState(adts, NOTHING) == NOTHING && LoweredVars(adts, map[]) == map[]
  {
  }

  lemma MatchIsChain(adts: seq<Adt>, value: Exp, patterns: seq<Exp>, bodies: seq<Stm>)
    requires Declared(adts) && |patterns| == |bodies| > 0 && IsCtor(adts, patterns[0])
    ensures var subject := LowerExp(adts, value);
            LowerStm(adts, Match(value, patterns, bodies))
            == If(TagTest(adts, subject, patterns[0]), BoundBody(adts, subject, patterns[0], bodies[0]),
                  MatchChain(adts, subject, patterns, bodies, 1))
  {
    hide LowerExp, BoundBody;
    assert LowerStm(adts, Match(value, patterns, bodies)) == MatchChain(adts, LowerExp(adts, value), patterns, bodies, 0);
  }

  /** What the lowered match does, by the variant of the value alone. */
  lemma TagDecides(w: World, value: Exp, v: Value, patterns: seq<Exp>, bodies: seq<Stm>, st: State)
    requires Declared(w.adts) && w.source && Eval(w, value, st.vars) == Some(v) && |patterns| == |bodies| > 0
    requires IsCtor(w.adts, patterns[0]) && v.Con? && FindVariant(w.adts, v.name) == FindVariant(w.adts, patterns[0].text)
    ensures Exec(Target(w), LowerStm(w.adts, Match(value, patterns, bodies)), LoweredState(w.adts, st), 0)
            == Exec(Target(w), if v.name == patterns[0].text then BoundBody(w.adts, LowerExp(w.adts, value), patterns[0], bodies[0])
                               else MatchChain(w.adts, LowerExp(w.adts, value), patterns, bodies, 1), LoweredState(w.adts, st), 0)
  {
    hide Eval, LowerExp, BoundBody, MatchChain, LowerStm, Exec;
    var subject := LowerExp(w.adts, value);
    ExpLowered(w, value, st.vars);
    TagIsTested(w, subject, patterns[0], v, LoweredState(w.adts, st).vars);
    MatchIsChain(w.adts, value, patterns, bodies);
    IfRuns(Target(w), TagTest(w.adts, subject, patterns[0]), BoundBody(w.adts, subject, patterns[0], bodies[0]),
           MatchChain(w.adts, subject, patterns, bodies, 1), LoweredState(w.adts, st), if v.name == patterns[0].text then 1 else 0, 0);
  }

  const TWO := [Adt("T", ["A", "B"], ["", ""])]

  lemma TwoVariants()
    ensures Declared(TWO) && FindVariant(TWO, "A") == FindVariant(TWO, "B") == 0
    ensures FindLocal(TWO, "A") == 0 && FindLocal(TWO, "B") == 1 && PayloadOf(TWO, "A") == PayloadOf(TWO, "B") == ""
  {
    assert IndexFrom(["A", "B"], "A", 0) == 0 && IndexFrom(["A", "B"], "B", 0) == 1;
  }

  /** The body of an arm that is a bare expression leaves the function. */
  lemma AnExpressionArmReturns(op: (string, int, int) -> Option<int>, ext: (string, string, seq<Value>) -> Option<Value>)
    ensures var w := World(TWO, op, ext, true);
            var s := Match(Ident("A"), [Ident("B"), Hole], [Block([]), Simple("expr", "", "", IntLit(1), Hole)]);
            Declared(TWO) && Exec(w, s, NOTHING, 0) == Some(Next(NOTHING)) &&
            Exec(Target(w), LowerStm(TWO, s), NOTHING, 0) == Some(Returned(Int(1), []))
    ensures var w := World(TWO, op, ext, true);
            Exec(Target(w), LoweredArm(TWO, LowerExp(TWO, Ident("A")), Hole, Simple("expr", "", "", IntLit(1), Hole)),
                 LoweredState(TWO, NOTHING), 0)
            != Some(LoweredOutcome(TWO, Next(NOTHING)))
  {
    hide FindVariant, FindLocal, LowerStm;
    TwoVariants();
    var w := World(TWO, op, ext, true);
    var ps, bs := [Ident("B"), Hole], [Block([]), Simple("expr", "", "", IntLit(1), Hole)];
    var v := Con("A", []);
    assert Eval(w, Ident("A"), map[]) == Some(v);
    assert Takes(w, ps[0], v, map[]) == Some(false);
    assert ExecArms(w, v, ps, bs, 1, NOTHING, 0) == Some(Next(NOTHING));
    NothingLowered(TWO);
    TagDecides(w, Ident("A"), v, ps, bs, NOTHING);
    assert MatchChain(TWO, LowerExp(TWO, Ident("A")), ps, bs, 1) == Return(IntLit(1));
    NothingBound(w, v, NOTHING);
    ExpressionArmsExact(w, LowerExp(TWO, Ident("A")), Hole, v, bs[1], NOTHING, 0);
  }

  const NESTED := [Adt("K", ["X", "Y"], ["", ""]), Adt("W", ["Wrap"], ["K"])]

  lemma NestedVariants()
    ensures Declared(NESTED) && FindVariant(NESTED, "X") == FindVariant(NESTED, "Y") == 0 && FindVariant(NESTED, "Wrap") == 1
    ensures !IsVariant(NESTED, "z") && PayloadOf(NESTED, "X") == "" && PayloadOf(NESTED, "Y") == "" && PayloadOf(NESTED, "Wrap") == "K"
  {
    assert IndexFrom(["X", "Y"], "X", 0) == 0 && IndexFrom(["X", "Y"], "Y", 0) == 1 && IndexFrom(["Wrap"], "Wrap", 0) == 0;
    assert VariantFrom(NESTED, "Wrap", 1) == 1;
    assert VariantFrom(NESTED, "z", 2) == -1 && VariantFrom(NESTED, "z", 1) == -1;
  }

  lemma WrapIsBuilt(op: (string, int, int) -> Option<int>, ext: (string, string, seq<Value>) -> Option<Value>)
    ensures Declared(NESTED) && Eval(World(NESTED, op, ext, true), Call("Wrap", [Ident("X")]), map[]) == Some(Con("Wrap", [Con("X", [])]))
  {
    hide FindVariant, FindLocal;
    NestedVariants();
    var w := World(NESTED, op, ext, true);
    EvalOne(w, Ident("X"), map[], Con("X", []));
    assert PayloadField("K") == "payload_ptr";
  }

  lemma OtherVariantIsNotTaken(op: (string, int, int) -> Option<int>, ext: (string, string, seq<Value>) -> Option<Value>)
    ensures Declared(NESTED) && Takes(World(NESTED, op, ext, true), Ident("Y"), Con("X", []), map[]) == Some(false)
  {
    hide FindVariant, FindLocal;
    NestedVariants();
  }

  /** So for this pattern the test is wrong for some value. */
  lemma TheNestedTestIsWrong(op: (string, int, int) -> Option<int>, ext: (string, string, seq<Value>) -> Option<Value>)
    ensures Declared(NESTED) && exists v :: !TestAgrees(World(NESTED, op, ext, true), Call("Wrap", [Ident("Y")]), v, map[])
  {
    hide FindVariant, FindLocal, TestAgrees, Takes;
    NestedVariants();
    OtherVariantIsNotTaken(op, ext);
    var w := World(NESTED, op, ext, true);
    assert !PayloadTaken(w, Ident("Y"), Con("X", []), map[]);
    NestedPatternsExact(w, Call("Wrap", [Ident("Y")]), map[]);
  }

  /** A pattern inside a pattern is taken to match. */
  lemma ANestedPatternIsNotTested(op: (string, int, int) -> Option<int>, ext: (string, string, seq<Value>) -> Option<Value>)
    ensures var w := World(NESTED, op, ext, true);
            var s := Match(Call("Wrap", [Ident("X")]), [Call("Wrap", [Ident("Y")]), Hole], [Return(IntLit(1)), Return(IntLit(2))]);
            Declared(NESTED) && Exec(w, s, NOTHING, 0) == Some(Returned(Int(2), [])) &&
            Exec(Target(w), LowerStm(NESTED, s), NOTHING, 0) == Some(Returned(Int(1), []))
  {
    hide FindVariant, FindLocal, LowerStm, LowerExp;
    NestedVariants();
    WrapIsBuilt(op, ext);
    var w := World(NESTED, op, ext, true);
    var ps, bs := [Call("Wrap", [Ident("Y")]), Hole], [Return(IntLit(1)), Return(IntLit(2))];
    var x := Con("X", []);
    var v := Con("Wrap", [x]);
    OtherVariantIsNotTaken(op, ext);
    assert Takes(w, ps[0], v, map[]) == Some(false);
    assert ExecArms(w, v, ps, bs, 1, NOTHING, 0) == Some(Returned(Int(2), []));
    NothingLowered(NESTED);
    TagDecides(w, Call("Wrap", [Ident("X")]), v, ps, bs, NOTHING);
    ReturnIsKept(NESTED, IntLit(1));
    assert BoundBody(NESTED, LowerExp(NESTED, Call("Wrap", [Ident("X")])), ps[0], bs[0]) == Return(IntLit(1));
  }

  lemma ReturnIsKept(adts: seq<Adt>, e: Exp)
    requires Declared(adts) && HasTag(e, "int")
    ensures LowerStm(adts, Return(e)) == Return(e)
  {
  }

  const ONLY := [Adt("O", ["Only"], ["i32"]), Adt("W", ["Wrap"], ["O"])]

  lemma OnlyVariants()
    ensures Declared(ONLY) && FindVariant(ONLY, "Only") == 0 && FindVariant(ONLY, "Wrap") == 1 && !IsVariant(ONLY, "y")
    ensures PayloadOf(ONLY, "Only") == "i32" && PayloadOf(ONLY, "Wrap") == "O"
  {
    assert IndexFrom(["Only"], "Only", 0) == 0 && IndexFrom(["Wrap"], "Wrap", 0) == 0;
    assert VariantFrom(ONLY, "Wrap", 1) == 1;
    assert VariantFrom(ONLY, "y", 2) == -1 && VariantFrom(ONLY, "y", 1) == -1;
  }

  lemma FiveIsWrapped(op: (string, int, int) -> Option<int>, ext: (string, string, seq<Value>) -> Option<Value>, vars: map<string, Value>)
    ensures Declared(ONLY)
    ensures Eval(World(ONLY, op, ext, true), Call("Wrap", [Call("Only", [IntLit(5)])]), vars) == Some(Con("Wrap", [Con("Only", [Int(5)])]))
  {
    hide FindVariant, FindLocal, IsVariant, PayloadOf;
    OnlyVariants();
    var w := World(ONLY, op, ext, true);
    assert IsVariant(ONLY, "Only") && IsVariant(ONLY, "Wrap") by { OnlyAreVariants(); }
    EvalOne(w, IntLit(5), vars, Int(5));
    EvalOne(w, Call("Only", [IntLit(5)]), vars, Con("Only", [Int(5)]));
    assert PayloadField("i32") == "payload_i32" && PayloadField("O") == "payload_ptr";
  }

  lemma OnlyAreVariants()
    ensures IsVariant(ONLY, "Only") && IsVariant(ONLY, "Wrap")
  {
    OnlyVariants();
  }

  /** A name inside a pattern inside a pattern is not bound: `match Wrap(Only(5)) { Wrap(Only(y))
      -> return y }` returns what `y` was before. */
  lemma ANestedNameIsNotBound(op: (string, int, int) -> Option<int>, ext: (string, string, seq<Value>) -> Option<Value>)
    ensures var w := World(ONLY, op, ext, true);
            var p := Call("Wrap", [Call("Only", [Ident("y")])]);
            var s := Match(Call("Wrap", [Call("Only", [IntLit(5)])]), [p], [Return(Ident("y"))]);
            var st := State(map["y" := Int(1)], []);
            Declared(ONLY) && Total(ONLY, p.args[0]) && !FlatPattern(ONLY, p)
            && Exec(w, s, st, 0) == Some(Returned(Int(5), []))
            && Exec(Target(w), LowerStm(ONLY, s), LoweredState(ONLY, st), 0) == Some(Returned(Int(1), []))
  {
    var w := World(ONLY, op, ext, true);
    var q := Call("Only", [Ident("y")]);
    var p := Call("Wrap", [q]);
    var value, v := Call("Wrap", [Call("Only", [IntLit(5)])]), Con("Wrap", [Con("Only", [Int(5)])]);
    var st := State(map["y" := Int(1)], []);
    OnlyVariants();
    FiveIsWrapped(op, ext, st.vars);
    assert NamesPayload(ONLY, Ident("y"));
    assert OnlyVariant(ONLY, "Only");
    assert Total(ONLY, q) && !TakesAnything(ONLY, q) && !FlatPattern(ONLY, p);
    NestedRuns(w, p, value, v, st);
    TagDecides(w, value, v, [p], [Return(Ident("y"))], st);
    LostName(w, p, LowerExp(ONLY, value), "y", st);
  }

  lemma NestedRuns(w: World, p: Exp, value: Exp, v: Value, st: State)
    requires w.adts == ONLY && w.source && p == Call("Wrap", [Call("Only", [Ident("y")])]) && v == Con("Wrap", [Con("Only", [Int(5)])])
    requires Declared(ONLY) && Eval(w, value, st.vars) == Some(v)
    ensures Exec(w, Match(value, [p], [Return(Ident("y"))]), st, 0) == Some(Returned(Int(5), st.printed))
  {
    hide Eval;
    OnlyVariants();
    var q := Call("Only", [Ident("y")]);
    assert Takes(w, q, v.payload[0], st.vars) == Some(true);
    assert Takes(w, p, v, st.vars) == Some(true);
    assert Matched(ONLY, q, v.payload[0], st.vars) == Some(st.vars["y" := Int(5)]);
    assert Matched(ONLY, p, v, st.vars) == Some(st.vars["y" := Int(5)]);
    var bound := st.(vars := st.vars["y" := Int(5)]);
    ReturnsVariable(w, "y", bound, Int(5));
    hide Exec;
    MatchRuns(w, Match(value, [p], [Return(Ident("y"))]), v, st, 0);
  }
}
