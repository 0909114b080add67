/**
  The lowering of variants as it runs: it reads nodes of the arenas, appends new ones, and
  returns their positions.
 */
module AdtDesugar {
  import opened AdtLowering
  import opened AdtArena

  class Desugarer {
    const adts: seq<Adt>
    var es: seq<ENode>
    var st: seq<SNode>

    constructor (adts: seq<Adt>, es: seq<ENode>, st: seq<SNode>)
      requires Declared(adts) && Sound(es, st)
      ensures Valid() && this.adts == adts && this.es == es && this.st == st
    {
      this.adts, this.es, this.st := adts, es, st;
    }

    ghost predicate Valid()
      reads this
    {
      Declared(adts) && Sound(es, st)
    }

    ghost predicate HoldsExp(idx: int, e: Exp)
      reads this
    {
      idx < |es| && ExpAt(es, idx) == e
    }

    ghost predicate HoldsStm(idx: int, s: Stm)
      reads this
    {
      idx < |st| && StmAt(es, st, idx) == s
    }

    // ----- new nodes -----

    method AddExp(n: ENode) returns (idx: int)
      requires Valid() && InExprs(n, |es|)
      modifies `es
      ensures Valid() && old(es) <= es && idx == |old(es)|
      ensures HoldsExp(idx, Exp(n.tag, n.text, n.num, n.flt, ExpAt(old(es), n.left), ExpAt(old(es), n.right),
                                ExpsAt(old(es), n.args), n.names))
    {
      hide ExpAt, Sound, ExpsAt;
      NewExp(es, st, n);
      idx := |es|;
      es := es + [n];
    }

    method AddStm(n: SNode) returns (idx: int)
      requires Valid() && InStmts(n, |es|, |st|)
      modifies `st
      ensures Valid() && old(st) <= st && idx == |old(st)|
      ensures HoldsStm(idx, Stm(n.tag, n.name, n.ty, ExpAt(es, n.value), if n.tag == "if" then Hole else ExpAt(es, n.assign),
                                StmAt(es, old(st), n.body), if n.tag == "if" then StmAt(es, old(st), n.assign) else NoStm,
                                StmsAt(es, old(st), Children(n)), ExpsAt(es, n.patterns), StmsAt(es, old(st), n.bodies)))
    {
      hide ExpAt, StmAt, Sound, ExpsAt, StmsAt, Children, InStmts;
      NewStm(es, st, n);
      idx := |st|;
      st := st + [n];
    }

    method AddLeaf(tag: string, text: string, num: int) returns (idx: int)
      requires Valid()
      modifies `es
      ensures Valid() && old(es) <= es && idx == |old(es)|
      ensures HoldsExp(idx, Exp(tag, text, num, 0.0, Hole, Hole, [], []))
    {
      idx := AddExp(ENode(tag, text, num, 0.0, -1, -1, [], []));
    }

    method AddBinop(op: string, left: int, right: int) returns (idx: int)
      requires Valid() && left < |es| && right < |es|
      modifies `es
      ensures Valid() && old(es) <= es && idx == |old(es)|
      ensures HoldsExp(idx, Binop(op, ExpAt(old(es), left), ExpAt(old(es), right)))
    {
      hide ExpAt;
      idx := AddExp(ENode("binop", op, 0, 0.0, left, right, [], []));
    }

    method AddField(left: int, name: string) returns (idx: int)
      requires Valid() && left < |es|
      modifies `es
      ensures Valid() && old(es) <= es && idx == |old(es)|
      ensures HoldsExp(idx, Field(ExpAt(old(es), left), name))
    {
      assert ExpAt(es, -1) == Hole;
      hide ExpAt;
      idx := AddExp(ENode("field", name, 0, 0.0, left, -1, [], []));
    }

    method AddCall(name: string, args: seq<int>) returns (idx: int)
      requires Valid() && Below(args, |es|)
      modifies `es
      ensures Valid() && old(es) <= es && idx == |old(es)|
      ensures HoldsExp(idx, Call(name, ExpsAt(old(es), args)))
    {
      assert ExpAt(es, -1) == Hole;
      hide ExpAt;
      idx := AddExp(ENode("call", name, 0, 0.0, -1, -1, args, []));
    }

    method AddRecord(ty: string, names: seq<string>, values: seq<int>) returns (idx: int)
      requires Valid() && Below(values, |es|)
      modifies `es
      ensures Valid() && old(es) <= es && idx == |old(es)|
      ensures HoldsExp(idx, Record(ty, names, ExpsAt(old(es), values)))
    {
      assert ExpAt(es, -1) == Hole;
      hide ExpAt;
      idx := AddExp(ENode("struct_literal", ty, 0, 0.0, -1, -1, values, names));
    }

    method AddSimple(tag: string, name: string, ty: string, value: int, assign: int) returns (idx: int)
      requires Valid() && value < |es| && assign < |es| && tag !in {"if", "match"}
      modifies `st
      ensures Valid() && old(st) <= st && idx == |old(st)|
      ensures HoldsStm(idx, Simple(tag, name, ty, ExpAt(es, value), ExpAt(es, assign)))
    {
      assert StmAt(es, st, -1) == NoStm;
      hide ExpAt, StmAt;
      idx := AddStm(SNode(tag, name, ty, value, assign, -1, [], -1, 0, [], []));
    }

    method AddBlock(stmts: seq<int>) returns (idx: int)
      requires Valid() && Below(stmts, |st|)
      modifies `st
      ensures Valid() && old(st) <= st && idx == |old(st)|
      ensures HoldsStm(idx, Block(StmsAt(es, old(st), stmts)))
    {
      assert StmAt(es, st, -1) == NoStm && ExpAt(es, -1) == Hole;
      hide ExpAt, StmAt;
      var n := SNode("block", "", "", -1, -1, -1, stmts, -1, 0, [], []);
      assert Children(n) == stmts;
      idx := AddStm(n);
    }

    method AddIf(cond: int, then_: int, else_: int) returns (idx: int)
      requires Valid() && cond < |es| && then_ < |st| && else_ < |st|
      modifies `st
      ensures Valid() && old(st) <= st && idx == |old(st)|
      ensures HoldsStm(idx, If(ExpAt(es, cond), StmAt(es, old(st), then_), StmAt(es, old(st), else_)))
    {
      hide ExpAt, StmAt;
      idx := AddStm(SNode("if", "", "", cond, else_, then_, [], -1, 0, [], []));
    }

    method AddLoop(tag: string, name: string, value: int, assign: int, body: int) returns (idx: int)
      requires Valid() && value < |es| && assign < |es| && body < |st| && tag in {"while", "for_range"}
      modifies `st
      ensures Valid() && old(st) <= st && idx == |old(st)|
      ensures HoldsStm(idx, Stm(tag, name, "", ExpAt(es, value), ExpAt(es, assign), StmAt(es, old(st), body), NoStm, [], [], []))
    {
      hide ExpAt, StmAt;
      idx := AddStm(SNode(tag, name, "", value, assign, body, [], -1, 0, [], []));
    }

    method AddMatch(subject: int, patterns: seq<int>, bodies: seq<int>) returns (idx: int)
      requires Valid() && subject < |es| && Below(patterns, |es|) && Below(bodies, |st|) && |bodies| == |patterns|
      modifies `st
      ensures Valid() && old(st) <= st && idx == |old(st)|
      ensures HoldsStm(idx, Match(ExpAt(es, subject), ExpsAt(es, patterns), StmsAt(es, old(st), bodies)))
    {
      assert StmAt(es, st, -1) == NoStm && ExpAt(es, -1) == Hole;
      hide ExpAt, StmAt;
      idx := AddStm(SNode("match", "", "", subject, -1, -1, [], -1, 0, patterns, bodies));
    }

    // ----- lookups -----

    method FindVariantIn(name: string) returns (i: int)
      requires Declared(adts)
      ensures i == FindVariant(adts, name)
    {
      i := 0;
      while i < |adts|
        invariant 0 <= i <= |adts| && VariantFrom(adts, name, i) == FindVariant(adts, name)
      {
        var j := 0;
        while j < |adts[i].variants|
          invariant j <= |adts[i].variants| && name !in adts[i].variants[..j]
        {
          if adts[i].variants[j] == name { return; }
          j := j + 1;
        }
        assert adts[i].variants[..j] == adts[i].variants;
        i := i + 1;
      }
      i := -1;
    }

    method FindVariantLocal(name: string) returns (j: int)
      requires Declared(adts)
      ensures j == FindLocal(adts, name)
    {
      var i := 0;
      while i < |adts|
        invariant 0 <= i <= |adts| && VariantFrom(adts, name, i) == FindVariant(adts, name)
      {
        j := 0;
        while j < |adts[i].variants|
          invariant 0 <= j <= |adts[i].variants| && name !in adts[i].variants[..j]
          invariant IndexFrom(adts[i].variants, name, j) == IndexFrom(adts[i].variants, name, 0)
        {
          if adts[i].variants[j] == name { return; }
          j := j + 1;
        }
        assert adts[i].variants[..j] == adts[i].variants;
        i := i + 1;
      }
      j := -1;
    }
  
    // ----- expressions -----

    /** The lanes before a payload is put in. */
    method EmptyLanes(local: int) returns (values: seq<int>)
      requires Valid()
      modifies `es
      ensures Valid() && old(es) <= es && |values| == |LANES| && Below(values, |es|)
      ensures forall j :: 0 <= j < |LANES| ==> HoldsExp(values[j], Lanes(local, "", Hole)[j])
    {
      hide ExpAt, Sound;
      var a := AddLeaf("int", "", local);
      ghost var es1 := es;
      var b := AddLeaf("int", "", 0);
      ghost var es2 := es;
      var c := AddLeaf("string", "", 0);
      ghost var es3 := es;
      var d := AddLeaf("int", "", 0);
      ghost var es4 := es;
      var e := AddLeaf("float", "", 0);
      ExpKept(es1, es, a);
      ExpKept(es2, es, b);
      ExpKept(es3, es, c);
      ExpKept(es4, es, d);
      values := [a, b, c, d, e];
    }

    /** One value goes in the place of the lane with its name. */
    static lemma LaneAt(local: int, lane: string, payload: Exp, j: nat)
      requires j < |LANES|
      ensures Lanes(local, lane, payload)[j] == if LANES[j] == lane then payload else Lanes(local, "", Hole)[j]
    {
    }

    static lemma LanesHeld(es: seq<ENode>, values: seq<int>, local: int, lane: string, payload: Exp)
      requires |values| == |LANES|
      requires forall j :: 0 <= j < |LANES| ==>
                 ExpAt(es, values[j]) == if LANES[j] == lane then payload else Lanes(local, "", Hole)[j]
      ensures ExpsAt(es, values) == Lanes(local, lane, payload)
    {
      hide Lanes, ExpAt;
      forall j | 0 <= j < |LANES| ensures ExpsAt(es, values)[j] == Lanes(local, lane, payload)[j] {
        LaneAt(local, lane, payload, j);
      }
    }

    method AdtLiteral(name: string, args: seq<int>, expected: string, ghost bound: nat) returns (out: int)
      requires Valid() && IsVariant(adts, name) && Below(args, bound) && bound <= |es|
      modifies `es
      ensures Valid() && old(es) <= es
      ensures HoldsExp(out, AdtRecord(adts, name, LowerExps(adts, ExpsAt(old(es), args)), expected))
      decreases bound, 3
    {
      hide ExpAt, Sound, LowerExp, LowerExps, Lanes, FindVariant, FindLocal, TypeBase;
      ghost var es0 := es;
      var decl := FindVariantIn(name);
      var local := FindVariantLocal(name);
      var ty := adts[decl].payloads[local];
      var values := EmptyLanes(local);
      var lane := "";
      ghost var payload := Hole;
      if ty != "" && |args| > 0 {
        lane := AdtPayloadField(ty);
        payload := LowerExp(adts, ExpAt(es0, args[0]));
        for i := 0 to |LANES|
          invariant Valid() && es0 <= es && |values| == |LANES| && Below(values, |es|)
          invariant forall j :: 0 <= j < i ==> ExpAt(es, values[j]) == if LANES[j] == lane then payload else Lanes(local, "", Hole)[j]
          invariant forall j :: i <= j < |LANES| ==> ExpAt(es, values[j]) == Lanes(local, "", Hole)[j]
        {
          if LANES[i] == lane {
            ghost var before := es;
            ExpKept(es0, es, args[0]);
            var value := DesugarExpr(args[0]);
            AllKept(before, es, values);
            values := values[i := value];
          }
        }
        LowerExpsAt(adts, ExpsAt(es0, args), 0);
      } else {
        NoLane();
      }
      LanesHeld(es, values, local, lane, payload);
      var base := TypeBaseName(expected);
      out := AddRecord(base, LANES, values);
      LanesOfRecord(name, LowerExps(adts, ExpsAt(es0, args)), lane, payload);
    }

    lemma LanesOfRecord(name: string, args: seq<Exp>, lane: string, payload: Exp)
      requires Declared(adts) && IsVariant(adts, name)
      requires var ty := PayloadOf(adts, name);
               if ty == "" || args == [] then lane == "" else lane == PayloadField(ty) && payload == args[0]
      ensures forall expected :: AdtRecord(adts, name, args, expected)
                                 == Record(TypeBase(expected), LANES, Lanes(FindLocal(adts, name), lane, payload))
    {
    }

    static lemma NoLane()
      ensures "" !in LANES
    {
    }

    static lemma AllKept(before: seq<ENode>, after: seq<ENode>, values: seq<int>)
      requires before <= after && Below(values, |before|)
      ensures forall j :: 0 <= j < |values| ==> ExpAt(after, values[j]) == ExpAt(before, values[j])
    {
      forall j | 0 <= j < |values| ensures ExpAt(after, values[j]) == ExpAt(before, values[j]) {
        ExpKept(before, after, values[j]);
      }
    }

    method DesugarExpr(idx: int) returns (out: int)
      requires Valid() && idx < |es|
      modifies `es
      ensures Valid() && old(es) <= es && HoldsExp(out, LowerExp(adts, ExpAt(old(es), idx)))
      decreases idx, 4
    {
      hide ExpAt, Sound, LowerExps, AdtRecord, FindVariant, FindLocal;
      if idx < 0 {
        NegativeIsHole(idx);
        return idx;
      }
      ghost var es0 := es;
      ExpParts(es, st, idx);
      var n := es[idx];
      if n.tag == "ident" {
        var decl := FindVariantIn(n.text);
        if decl >= 0 {
          var local := FindVariantLocal(n.text);
          if adts[decl].payloads[local] == "" {
            out := AddCall(n.text, []);
            assert ExpsAt(es0, []) == [];
            return;
          }
        }
        out := idx;
      } else if n.tag == "call" {
        var decl := FindVariantIn(n.text);
        if decl >= 0 {
          out := AdtLiteral(n.text, n.args, adts[decl].name, idx);
        } else {
          var args := DesugarExprs(n.args, idx);
          out := AddCall(n.text, args);
        }
      } else if n.tag == "struct_literal" {
        var args := DesugarExprs(n.args, idx);
        var base := TypeBaseName(n.text);
        out := AddRecord(base, n.names, args);
      } else if Rebuilt(n.tag) {
        out := Rebuild(n, idx);
      } else if n.tag == "option" && n.left >= 0 {
        out := DesugarSome(n.left);
        PartIsThere(es0, n.left);
      } else {
        if n.left < 0 { NegativeIsHole(n.left); }
        out := idx;
      }
    }

    static lemma PartIsThere(es: seq<ENode>, idx: nat)
      requires idx < |es|
      ensures !ExpAt(es, idx).Hole?
    {
    }

    method DesugarSome(left: nat) returns (out: int)
      requires Valid() && left < |es|
      modifies `es
      ensures Valid() && old(es) <= es && HoldsExp(out, SomeExp(LowerExp(adts, ExpAt(old(es), left))))
      decreases left, 5
    {
      hide ExpAt, Sound, LowerExp;
      var value := DesugarExpr(left);
      NoneLowered();
      NegativeIsHole(-1);
      out := AddExp(ENode("option", "", 0, 0.0, value, -1, [], []));
    }

    static lemma NegativeIsHole(idx: int)
      requires idx < 0
      ensures forall es :: ExpAt(es, idx) == Hole
      ensures forall es, st :: StmAt(es, st, idx) == NoStm
    {
    }

    /** The forms that are made again from their lowered parts. */
    method Rebuild(n: ENode, ghost bound: nat) returns (out: int)
      requires Valid() && InExprs(n, bound) && bound <= |es| && Rebuilt(n.tag)
      modifies `es
      ensures Valid() && old(es) <= es
      ensures HoldsExp(out, Exp(n.tag, n.text, 0, 0.0, LowerExp(adts, ExpAt(old(es), n.left)), LowerExp(adts, ExpAt(old(es), n.right)),
                                LowerExps(adts, ExpsAt(old(es), n.args)), []))
      decreases bound, 3
    {
      hide ExpAt, Sound, LowerExp, LowerExps;
      ghost var es0 := es;
      var left := DesugarExpr(n.left);
      ghost var es1 := es;
      ExpKept(es0, es, n.right);
      var right := DesugarExpr(n.right);
      ghost var es2 := es;
      ExpsKept(es0, es, n.args);
      var args := DesugarExprs(n.args, bound);
      ExpKept(es1, es, left);
      ExpKept(es2, es, right);
      out := AddExp(ENode(n.tag, n.text, 0, 0.0, left, right, args, []));
    }

    method DesugarExprs(idxs: seq<int>, ghost bound: nat) returns (out: seq<int>)
      requires Valid() && Below(idxs, bound) && bound <= |es|
      modifies `es
      ensures Valid() && old(es) <= es && Below(out, |es|) && |out| == |idxs|
      ensures ExpsAt(es, out) == LowerExps(adts, ExpsAt(old(es), idxs))
      decreases bound, 2
    {
      hide ExpAt, Sound, LowerExp, LowerExps;
      ghost var es0 := es;
      out := [];
      for i := 0 to |idxs|
        invariant Valid() && es0 <= es && |out| == i && Below(out, |es|)
        invariant forall j :: 0 <= j < i ==> ExpAt(es, out[j]) == LowerExp(adts, ExpAt(es0, idxs[j]))
      {
        ghost var before := es;
        ExpKept(es0, es, idxs[i]);
        var next := DesugarExpr(idxs[i]);
        AllKept(before, es, out);
        out := out + [next];
      }
      forall j: nat | j < |idxs| ensures ExpsAt(es, out)[j] == LowerExps(adts, ExpsAt(es0, idxs))[j] {
        LowerExpsAt(adts, ExpsAt(es0, idxs), j);
      }
    }

    method DesugarExpected(idx: int, expected: string) returns (out: int)
      requires Valid() && idx < |es|
      modifies `es
      ensures Valid() && old(es) <= es && HoldsExp(out, LowerExpected(adts, ExpAt(old(es), idx), expected))
    {
      hide ExpAt, Sound, LowerExp, LowerExps, AdtRecord, FindVariant;
      if idx < 0 {
        NegativeIsHole(idx);
        HoleStays();
        return idx;
      }
      ExpParts(es, st, idx);
      var n := es[idx];
      if expected != "" && (n.tag == "call" || n.tag == "ident") {
        var decl := FindVariantIn(n.text);
        if decl >= 0 {
          if n.tag == "call" {
            out := AdtLiteral(n.text, n.args, expected, idx);
          } else {
            out := AdtLiteral(n.text, [], expected, idx);
            NoneLowered();
          }
          return;
        }
      }
      out := DesugarExpr(idx);
    }

    lemma HoleStays()
      requires Declared(adts)
      ensures LowerExp(adts, Hole) == Hole
    {
    }

    lemma NoneLowered()
      requires Declared(adts)
      ensures LowerExps(adts, []) == [] && forall es :: ExpsAt(es, []) == []
    {
    }

    method DeclaredTypeOf(idx: int, ty: string) returns (r: string)
      requires Valid() && idx < |es|
      ensures r == DeclaredType(adts, ExpAt(es, idx), ty)
    {
      hide FindVariant;
      if ty != "" { return ty; }
      if idx < 0 { return ""; }
      ExpParts(es, st, idx);
      var n := es[idx];
      if n.tag == "call" || n.tag == "ident" {
        var decl := FindVariantIn(n.text);
        if decl >= 0 { return adts[decl].name; }
      }
      r := "";
    }

    /** The function of a variant: its body returns the record of its parameter. */
    method CtorFunction(d: Adt, local: nat) returns (body: int)
      requires Valid() && local < |d.payloads|
      modifies this
      ensures Valid() && old(es) <= es && old(st) <= st
      ensures HoldsStm(body, CtorBody(d, local))
    {
      hide ExpAt, StmAt, Sound, Lanes;
      var ty := d.payloads[local];
      var values := EmptyLanes(local);
      var lane := "";
      if ty != "" {
        lane := AdtPayloadField(ty);
        for i := 0 to |LANES|
          invariant Valid() && old(es) <= es && st == old(st) && |values| == |LANES| && Below(values, |es|)
          invariant forall j :: 0 <= j < i ==>
                      ExpAt(es, values[j]) == if LANES[j] == lane then Ident("value") else Lanes(local, "", Hole)[j]
          invariant forall j :: i <= j < |LANES| ==> ExpAt(es, values[j]) == Lanes(local, "", Hole)[j]
        {
          if LANES[i] == lane {
            ghost var before := es;
            var value := AddLeaf("ident", "value", 0);
            AllKept(before, es, values);
            values := values[i := value];
          }
        }
      } else {
        NoLane();
      }
      LanesHeld(es, values, local, lane, Ident("value"));
      var record := AddRecord(d.name, LANES, values);
      NegativeIsHole(-1);
      var ret := AddSimple("return_expr", "", "", record, -1);
      ghost var st1 := st;
      body := AddBlock([ret]);
      assert StmsAt(es, st1, [ret]) == [Return(CtorRecord(d, local))];
    }

    // ----- statements -----

    method DesugarStmt(idx: int) returns (out: int)
      requires Valid() && idx < |st|
      modifies this
      ensures Valid() && old(es) <= es && old(st) <= st
      ensures HoldsStm(out, LowerStm(adts, StmAt(old(es), old(st), idx)))
      decreases idx, 5
    {
      hide ExpAt, StmAt, Sound, LowerExp, LowerExpected, LowerStms, MatchChain, DeclaredType, Children;
      NegativeIsHole(-1);
      if idx < 0 {
        NegativeIsHole(idx);
        return idx;
      }
      StmParts(es, st, idx);
      var n := st[idx];
      if n.tag == "return_expr" {
        var value := DesugarExpr(n.value);
        out := AddSimple("return_expr", "", "", value, -1);
      } else if n.tag == "let" {
        var ty := DeclaredTypeOf(n.assign, n.ty);
        var value := DesugarExpected(n.assign, ty);
        out := AddSimple("let", n.name, ty, -1, value);
      } else if n.tag == "assign" {
        var value := DesugarExpr(n.assign);
        out := AddSimple("assign", n.name, "", -1, value);
      } else if n.tag == "expr" || n.tag == "print" {
        var value := DesugarExpr(n.value);
        out := AddSimple(n.tag, "", "", value, -1);
      } else if n.tag == "block" {
        var stmts := DesugarStmts(Children(n), idx);
        out := AddBlock(stmts);
      } else if n.tag == "if" {
        out := DesugarIf(n, idx);
      } else if n.tag == "while" || n.tag == "for_range" {
        out := DesugarLoop(n, idx);
      } else if n.tag == "match" {
        out := DesugarMatch(n, idx);
      } else {
        out := idx;
      }
    }

    method DesugarIf(n: SNode, ghost bound: nat) returns (out: int)
      requires Valid() && InStmts(n, |es|, bound) && bound <= |st| && n.tag == "if"
      modifies this
      ensures Valid() && old(es) <= es && old(st) <= st
      ensures HoldsStm(out, If(LowerExp(adts, ExpAt(old(es), n.value)), LowerStm(adts, StmAt(old(es), old(st), n.body)),
                               LowerStm(adts, StmAt(old(es), old(st), n.assign))))
      decreases bound, 4
    {
      hide ExpAt, StmAt, Sound, LowerExp, LowerStm, Children;
      ghost var es0, st0 := es, st;
      var cond := DesugarExpr(n.value);
      ghost var es1 := es;
      StmKept(es0, st0, es, st, n.body);
      var then_ := DesugarStmt(n.body);
      ghost var es2, st2 := es, st;
      StmKept(es0, st0, es, st, n.assign);
      var else_ := DesugarStmt(n.assign);
      ExpKept(es1, es, cond);
      StmKept(es2, st2, es, st, then_);
      out := AddIf(cond, then_, else_);
    }

    method DesugarLoop(n: SNode, ghost bound: nat) returns (out: int)
      requires Valid() && InStmts(n, |es|, bound) && bound <= |st| && n.tag in {"while", "for_range"}
      modifies this
      ensures Valid() && old(es) <= es && old(st) <= st
      ensures var cond, body := LowerExp(adts, ExpAt(old(es), n.value)), LowerStm(adts, StmAt(old(es), old(st), n.body));
              HoldsStm(out, if n.tag == "while" then While(cond, body)
                            else ForRange(n.name, cond, LowerExp(adts, ExpAt(old(es), n.assign)), body))
      decreases bound, 4
    {
      hide ExpAt, StmAt, Sound, LowerExp, LowerStm, Children;
      ghost var es0, st0 := es, st;
      var cond := DesugarExpr(n.value);
      ghost var es1 := es;
      var name, to := "", -1;
      if n.tag == "for_range" {
        name := n.name;
        ExpKept(es0, es, n.assign);
        to := DesugarExpr(n.assign);
      } else {
        NegativeIsHole(-1);
      }
      ghost var es2 := es;
      StmKept(es0, st0, es, st, n.body);
      var body := DesugarStmt(n.body);
      ExpKept(es1, es, cond);
      ExpKept(es2, es, to);
      out := AddLoop(n.tag, name, cond, to, body);
    }

    static lemma AllStmKept(es: seq<ENode>, st: seq<SNode>, more: seq<ENode>, longer: seq<SNode>, idxs: seq<int>)
      requires Sound(es, st) && es <= more && st <= longer && Below(idxs, |st|)
      ensures forall j :: 0 <= j < |idxs| ==> StmAt(more, longer, idxs[j]) == StmAt(es, st, idxs[j])
    {
      forall j | 0 <= j < |idxs| ensures StmAt(more, longer, idxs[j]) == StmAt(es, st, idxs[j]) {
        StmKept(es, st, more, longer, idxs[j]);
      }
    }

    method DesugarStmts(idxs: seq<int>, ghost bound: nat) returns (out: seq<int>)
      requires Valid() && Below(idxs, bound) && bound <= |st|
      modifies this
      ensures Valid() && old(es) <= es && old(st) <= st && Below(out, |st|) && |out| == |idxs|
      ensures StmsAt(es, st, out) == LowerStms(adts, StmsAt(old(es), old(st), idxs))
      decreases bound, 3
    {
      hide ExpAt, StmAt, Sound, LowerStm, LowerStms;
      ghost var es0, st0 := es, st;
      out := [];
      for i := 0 to |idxs|
        invariant Valid() && es0 <= es && st0 <= st && |out| == i && Below(out, |st|)
        invariant forall j :: 0 <= j < i ==> StmAt(es, st, out[j]) == LowerStm(adts, StmAt(es0, st0, idxs[j]))
      {
        ghost var es1, st1 := es, st;
        StmKept(es0, st0, es, st, idxs[i]);
        var next := DesugarStmt(idxs[i]);
        AllStmKept(es1, st1, es, st, out);
        out := out + [next];
      }
      forall j: nat | j < |idxs| ensures StmsAt(es, st, out)[j] == LowerStms(adts, StmsAt(es0, st0, idxs))[j] {
        LowerStmsAt(adts, StmsAt(es0, st0, idxs), j);
      }
    }

    // ----- matches -----

    method IsCtorPattern(pattern: int) returns (yes: bool)
      requires Valid() && 0 <= pattern < |es|
      ensures yes == IsCtor(adts, ExpAt(es, pattern))
    {
      hide FindVariant, FindLocal, Sound;
      ExpParts(es, st, pattern);
      var n := es[pattern];
      yes := false;
      if n.tag == "call" || n.tag == "ident" {
        var local := FindVariantLocal(n.text);
        yes := local >= 0;
      }
    }

    method MatchHasAdtPattern(patterns: seq<int>) returns (yes: bool)
      requires Valid() && Below(patterns, |es|)
      ensures yes == exists k :: 0 <= k < |patterns| && IsCtor(adts, ExpsAt(es, patterns)[k])
    {
      hide ExpAt, Sound, IsCtor;
      yes := false;
      for i := 0 to |patterns|
        invariant forall k :: 0 <= k < i ==> !IsCtor(adts, ExpsAt(es, patterns)[k])
      {
        if patterns[i] >= 0 {
          yes := IsCtorPattern(patterns[i]);
          assert yes ==> IsCtor(adts, ExpsAt(es, patterns)[i]);
          if yes { return; }
        } else {
          NegativeIsHole(patterns[i]);
          HoleIsNoCtor();
        }
      }
    }

    lemma HoleIsNoCtor()
      ensures !IsCtor(adts, Hole)
    {
    }

    method DesugarMatch(n: SNode, ghost bound: nat) returns (out: int)
      requires Valid() && InStmts(n, |es|, bound) && bound <= |st| && n.tag == "match"
      modifies this
      ensures Valid() && old(es) <= es && old(st) <= st
      ensures var subject, patterns, bodies :=
                LowerExp(adts, ExpAt(old(es), n.value)), ExpsAt(old(es), n.patterns), StmsAt(old(es), old(st), n.bodies);
              HoldsStm(out, if exists k :: 0 <= k < |patterns| && IsCtor(adts, patterns[k])
                            then MatchChain(adts, subject, patterns, bodies, 0)
                            else Match(subject, patterns, LowerStms(adts, bodies)))
      decreases bound, 4
    {
      hide ExpAt, StmAt, Sound, LowerExp, LowerStms, MatchChain, IsCtor, Children;
      ghost var es0, st0 := es, st;
      var subject := DesugarExpr(n.value);
      ExpsKept(es0, es, n.patterns);
      StmsKept(es0, st0, es, st, n.bodies);
      var chain := MatchHasAdtPattern(n.patterns);
      if chain {
        out := MatchStmtFrom(subject, n.patterns, n.bodies, 0, bound);
      } else {
        ghost var es1 := es;
        var bodies := DesugarStmts(n.bodies, bound);
        ExpKept(es1, es, subject);
        ExpsKept(es0, es, n.patterns);
        out := AddMatch(subject, n.patterns, bodies);
      }
    }

    /** The chain of tests from one arm on. */
    method MatchStmtFrom(subject: int, patterns: seq<int>, bodies: seq<int>, arm: nat, ghost bound: nat) returns (out: int)
      requires Valid() && subject < |es| && Below(patterns, |es|) && Below(bodies, bound) && bound <= |st| && |bodies| == |patterns|
      modifies this
      ensures Valid() && old(es) <= es && old(st) <= st
      ensures HoldsStm(out, MatchChain(adts, ExpAt(old(es), subject), ExpsAt(old(es), patterns), StmsAt(old(es), old(st), bodies), arm))
      decreases bound, 3, |patterns| - arm
    {
      hide ExpAt, StmAt, Sound, LowerExp, ArmBody, BoundBody, IsCtor, FindLocal;
      ghost var es0, st0 := es, st;
      ghost var trees, arms := ExpsAt(es, patterns), StmsAt(es, st, bodies);
      if arm >= |patterns| {
        out := AddBlock([]);
        assert StmsAt(es, st0, []) == [];
        return;
      }
      var pattern := patterns[arm];
      if pattern < 0 {
        NegativeIsHole(pattern);
        out := MatchArmBody(bodies[arm]);
        return;
      }
      PatternIsThere(pattern);
      var ctor := IsCtorPattern(pattern);
      var cond: int;
      ghost var test: Exp;
      if ctor {
        cond := TagTest(subject, pattern);
        test := Binop("==", Field(ExpAt(es0, subject), "tag"), IntLit(FindLocal(adts, ExpAt(es0, pattern).text)));
      } else {
        var value := DesugarExpr(pattern);
        ExpKept(es0, es, subject);
        cond := AddBinop("==", subject, value);
        test := Binop("==", ExpAt(es0, subject), LowerExp(adts, ExpAt(es0, pattern)));
      }
      ghost var es1 := es;
      ExpKept(es0, es, subject);
      ExpKept(es0, es, pattern);
      StmKept(es0, st0, es, st, bodies[arm]);
      var then_: int;
      if ctor {
        then_ := MatchBodyWithBinding(subject, pattern, bodies[arm]);
      } else {
        then_ := MatchArmBody(bodies[arm]);
      }
      ghost var es2, st2 := es, st;
      ExpKept(es0, es, subject);
      ExpsKept(es0, es, patterns);
      StmsKept(es0, st0, es, st, bodies);
      var else_ := MatchStmtFrom(subject, patterns, bodies, arm + 1, bound);
      ExpKept(es1, es, cond);
      StmKept(es2, st2, es, st, then_);
      out := AddIf(cond, then_, else_);
    }

    lemma PatternIsThere(pattern: int)
      requires Valid() && 0 <= pattern < |es|
      ensures ExpAt(es, pattern).Exp?
    {
    }

    method TagTest(subject: int, pattern: int) returns (cond: int)
      requires Valid() && subject < |es| && 0 <= pattern < |es|
      modifies `es
      ensures Valid() && old(es) <= es && ExpAt(old(es), pattern).Exp?
      ensures HoldsExp(cond, Binop("==", Field(ExpAt(old(es), subject), "tag"), IntLit(FindLocal(adts, ExpAt(old(es), pattern).text))))
    {
      hide ExpAt, Sound, FindLocal;
      ExpParts(es, st, pattern);
      var local := FindVariantLocal(es[pattern].text);
      var field := AddField(subject, "tag");
      ghost var es1 := es;
      var number := AddLeaf("int", "", local);
      ExpKept(es1, es, field);
      cond := AddBinop("==", field, number);
    }

    method MatchArmBody(idx: int) returns (out: int)
      requires Valid() && idx < |st|
      modifies this
      ensures Valid() && old(es) <= es && old(st) <= st
      ensures HoldsStm(out, ArmBody(adts, StmAt(old(es), old(st), idx)))
      decreases idx, 6, 0
    {
      hide ExpAt, StmAt, Sound, LowerExp, LowerStm, Children;
      NegativeIsHole(-1);
      if idx < 0 {
        NegativeIsHole(idx);
      } else {
        StmParts(es, st, idx);
        var n := st[idx];
        if n.tag == "expr" {
          var value := DesugarExpr(n.value);
          out := AddSimple("return_expr", "", "", value, -1);
          return;
        }
      }
      out := DesugarStmt(idx);
    }

    method MatchBodyWithBinding(subject: int, pattern: int, idx: int) returns (out: int)
      requires Valid() && subject < |es| && 0 <= pattern < |es| && idx < |st| && IsCtor(adts, ExpAt(es, pattern))
      modifies this
      ensures Valid() && old(es) <= es && old(st) <= st
      ensures HoldsStm(out, BoundBody(adts, ExpAt(old(es), subject), ExpAt(old(es), pattern), StmAt(old(es), old(st), idx)))
      decreases idx, 7
    {
      hide ExpAt, StmAt, Sound, ArmBody, LowerStm, FindVariant, FindLocal;
      ghost var es0, st0 := es, st;
      ExpParts(es, st, pattern);
      var p := es[pattern];
      if p.tag != "call" {
        out := DesugarStmt(idx);
        return;
      }
      if |p.args| == 0 || p.args[0] < 0 {
        NegativeIsHole(-1);
        assert |p.args| > 0 ==> ExpAt(es, p.args[0]) == Hole by { if |p.args| > 0 { NegativeIsHole(p.args[0]); } }
        out := MatchArmBody(idx);
        return;
      }
      var decl := FindVariantIn(p.text);
      var local := FindVariantLocal(p.text);
      var ty := adts[decl].payloads[local];
      ExpParts(es, st, p.args[0]);
      var bind := es[p.args[0]];
      if bind.tag != "ident" || bind.text == "_" {
        out := MatchArmBody(idx);
        return;
      }
      var nested := FindVariantIn(bind.text);
      if nested >= 0 {
        out := MatchArmBody(idx);
        return;
      }
      out := BindPayload(subject, bind.text, ty, idx);
    }

    method BindPayload(subject: int, name: string, ty: string, idx: int) returns (out: int)
      requires Valid() && subject < |es| && idx < |st|
      modifies this
      ensures Valid() && old(es) <= es && old(st) <= st
      ensures HoldsStm(out, Block([Let(name, StorageType(ty), Field(ExpAt(old(es), subject), PayloadField(ty))),
                                   ArmBody(adts, StmAt(old(es), old(st), idx))]))
      decreases idx, 6, 1
    {
      hide ExpAt, StmAt, Sound, ArmBody, PayloadField, StorageType;
      ghost var es0, st0 := es, st;
      var lane := AdtPayloadField(ty);
      var storage := AdtStorageType(ty);
      var field := AddField(subject, lane);
      NegativeIsHole(-1);
      var let_ := AddSimple("let", name, storage, -1, field);
      ghost var es1, st1 := es, st;
      StmKept(es0, st0, es, st, idx);
      var body := MatchArmBody(idx);
      StmKept(es1, st1, es, st, let_);
      ghost var st2 := st;
      out := AddBlock([let_, body]);
      assert StmsAt(es, st2, [let_, body]) == [StmAt(es, st2, let_), StmAt(es, st2, body)];
    }
  }

  /** The chain of prefix tests decides no more than the list of scalar types. */
  method PayloadIsPointer(ty: string) returns (yes: bool)
    ensures yes == (ty !in SCALARS)
  {
    if ty == "ptr" { return true; }
    if |ty| > 0 && (ty[0] == '[' || ty[0] == '?') { return true; }
    if |ty| > 3 && ty[..3] == "ptr" { return true; }
    if |ty| > 3 && ty[..3] == "fn(" { return true; }
    if |ty| > 7 && ty[..7] == "Option[" { return true; }
    yes := ty !in SCALARS;
  }

  method AdtPayloadField(ty: string) returns (lane: string)
    ensures lane == PayloadField(ty)
  {
    if ty == "string" { return "payload_string"; }
    if ty == "f32" || ty == "f64" { return "payload_f64"; }
    var pointer := PayloadIsPointer(ty);
    lane := if pointer then "payload_ptr" else "payload_i32";
  }

  method AdtStorageType(ty: string) returns (storage: string)
    ensures storage == StorageType(ty)
  {
    if ty == "string" { return "string"; }
    if ty == "f32" || ty == "f64" { return "f64"; }
    var pointer := PayloadIsPointer(ty);
    storage := if pointer then ty else "i32";
  }

  method TypeBaseName(ty: string) returns (base: string)
    ensures base == TypeBase(ty)
  {
    base := "";
    assert ty[0..] == ty;
    for i := 0 to |ty|
      invariant base + TypeBase(ty[i..]) == TypeBase(ty)
    {
      assert ty[i..][1..] == ty[i + 1..];
      if ty[i] == '[' || ty[i] == ':' { return; }
      base := base + [ty[i]];
    }
  }
}
