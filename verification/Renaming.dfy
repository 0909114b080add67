/**
  Giving every declaration a name of its own: what a statement means does not depend on the
  names, so statements whose declarations shadow each other have the meaning of statements
  whose declarations do not.
 */
module Renaming {
  import opened Options
  import opened Source
  import opened CodegenNames

  // ----- names that still mean their declaration -----

  /** Every name that the emitted part uses is one of `good`, the names that the flat table
      and the scopes take to the same declaration. Emitted declarations take names away, even
      those in other branches; a wildcard arm comes last. */
  predicate Found(s: Stmt, good: set<string>, inLoop: bool)
    decreases s, 1
  {
    match s
    case Let(_, e) => Reads(e) <= good
    case Assign(x, e) => Reads(e) <= good && x in good
    case PrintStmt(e) => Reads(e) <= good
    case ExprStmt(e) => Reads(e) <= good
    case Block(body) => FoundSeq(body, good, inLoop)
    case If(c, t, f) =>
      Reads(c) <= good && Found(t, good, inLoop) && (f.Some? ==> Found(f.value, good - Defines(t, inLoop), inLoop))
    case While(c, body) => Reads(c) <= good && Found(body, good, true)
    case ForRange(x, a, b, body) =>
      Reads(a) <= good && Reads(b) <= good && Found(body, good + {x}, true) && x !in Defines(body, true)
    case Match(subject, arms) => Reads(subject) <= good && FoundArms(arms, good, inLoop)
    case ReturnExpr(e) => Reads(e) <= good
    case _ => true
  }

  function GoodAfter(s: Stmt, good: set<string>, inLoop: bool): set<string> {
    if s.Let? then good + {s.name} else good - Defines(s, inLoop)
  }

  predicate FoundSeq(ss: seq<Stmt>, good: set<string>, inLoop: bool)
    decreases ss, 0
  {
    ss != [] ==>
      Found(ss[0], good, inLoop) && (Stops(ss[0], inLoop) || FoundSeq(ss[1..], GoodAfter(ss[0], good, inLoop), inLoop))
  }

  predicate FoundArms(arms: seq<Arm>, good: set<string>, inLoop: bool)
    decreases arms, 0
  {
    arms != [] ==>
      && (arms[0].pattern.None? ==> |arms| == 1)
      && FoundArm(arms[0], good, inLoop)
      && FoundArms(arms[1..], good - DefinesArm(arms[0], inLoop), inLoop)
  }

  predicate FoundArm(arm: Arm, good: set<string>, inLoop: bool)
    decreases arm, 0
  {
    (arm.pattern.Some? ==> Reads(arm.pattern.value) <= good) && Found(arm.body, good, inLoop)
  }

  predicate FoundFunction(f: Function) {
    Found(f.body, Elements(f.params), false)
  }

  lemma {:induction false} FoundMore(s: Stmt, good: set<string>, more: set<string>, inLoop: bool)
    requires Found(s, good, inLoop) && good <= more
    ensures Found(s, more, inLoop)
    decreases s, 1
  {
    hide Defines, Stops, Reads;
    match s
    case Block(body) => FoundMoreSeq(body, good, more, inLoop);
    case If(_, t, f) =>
      FoundMore(t, good, more, inLoop);
      if f.Some? { FoundMore(f.value, good - Defines(t, inLoop), more - Defines(t, inLoop), inLoop); }
    case While(_, body) => FoundMore(body, good, more, true);
    case ForRange(x, _, _, body) => FoundMore(body, good + {x}, more + {x}, true);
    case Match(_, arms) => FoundMoreArms(arms, good, more, inLoop);
    case _ =>
  }

  lemma {:induction false} FoundMoreSeq(ss: seq<Stmt>, good: set<string>, more: set<string>, inLoop: bool)
    requires FoundSeq(ss, good, inLoop) && good <= more
    ensures FoundSeq(ss, more, inLoop)
    decreases ss, 0
  {
    hide Defines, Stops, Found;
    if ss != [] {
      FoundMore(ss[0], good, more, inLoop);
      if !Stops(ss[0], inLoop) {
        FoundMoreSeq(ss[1..], GoodAfter(ss[0], good, inLoop), GoodAfter(ss[0], more, inLoop), inLoop);
      }
    }
  }

  lemma {:induction false} FoundMoreArms(arms: seq<Arm>, good: set<string>, more: set<string>, inLoop: bool)
    requires FoundArms(arms, good, inLoop) && good <= more
    ensures FoundArms(arms, more, inLoop)
    decreases arms, 0
  {
    hide Defines, Found;
    if arms != [] {
      FoundMoreArm(arms[0], good, more, inLoop);
      FoundMoreArms(arms[1..], good - DefinesArm(arms[0], inLoop), more - DefinesArm(arms[0], inLoop), inLoop);
    }
  }

  lemma {:induction false} FoundMoreArm(arm: Arm, good: set<string>, more: set<string>, inLoop: bool)
    requires FoundArm(arm, good, inLoop) && good <= more
    ensures FoundArm(arm, more, inLoop)
    decreases arm, 0
  {
    FoundMore(arm.body, good, more, inLoop);
  }

  // ----- programs without shadowing -----

  lemma {:induction false} ScopedDefines(s: Stmt, scope: set<string>, inLoop: bool)
    requires Scoped(s, scope)
    ensures Defines(s, inLoop) !! scope
    decreases s, 1
  {
    hide Stops, Reads;
    match s
    case Block(body) => ScopedSeqDefines(body, scope, inLoop);
    case If(_, t, f) =>
      ScopedDefines(t, scope, inLoop);
      if f.Some? { ScopedDefines(f.value, scope, inLoop); }
    case While(_, body) => ScopedDefines(body, scope, true);
    case ForRange(x, _, _, body) => ScopedDefines(body, scope + {x}, true);
    case Match(_, arms) => ScopedArmsDefine(arms, scope, inLoop);
    case _ =>
  }

  lemma {:induction false} ScopedSeqDefines(ss: seq<Stmt>, scope: set<string>, inLoop: bool)
    requires ScopedSeq(ss, scope)
    ensures DefinesSeq(ss, inLoop) !! scope
    decreases ss, 0
  {
    hide Stops, Defines, Scoped;
    if ss != [] {
      ScopedDefines(ss[0], scope, inLoop);
      ScopedSeqDefines(ss[1..], if ss[0].Let? then scope + {ss[0].name} else scope, inLoop);
    }
  }

  lemma {:induction false} ScopedArmsDefine(arms: seq<Arm>, scope: set<string>, inLoop: bool)
    requires ScopedArms(arms, scope)
    ensures DefinesArms(arms, inLoop) !! scope
    decreases arms, 0
  {
    hide Defines, Scoped;
    if arms != [] {
      ScopedArmDefines(arms[0], scope, inLoop);
      ScopedArmsDefine(arms[1..], scope, inLoop);
    }
  }

  lemma {:induction false} ScopedArmDefines(arm: Arm, scope: set<string>, inLoop: bool)
    requires ScopedArm(arm, scope)
    ensures DefinesArm(arm, inLoop) !! scope
    decreases arm, 0
  {
    ScopedDefines(arm.body, scope, inLoop);
  }

  /** Where no declaration shadows a name in scope, every name means its declaration. */
  lemma {:induction false} ScopedIsFound(s: Stmt, scope: set<string>, inLoop: bool)
    requires Scoped(s, scope)
    ensures Found(s, scope, inLoop)
    decreases s, 1
  {
    hide Stops, Reads, Defines;
    match s
    case Block(body) => ScopedSeqIsFound(body, scope, inLoop);
    case If(_, t, f) =>
      ScopedIsFound(t, scope, inLoop);
      ScopedDefines(t, scope, inLoop);
      assert scope - Defines(t, inLoop) == scope;
      if f.Some? { ScopedIsFound(f.value, scope, inLoop); }
    case While(_, body) => ScopedIsFound(body, scope, true);
    case ForRange(x, _, _, body) =>
      ScopedIsFound(body, scope + {x}, true);
      ScopedDefines(body, scope + {x}, true);
    case Match(_, arms) => ScopedArmsAreFound(arms, scope, inLoop);
    case _ =>
  }

  lemma {:induction false} ScopedSeqIsFound(ss: seq<Stmt>, scope: set<string>, inLoop: bool)
    requires ScopedSeq(ss, scope)
    ensures FoundSeq(ss, scope, inLoop)
    decreases ss, 0
  {
    hide Stops, Found, Defines, Scoped;
    if ss != [] {
      ScopedIsFound(ss[0], scope, inLoop);
      ScopedDefines(ss[0], scope, inLoop);
      ScopedSeqIsFound(ss[1..], if ss[0].Let? then scope + {ss[0].name} else scope, inLoop);
      assert !ss[0].Let? ==> scope - Defines(ss[0], inLoop) == scope;
    }
  }

  lemma {:induction false} ScopedArmsAreFound(arms: seq<Arm>, scope: set<string>, inLoop: bool)
    requires ScopedArms(arms, scope)
    ensures FoundArms(arms, scope, inLoop)
    decreases arms, 0
  {
    hide Found, Defines, Scoped;
    if arms != [] {
      ScopedArmIsFound(arms[0], scope, inLoop);
      ScopedArmDefines(arms[0], scope, inLoop);
      assert scope - DefinesArm(arms[0], inLoop) == scope;
      ScopedArmsAreFound(arms[1..], scope, inLoop);
    }
  }

  lemma {:induction false} ScopedArmIsFound(arm: Arm, scope: set<string>, inLoop: bool)
    requires ScopedArm(arm, scope)
    ensures FoundArm(arm, scope, inLoop)
    decreases arm, 0
  {
    ScopedIsFound(arm.body, scope, inLoop);
  }

  // ----- renaming -----

  /** For each name in scope, the number of its declaration. */
  type Numbers = map<string, nat>

  function Fresh(n: nat): (r: string)
    ensures |r| == n
  {
    seq(n, _ => 'v')
  }

  function Names(n: nat): (r: set<string>)
    ensures forall k :: 0 <= k < n ==> Fresh(k) in r
    ensures forall x :: x in r ==> |x| < n && x == Fresh(|x|)
  {
    if n == 0 then {} else Names(n - 1) + {Fresh(n - 1)}
  }

  /** Different names have different numbers, all below `n`. */
  predicate Numbered(m: Numbers, n: nat) {
    && (forall x :: x in m ==> m[x] < n)
    && (forall x, y :: x in m && y in m && m[x] == m[y] ==> x == y)
  }

  function NewName(m: Numbers, x: string): string {
    if x in m then Fresh(m[x]) else x
  }

  function RenameExpr(e: Expr, m: Numbers): Expr
    decreases e, 1
  {
    match e
    case Lit(n) => e
    case Var(x) => Var(NewName(m, x))
    case Binary(op, l, r) => Binary(op, RenameExpr(l, m), RenameExpr(r, m))
    case Neg(e0) => Neg(RenameExpr(e0, m))
    case Not(e0) => Not(RenameExpr(e0, m))
    case And(l, r) => And(RenameExpr(l, m), RenameExpr(r, m))
    case Or(l, r) => Or(RenameExpr(l, m), RenameExpr(r, m))
    case IfExpr(c, t, f) => IfExpr(RenameExpr(c, m), RenameExpr(t, m), RenameExpr(f, m))
    case Invoke(name, args) => Invoke(name, RenameArgs(args, m))
  }

  /** Functions keep their names. */
  function RenameArgs(es: seq<Expr>, m: Numbers): (r: seq<Expr>)
    ensures |r| == |es|
    decreases es, 0
  {
    if es == [] then [] else [RenameExpr(es[0], m)] + RenameArgs(es[1..], m)
  }

  /** Declarations get the numbers from `n` on, by how many names are in scope. Statements
      behind one that stops are left out. */
  function Rename(s: Stmt, m: Numbers, n: nat, inLoop: bool): Stmt
    decreases s, 1
  {
    match s
    case Let(_, e) => Let(Fresh(n), RenameExpr(e, m))
    case Assign(x, e) => Assign(NewName(m, x), RenameExpr(e, m))
    case PrintStmt(e) => PrintStmt(RenameExpr(e, m))
    case ExprStmt(e) => ExprStmt(RenameExpr(e, m))
    case Block(body) => Block(RenameSeq(body, m, n, inLoop))
    case If(c, t, f) =>
      If(RenameExpr(c, m), Rename(t, m, n, inLoop), if f.Some? then Some(Rename(f.value, m, n, inLoop)) else None)
    case While(c, body) => While(RenameExpr(c, m), Rename(body, m, n, true))
    case ForRange(x, a, b, body) => ForRange(Fresh(n), RenameExpr(a, m), RenameExpr(b, m), Rename(body, m[x := n], n + 1, true))
    case Match(subject, arms) => Match(RenameExpr(subject, m), RenameArms(arms, m, n, inLoop))
    case ReturnExpr(e) => ReturnExpr(RenameExpr(e, m))
    case _ => s
  }

  function NumbersAfter(s: Stmt, m: Numbers, n: nat): Numbers {
    if s.Let? then m[s.name := n] else m
  }

  function CountAfter(s: Stmt, n: nat): nat {
    if s.Let? then n + 1 else n
  }

  function RenameSeq(ss: seq<Stmt>, m: Numbers, n: nat, inLoop: bool): seq<Stmt>
    decreases ss, 0
  {
    if ss == [] then []
    else
      [Rename(ss[0], m, n, inLoop)]
      + if Stops(ss[0], inLoop) then [] else RenameSeq(ss[1..], NumbersAfter(ss[0], m, n), CountAfter(ss[0], n), inLoop)
  }

  function RenameArms(arms: seq<Arm>, m: Numbers, n: nat, inLoop: bool): (r: seq<Arm>)
    ensures |r| == |arms|
    decreases arms, 0
  {
    if arms == [] then [] else [RenameArm(arms[0], m, n, inLoop)] + RenameArms(arms[1..], m, n, inLoop)
  }

  function RenameArm(arm: Arm, m: Numbers, n: nat, inLoop: bool): Arm
    decreases arm, 0
  {
    Arm(if arm.pattern.Some? then Some(RenameExpr(arm.pattern.value, m)) else None, Rename(arm.body, m, n, inLoop))
  }

  // ----- renamed statements do not shadow -----

  lemma {:induction false} RenamedReads(e: Expr, m: Numbers, n: nat)
    requires Reads(e) <= m.Keys && Numbered(m, n)
    ensures Reads(RenameExpr(e, m)) <= Names(n)
    decreases e, 1
  {
    hide Names;
    match e
    case Lit(_) =>
    case Var(x) => assert x in m;
    case Binary(_, l, r) => RenamedReads(l, m, n); RenamedReads(r, m, n);
    case Neg(e0) => RenamedReads(e0, m, n);
    case Not(e0) => RenamedReads(e0, m, n);
    case And(l, r) => RenamedReads(l, m, n); RenamedReads(r, m, n);
    case Or(l, r) => RenamedReads(l, m, n); RenamedReads(r, m, n);
    case IfExpr(c, t, f) => RenamedReads(c, m, n); RenamedReads(t, m, n); RenamedReads(f, m, n);
    case Invoke(_, args) => RenamedReadsOfAll(args, m, n);
  }

  lemma {:induction false} RenamedReadsOfAll(es: seq<Expr>, m: Numbers, n: nat)
    requires ReadsOfAll(es) <= m.Keys && Numbered(m, n)
    ensures ReadsOfAll(RenameArgs(es, m)) <= Names(n)
    decreases es, 0
  {
    hide Names, RenameExpr, Reads;
    if es != [] {
      RenamedReads(es[0], m, n);
      RenamedReadsOfAll(es[1..], m, n);
      var rest := RenameArgs(es[1..], m);
      assert ([RenameExpr(es[0], m)] + rest)[1..] == rest;
    }
  }

  lemma NumberedMore(m: Numbers, n: nat, x: string)
    requires Numbered(m, n)
    ensures Numbered(m[x := n], n + 1) && m[x := n].Keys == m.Keys + {x}
    ensures Names(n + 1) == Names(n) + {Fresh(n)} && Fresh(n) !in Names(n)
  {
  }

  lemma {:induction false} RenamedIsScoped(s: Stmt, m: Numbers, n: nat, inLoop: bool)
    requires Found(s, m.Keys, inLoop) && Numbered(m, n)
    ensures Scoped(Rename(s, m, n, inLoop), Names(n))
    decreases s, 1
  {
    hide Stops, Reads, Defines, RenameExpr, Names, Numbered;
    match s
    case Let(x, e) => RenamedReads(e, m, n); NumberedMore(m, n, x);
    case Assign(x, e) => RenamedReads(e, m, n); NameIsThere(m, n, x);
    case PrintStmt(e) => RenamedReads(e, m, n);
    case ExprStmt(e) => RenamedReads(e, m, n);
    case Block(body) => RenamedSeqIsScoped(body, m, n, inLoop);
    case If(_, _, _) => RenamedIfIsScoped(s, m, n, inLoop);
    case While(c, body) => RenamedReads(c, m, n); RenamedIsScoped(body, m, n, true);
    case ForRange(_, _, _, _) => RenamedForIsScoped(s, m, n, inLoop);
    case Match(_, _) => RenamedMatchIsScoped(s, m, n, inLoop);
    case ReturnExpr(e) => RenamedReads(e, m, n);
    case _ =>
  }

  lemma {:induction false} RenamedIfIsScoped(s: Stmt, m: Numbers, n: nat, inLoop: bool)
    requires s.If? && Found(s, m.Keys, inLoop) && Numbered(m, n)
    ensures Scoped(Rename(s, m, n, inLoop), Names(n))
    decreases s, 0
  {
    hide Stops, Reads, Defines, RenameExpr, Names, Numbered;
    RenamedReads(s.cond, m, n);
    RenamedIsScoped(s.thn, m, n, inLoop);
    if s.els.Some? {
      FoundMore(s.els.value, m.Keys - Defines(s.thn, inLoop), m.Keys, inLoop);
      RenamedIsScoped(s.els.value, m, n, inLoop);
    }
  }

  lemma {:induction false} RenamedForIsScoped(s: Stmt, m: Numbers, n: nat, inLoop: bool)
    requires s.ForRange? && Found(s, m.Keys, inLoop) && Numbered(m, n)
    ensures Scoped(Rename(s, m, n, inLoop), Names(n))
    decreases s, 0
  {
    hide Stops, Reads, Defines, RenameExpr, Names, Numbered;
    RenamedReads(s.from, m, n);
    RenamedReads(s.to, m, n);
    NumberedMore(m, n, s.name);
    RenamedIsScoped(s.loop, m[s.name := n], n + 1, true);
  }

  lemma {:induction false} RenamedMatchIsScoped(s: Stmt, m: Numbers, n: nat, inLoop: bool)
    requires s.Match? && Found(s, m.Keys, inLoop) && Numbered(m, n)
    ensures Scoped(Rename(s, m, n, inLoop), Names(n))
    decreases s, 0
  {
    hide Reads, Defines, RenameExpr, Names, Numbered, FoundArms, RenameArms, ScopedArms;
    RenamedReads(s.subject, m, n);
    RenamedArmsAreScoped(s.arms, m, n, inLoop);
  }

  lemma NameIsThere(m: Numbers, n: nat, x: string)
    requires x in m && Numbered(m, n)
    ensures NewName(m, x) in Names(n)
  {
  }

  /** The statements that follow one that does not stop. */
  lemma FoundNext(ss: seq<Stmt>, m: Numbers, n: nat, inLoop: bool)
    requires ss != [] && FoundSeq(ss, m.Keys, inLoop) && Numbered(m, n) && !Stops(ss[0], inLoop)
    ensures FoundSeq(ss[1..], NumbersAfter(ss[0], m, n).Keys, inLoop)
    ensures Numbered(NumbersAfter(ss[0], m, n), CountAfter(ss[0], n))
  {
    hide Stops, Defines, Found, Numbered, FoundSeq;
    assert FoundSeq(ss[1..], GoodAfter(ss[0], m.Keys, inLoop), inLoop) by { FoundTail(ss, m.Keys, inLoop); }
    if ss[0].Let? { NumberedMore(m, n, ss[0].name); }
    FoundMoreSeq(ss[1..], GoodAfter(ss[0], m.Keys, inLoop), NumbersAfter(ss[0], m, n).Keys, inLoop);
  }

  lemma FoundTail(ss: seq<Stmt>, good: set<string>, inLoop: bool)
    requires ss != [] && FoundSeq(ss, good, inLoop) && !Stops(ss[0], inLoop)
    ensures FoundSeq(ss[1..], GoodAfter(ss[0], good, inLoop), inLoop)
  {
  }

  lemma {:induction false} RenamedSeqIsScoped(ss: seq<Stmt>, m: Numbers, n: nat, inLoop: bool)
    requires FoundSeq(ss, m.Keys, inLoop) && Numbered(m, n)
    ensures ScopedSeq(RenameSeq(ss, m, n, inLoop), Names(n))
    decreases ss, 0
  {
    hide Stops, Defines, Found, Numbered, Rename, Scoped, Names;
    if ss != [] {
      var s0 := Rename(ss[0], m, n, inLoop);
      RenamedIsScoped(ss[0], m, n, inLoop);
      LetStays(ss[0], m, n, inLoop);
      if Stops(ss[0], inLoop) {
        assert [s0][1..] == [] && RenameSeq(ss, m, n, inLoop) == [s0];
        assert ScopedSeq([], Names(n)) && ScopedSeq([], Names(n) + {Fresh(n)});
      } else {
        FoundNext(ss, m, n, inLoop);
        NumberedMore(m, n, "");
        RenamedSeqIsScoped(ss[1..], NumbersAfter(ss[0], m, n), CountAfter(ss[0], n), inLoop);
        var rest := RenameSeq(ss[1..], NumbersAfter(ss[0], m, n), CountAfter(ss[0], n), inLoop);
        assert ([s0] + rest)[1..] == rest;
      }
    }
  }

  lemma LetStays(s: Stmt, m: Numbers, n: nat, inLoop: bool)
    ensures Rename(s, m, n, inLoop).Let? == s.Let? && (s.Let? ==> Rename(s, m, n, inLoop).name == Fresh(n))
  {
  }

  lemma {:induction false} RenamedArmsAreScoped(arms: seq<Arm>, m: Numbers, n: nat, inLoop: bool)
    requires FoundArms(arms, m.Keys, inLoop) && Numbered(m, n)
    ensures ScopedArms(RenameArms(arms, m, n, inLoop), Names(n))
    decreases arms, 0
  {
    hide Defines, Found, Numbered, Rename, Scoped, Names;
    if arms != [] {
      RenamedArmIsScoped(arms[0], m, n, inLoop);
      FoundMoreArms(arms[1..], m.Keys - DefinesArm(arms[0], inLoop), m.Keys, inLoop);
      RenamedArmsAreScoped(arms[1..], m, n, inLoop);
      var rest := RenameArms(arms[1..], m, n, inLoop);
      assert ([RenameArm(arms[0], m, n, inLoop)] + rest)[1..] == rest;
    }
  }

  lemma {:induction false} RenamedArmIsScoped(arm: Arm, m: Numbers, n: nat, inLoop: bool)
    requires FoundArm(arm, m.Keys, inLoop) && Numbered(m, n)
    ensures ScopedArm(RenameArm(arm, m, n, inLoop), Names(n))
    decreases arm, 0
  {
    hide Names, Numbered;
    if arm.pattern.Some? { RenamedReads(arm.pattern.value, m, n); }
    RenamedIsScoped(arm.body, m, n, inLoop);
  }
}
