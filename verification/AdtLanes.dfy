/**
  The records that variants become, with types, fields and empty values written out.
 */
module AdtLanes {
  import opened AdtLowering

  predicate Whole(ty: string) {
    ty in {"i8", "u8", "i16", "u16", "i32", "u32", "i64", "u64", "usize", "bool", "char"}
  }

  predicate Floating(ty: string) {
    ty in {"f32", "f64"}
  }

  /** All other payload types are kept as pointers. */
  predicate Pointed(ty: string) {
    ty != "" && ty != "string" && !Whole(ty) && !Floating(ty)
  }

  /** The record of a variant: its place in the declaration, and its payload in one of four
      fields by its type; the others are empty. */
  predicate IsRecord(r: Exp, name: string, local: int, ty: string, payload: Exp) {
    r == Record(name, ["tag", "payload_i32", "payload_string", "payload_ptr", "payload_f64"],
                [IntLit(local),
                 if Whole(ty) then payload else IntLit(0),
                 if ty == "string" then payload else StringLit(""),
                 if Pointed(ty) then payload else IntLit(0),
                 if Floating(ty) then payload else FloatLit(0.0)])
  }

  lemma LanesAre(local: int, ty: string, payload: Exp)
    ensures IsRecord(Record("", LANES, Lanes(local, if ty == "" then "" else PayloadField(ty), payload)), "", local, ty, payload)
  {
  }

  /** The text in front of the first `[` or `:`. */
  lemma {:induction false} BaseEnds(ty: string, base: string)
    ensures TypeBase(ty) == base
            <==> base <= ty && '[' !in base && ':' !in base && (|base| < |ty| ==> ty[|base|] in {'[', ':'})
    decreases |ty|
  {
    if ty != [] && ty[0] != '[' && ty[0] != ':' {
      BaseEnds(ty[1..], TypeBase(ty[1..]));
      if base != "" {
        BaseEnds(ty[1..], base[1..]);
        assert base <= ty <==> base[0] == ty[0] && base[1..] <= ty[1..] by { PrefixTail(base, ty); }
        assert base == [base[0]] + base[1..];
      }
    }
  }

  lemma PrefixTail(a: string, b: string)
    requires a != "" && b != ""
    ensures a <= b <==> a[0] == b[0] && a[1..] <= b[1..]
  {
    if a[0] == b[0] && a[1..] <= b[1..] {
      assert b == [b[0]] + b[1..];
      assert a == [a[0]] + a[1..];
    }
    if a <= b { assert a[1..] == b[1..][..|a| - 1]; }
  }

  /** A constructor function returns the record with its parameter in it. */
  lemma ConstructorsReturnRecords(d: Adt, local: nat)
    requires local < |d.payloads|
    ensures exists r :: CtorBody(d, local) == Block([Return(r)]) && IsRecord(r, d.name, local, d.payloads[local], Ident("value"))
  {
    LanesAre(local, d.payloads[local], Ident("value"));
    var r := CtorRecord(d, local);
    assert CtorBody(d, local) == Block([Return(r)]);
    assert IsRecord(r, d.name, local, d.payloads[local], Ident("value"));
  }

  /** A constructor with an argument is written in place as the record of the first type that
      has a variant of the name, with the lowered argument in it. */
  lemma CallsBecomeRecords(adts: seq<Adt>, a: nat, local: nat, arg: Exp)
    requires Declared(adts) && a < |adts| && local < |adts[a].variants| && adts[a].payloads[local] != ""
    requires var name := adts[a].variants[local];
             name !in adts[a].variants[..local] && forall k :: 0 <= k < a ==> name !in adts[k].variants
    ensures IsRecord(LowerExp(adts, Call(adts[a].variants[local], [arg])), TypeBase(adts[a].name), local,
                     adts[a].payloads[local], LowerExp(adts, arg))
  {
    var name := adts[a].variants[local];
    assert name in adts[a].variants;
    assert FindVariant(adts, name) == a;
    assert FindLocal(adts, name) == local;
    assert LowerExps(adts, [arg]) == [LowerExp(adts, arg)];
    LanesAre(local, adts[a].payloads[local], LowerExp(adts, arg));
  }

  /** The field that a payload of the type is kept in, and the type that it has there. */
  function KeptIn(ty: string): string {
    if Whole(ty) then "payload_i32" else if ty == "string" then "payload_string"
    else if Floating(ty) then "payload_f64" else "payload_ptr"
  }

  function KeptAs(ty: string): string {
    if Whole(ty) then "i32" else if Floating(ty) then "f64" else ty
  }

  lemma KeptWhere(ty: string)
    ensures PayloadField(ty) == KeptIn(ty) && StorageType(ty) == KeptAs(ty)
  {
  }

  /** An arm that binds the payload reads the field that the record has it in, as a variable
      of the type that is stored there. */
  lemma ArmsReadTheirField(adts: seq<Adt>, subject: Exp, p: Exp, body: Stm)
    requires Declared(adts) && IsCtor(adts, p) && Binds(adts, p)
    ensures var ty := PayloadOf(adts, p.text);
            BoundBody(adts, subject, p, body)
            == Block([Let(p.args[0].text, KeptAs(ty), Field(subject, KeptIn(ty))), ArmBody(adts, body)])
  {
    hide PayloadField, StorageType, KeptIn, KeptAs;
    KeptWhere(PayloadOf(adts, p.text));
  }

  /** The first type that has the variant. */
  predicate FirstWith(adts: seq<Adt>, a: nat, name: string) {
    a < |adts| && name in adts[a].variants && forall k :: 0 <= k < a ==> name !in adts[k].variants
  }

  /** A variable keeps the type it is declared with. One without a type gets the type of the
      constructor it is set to, and with anything else none. */
  lemma LetsGetTheirType(adts: seq<Adt>, name: string, ty: string, e: Exp)
    requires Declared(adts)
    ensures var s := LowerStm(adts, Let(name, ty, e));
            && s.Stm? && s.tag == "let" && s.name == name && (ty != "" ==> s.ty == ty)
            && (ty == "" && e.Exp? && e.tag in {"call", "ident"} ==>
                  (forall a: nat :: FirstWith(adts, a, e.text) ==> s.ty == adts[a].name)
                  && ((forall a: nat :: !FirstWith(adts, a, e.text)) ==> s.ty == ""))
            && (ty == "" && !(e.Exp? && e.tag in {"call", "ident"}) ==> s.ty == "")
  {
    if e.Exp? {
      var d := FindVariant(adts, e.text);
      assert d >= 0 ==> FirstWith(adts, d, e.text);
      assert forall a: nat :: FirstWith(adts, a, e.text) ==> a == d;
    }
  }
}
