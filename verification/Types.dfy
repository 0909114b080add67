/**
  Types, and the texts the compiler keeps for them: every later phase works on the text.
 */
module Types {
  import Mangling

  datatype Ty =
    | Named(path: seq<string>)
    | Generic(path: seq<string>, args: seq<Ty>)
    | Optional(inner: Ty)
    | Slice(inner: Ty)
    | Sized(inner: Ty, count: int)
    | Pointer(inner: Ty)
    | Reference(lifetime: string, isMut: bool, inner: Ty)
    | Function(params: seq<Ty>, result: Ty)

  predicate IsWordChar(c: char) {
    'a' <= c <= 'z' || 'A' <= c <= 'Z' || '0' <= c <= '9' || c == '_'
  }

  predicate IsWord(s: string) {
    s != "" && forall i :: 0 <= i < |s| ==> IsWordChar(s[i])
  }

  predicate IsPath(path: seq<string>) {
    path != [] && forall i :: 0 <= i < |path| ==> IsWord(path[i])
  }

  predicate WellFormed(t: Ty) {
    match t
    case Named(path) => IsPath(path)
    case Generic(path, args) => IsPath(path) && forall i :: 0 <= i < |args| ==> WellFormed(args[i])
    case Reference(lifetime, _, inner) => (lifetime == "" || IsWord(lifetime)) && WellFormed(inner)
    case Function(params, result) => (forall i :: 0 <= i < |params| ==> WellFormed(params[i])) && WellFormed(result)
    case Optional(inner) => WellFormed(inner)
    case Slice(inner) => WellFormed(inner)
    case Sized(inner, _) => WellFormed(inner)
    case Pointer(inner) => WellFormed(inner)
  }

  predicate AllWellFormed(ts: seq<Ty>) {
    forall i :: 0 <= i < |ts| ==> WellFormed(ts[i])
  }

  function PathText(path: seq<string>): string {
    if path == [] then "" else if |path| == 1 then path[0] else path[0] + "::" + PathText(path[1..])
  }

  function Decimal(n: int): string {
    if n < 0 then "-" + Mangling.Digits(-n) else Mangling.Digits(n)
  }

  function LifetimeText(lifetime: string): string {
    if lifetime == "" then "" else "'" + lifetime + " "
  }

  function MutText(isMut: bool): string {
    if isMut then "mut " else ""
  }

  function Text(t: Ty): string {
    match t
    case Named(path) => PathText(path)
    case Generic(path, args) => PathText(path) + ":[" + ListText(args) + "]"
    case Optional(inner) => "Option[" + Text(inner) + "]"
    case Slice(inner) => "[" + Text(inner) + "]"
    case Sized(inner, count) => "[" + Text(inner) + "*" + Decimal(count) + "]"
    case Pointer(inner) => "ptr:" + Text(inner)
    case Reference(lifetime, isMut, inner) => "&" + LifetimeText(lifetime) + MutText(isMut) + Text(inner)
    case Function(params, result) => "fn(" + ListText(params) + "): " + Text(result)
  }

  function ListText(ts: seq<Ty>): string {
    if ts == [] then "" else if |ts| == 1 then Text(ts[0]) else Text(ts[0]) + ", " + ListText(ts[1..])
  }

  function Texts(ts: seq<Ty>): (r: seq<string>)
    ensures |r| == |ts| && forall i :: 0 <= i < |ts| ==> r[i] == Text(ts[i])
  {
    if ts == [] then [] else [Text(ts[0])] + Texts(ts[1..])
  }

  // ----- nesting -----

  predicate Opens(c: char, round: bool) {
    c == '[' || (round && c == '(')
  }

  predicate Closes(c: char, round: bool) {
    c == ']' || (round && c == ')')
  }

  /** Read from d brackets deep, the text never closes more than was opened and ends with
      everything closed. Round brackets count or not. */
  predicate Nested(s: string, d: nat, round: bool) {
    if s == [] then d == 0
    else if Opens(s[0], round) then Nested(s[1..], d + 1, round)
    else if Closes(s[0], round) then d > 0 && Nested(s[1..], d - 1, round)
    else Nested(s[1..], d, round)
  }

  /** How many commas stand outside all brackets. */
  function Loose(s: string, d: nat, round: bool): nat {
    if s == [] then 0
    else if Opens(s[0], round) then Loose(s[1..], d + 1, round)
    else if Closes(s[0], round) then if d > 0 then Loose(s[1..], d - 1, round) else Loose(s[1..], 0, round)
    else (if s[0] == ',' && d == 0 then 1 else 0) + Loose(s[1..], d, round)
  }

  lemma {:induction false} Joined(a: string, k: nat, b: string, d: nat, round: bool)
    requires Nested(a, k, round) && Nested(b, d, round)
    ensures Nested(a + b, k + d, round)
    ensures Loose(a + b, k + d, round) == (if d == 0 then Loose(a, k, round) else 0) + Loose(b, d, round)
  {
    if a == [] {
      assert a + b == b;
    } else {
      assert (a + b)[1..] == a[1..] + b;
      var k' := if Opens(a[0], round) then k + 1 else if Closes(a[0], round) then k - 1 else k;
      Joined(a[1..], k', b, d, round);
    }
  }

  predicate Plain(s: string) {
    forall i :: 0 <= i < |s| ==> s[i] !in "()[],"
  }

  lemma {:induction false} PlainIsNested(s: string, d: nat, round: bool)
    requires Plain(s)
    ensures Loose(s, d, round) == 0 && (Nested(s, d, round) <==> d == 0)
  {
    if s != [] { PlainIsNested(s[1..], d, round); }
  }

  lemma {:induction false} Wrapped(s: string, round: bool)
    requires Nested(s, 0, round)
    ensures Nested("[" + s + "]", 0, round) && Loose("[" + s + "]", 0, round) == 0
  {
    Joined(s, 0, "]", 1, round);
    assert ("[" + s + "]")[1..] == s + "]";
    assert "]"[1..] == "";
  }

  lemma {:induction false} RoundWrapped(s: string, round: bool)
    requires Nested(s, 0, round)
    ensures Nested("(" + s + ")", 0, round)
    ensures Loose("(" + s + ")", 0, round) == if round then 0 else Loose(s, 0, round)
  {
    assert ("(" + s + ")")[1..] == s + ")";
    assert ")"[1..] == "";
    Joined(s, 0, ")", if round then 1 else 0, round);
  }

  // ----- what type texts look like -----

  /** The commas of a type that stand in no square bracket: between the parameters of
      function types. */
  function LooseCommas(t: Ty): nat {
    match t
    case Function(params, result) => LooseInList(params) + (if params == [] then 0 else |params| - 1) + LooseCommas(result)
    case Pointer(inner) => LooseCommas(inner)
    case Reference(_, _, inner) => LooseCommas(inner)
    case _ => 0
  }

  function LooseInList(ts: seq<Ty>): nat {
    if ts == [] then 0 else LooseCommas(ts[0]) + LooseInList(ts[1..])
  }

  lemma DigitsAreWords(n: nat)
    ensures IsWord(Mangling.Digits(n))
  {
    var d := Mangling.Digits(n);
    forall i | 0 <= i < |d| ensures IsWordChar(d[i]) {
      assert Mangling.IsDigit(d[i]);
    }
  }

  lemma WordsArePlain(s: string)
    requires IsWord(s)
    ensures Plain(s) && ' ' !in s && ':' !in s
  {
  }

  lemma {:induction false} PathIsPlain(path: seq<string>)
    requires IsPath(path)
    ensures Plain(PathText(path)) && ' ' !in PathText(path) && PathText(path) != "" && PathText(path)[0] != ':'
  {
    WordsArePlain(path[0]);
    if |path| > 1 { PathIsPlain(path[1..]); }
  }

  lemma Prefixed(p: string, s: string, round: bool)
    requires Plain(p) && Nested(s, 0, round)
    ensures Nested(p + s, 0, round) && Loose(p + s, 0, round) == Loose(s, 0, round)
  {
    PlainIsNested(p, 0, round);
    Joined(p, 0, s, 0, round);
  }

  lemma Suffixed(s: string, p: string, round: bool)
    requires Plain(p) && Nested(s, 0, round)
    ensures Nested(s + p, 0, round) && Loose(s + p, 0, round) == Loose(s, 0, round)
  {
    PlainIsNested(p, 0, round);
    Joined(s, 0, p, 0, round);
  }

  lemma BracketsAfter(head: string, s: string, round: bool)
    requires Plain(head) && Nested(s, 0, round)
    ensures Nested(head + "[" + s + "]", 0, round) && Loose(head + "[" + s + "]", 0, round) == 0
  {
    hide Nested, Loose;
    Wrapped(s, round);
    Prefixed(head, "[" + s + "]", round);
    assert head + ("[" + s + "]") == head + "[" + s + "]";
  }

  lemma SizedNested(s: string, count: string, round: bool)
    requires Nested(s, 0, round) && Plain(count)
    ensures Nested("[" + s + "*" + count + "]", 0, round) && Loose("[" + s + "*" + count + "]", 0, round) == 0
  {
    hide Nested, Loose;
    Suffixed(s, "*" + count, round);
    Wrapped(s + ("*" + count), round);
    assert "[" + (s + ("*" + count)) + "]" == "[" + s + "*" + count + "]";
  }

  lemma FunctionNested(ps: string, r: string, round: bool)
    requires Nested(ps, 0, round) && Nested(r, 0, round)
    ensures Nested("fn(" + ps + "): " + r, 0, round)
    ensures Loose("fn(" + ps + "): " + r, 0, round) == (if round then 0 else Loose(ps, 0, round)) + Loose(r, 0, round)
  {
    hide Nested, Loose;
    RoundWrapped(ps, round);
    Prefixed(": ", r, round);
    Joined("(" + ps + ")", 0, ": " + r, 0, round);
    Prefixed("fn", "(" + ps + ")" + (": " + r), round);
    assert "fn" + ("(" + ps + ")" + (": " + r)) == "fn(" + ps + "): " + r;
  }

  lemma {:induction false} TextNested(t: Ty, round: bool)
    requires WellFormed(t)
    ensures Nested(Text(t), 0, round)
    ensures Loose(Text(t), 0, round) == if round then 0 else LooseCommas(t)
    decreases t, 0
  {
    hide Nested, Loose;
    match t
    case Named(path) =>
      PathIsPlain(path);
      PlainIsNested(PathText(path), 0, round);
    case Generic(path, args) =>
      PathIsPlain(path);
      ListNested(args, round);
      BracketsAfter(PathText(path) + ":", ListText(args), round);
      assert PathText(path) + ":" + "[" + ListText(args) + "]" == Text(t);
    case Optional(inner) =>
      TextNested(inner, round);
      BracketsAfter("Option", Text(inner), round);
      assert "Option" + "[" + Text(inner) + "]" == Text(t);
    case Slice(inner) =>
      TextNested(inner, round);
      Wrapped(Text(inner), round);
    case Sized(inner, count) =>
      TextNested(inner, round);
      DecimalIsPlain(count);
      SizedNested(Text(inner), Decimal(count), round);
    case Pointer(inner) =>
      TextNested(inner, round);
      Prefixed("ptr:", Text(inner), round);
    case Reference(lifetime, isMut, inner) =>
      TextNested(inner, round);
      if lifetime != "" { WordsArePlain(lifetime); }
      Prefixed("&" + LifetimeText(lifetime) + MutText(isMut), Text(inner), round);
    case Function(params, result) =>
      ListNested(params, round);
      TextNested(result, round);
      FunctionNested(ListText(params), Text(result), round);
  }

  lemma DecimalIsPlain(n: int)
    ensures Plain(Decimal(n)) && ' ' !in Decimal(n)
  {
    DigitsAreWords(if n < 0 then -n else n);
    WordsArePlain(Mangling.Digits(if n < 0 then -n else n));
  }

  lemma {:induction false} ListNested(ts: seq<Ty>, round: bool)
    requires AllWellFormed(ts)
    ensures Nested(ListText(ts), 0, round)
    ensures Loose(ListText(ts), 0, round)
            == (if ts == [] then 0 else |ts| - 1) + (if round then 0 else LooseInList(ts))
    decreases ts, 0
  {
    if ts != [] {
      TextNested(ts[0], round);
      if |ts| > 1 {
        ListNested(ts[1..], round);
        CommaFirst(ListText(ts[1..]), round);
        Joined(Text(ts[0]), 0, ", " + ListText(ts[1..]), 0, round);
        assert Text(ts[0]) + (", " + ListText(ts[1..])) == ListText(ts);
      } else {
        assert LooseInList(ts[1..]) == 0;
      }
    }
  }

  lemma CommaFirst(s: string, round: bool)
    requires Nested(s, 0, round)
    ensures Nested(", " + s, 0, round) && Loose(", " + s, 0, round) == 1 + Loose(s, 0, round)
  {
    assert (", " + s)[1..] == " " + s;
    assert (" " + s)[1..] == s;
  }

  /** Type texts are not empty and have no space at either end, no colon in front. */
  lemma {:induction false} TextEnds(t: Ty)
    requires WellFormed(t)
    ensures var s := Text(t);
            s != "" && s[0] != ' ' && s[0] != ':' && s[|s| - 1] != ' ' && s[|s| - 1] != ','
  {
    match t
    case Named(path) => PathIsPlain(path);
    case Generic(path, args) => PathIsPlain(path);
    case Pointer(inner) => TextEnds(inner);
    case Reference(_, _, inner) => TextEnds(inner);
    case Function(_, result) => TextEnds(result);
    case _ =>
  }
}
