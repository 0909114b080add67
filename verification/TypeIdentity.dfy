/**
  Which types have the same text. Phases behind the parser compare texts, so this is when
  they can tell types apart.
 */
module TypeIdentity {
  import opened Types

  /** The texts of `ref [x]` and of the generic type `ptr:[x]` are the same; written as the
      first, each text has one type. */
  function Canonical(t: Ty): Ty
    decreases t, 0
  {
    match t
    case Named(_) => t
    case Generic(path, args) =>
      if path == ["ptr"] && |args| == 1 then Pointer(Slice(Canonical(args[0]))) else Generic(path, Canonicals(args))
    case Optional(inner) => Optional(Canonical(inner))
    case Slice(inner) => Slice(Canonical(inner))
    case Sized(inner, count) => Sized(Canonical(inner), count)
    case Pointer(inner) => Pointer(Canonical(inner))
    case Reference(lifetime, isMut, inner) => Reference(lifetime, isMut, Canonical(inner))
    case Function(params, result) => Function(Canonicals(params), Canonical(result))
  }

  function Canonicals(ts: seq<Ty>): (r: seq<Ty>)
    ensures |r| == |ts|
    decreases ts, 0
  {
    if ts == [] then [] else [Canonical(ts[0])] + Canonicals(ts[1..])
  }

  /** Well formed, and no generic type `ptr` with one argument in it. */
  predicate Plainly(t: Ty)
    decreases t, 1
  {
    match t
    case Named(path) => IsPath(path)
    case Generic(path, args) => IsPath(path) && !(path == ["ptr"] && |args| == 1) && AllPlainly(args)
    case Optional(inner) => Plainly(inner)
    case Slice(inner) => Plainly(inner)
    case Sized(inner, _) => Plainly(inner)
    case Pointer(inner) => Plainly(inner)
    case Reference(lifetime, _, inner) => (lifetime == "" || IsWord(lifetime)) && Plainly(inner)
    case Function(params, result) => AllPlainly(params) && Plainly(result)
  }

  predicate AllPlainly(ts: seq<Ty>)
    decreases ts, 0
  {
    ts != [] ==> Plainly(ts[0]) && AllPlainly(ts[1..])
  }

  // ----- the canonical type has the same text -----

  lemma {:induction false} CanonicalText(t: Ty)
    requires WellFormed(t)
    ensures Plainly(Canonical(t)) && Text(Canonical(t)) == Text(t)
    decreases t, 0
  {
    match t
    case Named(_) =>
    case Generic(path, args) =>
      if path == ["ptr"] && |args| == 1 {
        CanonicalText(args[0]);
        assert ListText(args) == Text(args[0]);
        assert PathText(path) + ":[" + ListText(args) + "]" == "ptr:" + ("[" + Text(args[0]) + "]");
      } else {
        CanonicalTexts(args);
      }
    case Optional(inner) => CanonicalText(inner);
    case Slice(inner) => CanonicalText(inner);
    case Sized(inner, _) => CanonicalText(inner);
    case Pointer(inner) => CanonicalText(inner);
    case Reference(_, _, inner) => CanonicalText(inner);
    case Function(params, result) =>
      CanonicalTexts(params);
      CanonicalText(result);
  }

  lemma {:induction false} CanonicalTexts(ts: seq<Ty>)
    requires AllWellFormed(ts)
    ensures AllPlainly(Canonicals(ts)) && ListText(Canonicals(ts)) == ListText(ts)
    decreases ts, 0
  {
    if ts != [] {
      CanonicalText(ts[0]);
      CanonicalTexts(ts[1..]);
      assert Canonicals(ts)[1..] == Canonicals(ts[1..]);
    }
  }

  // ----- reading from the left -----

  lemma Strip(p: string, x: string, y: string)
    requires p + x == p + y
    ensures x == y
  {
    assert (p + x)[|p|..] == x && (p + y)[|p|..] == y;
  }

  predicate WordEnds(s: string) {
    s == "" || !IsWordChar(s[0])
  }

  /** Two texts that begin with words begin with the same word. */
  lemma SameWord(v: string, r: string, w: string, s: string)
    requires (v == "" || IsWord(v)) && (w == "" || IsWord(w)) && WordEnds(r) && WordEnds(s)
    requires v + r == w + s
    ensures v == w && r == s
  {
    if r != "" { assert (v + r)[|v|] == r[0]; }
    if s != "" { assert (w + s)[|w|] == s[0]; }
    assert |v + r| == |w + s|;
    assert |v| == |w|;
    assert (v + r)[..|v|] == v && (w + s)[..|v|] == w;
    Strip(v, r, s);
  }

  /** What may stand behind a path: no word goes on, and the path does not. */
  predicate PathEnds(s: string) {
    WordEnds(s) && !(|s| > 1 && s[0] == ':' && s[1] == ':')
  }

  function PathRest(path: seq<string>, s: string): string
    requires path != []
  {
    if |path| == 1 then s else "::" + (PathText(path[1..]) + s)
  }

  lemma PathSplit(path: seq<string>, s: string)
    requires path != []
    ensures PathText(path) + s == path[0] + PathRest(path, s)
  {
    if |path| > 1 {
      assert path[0] + "::" + PathText(path[1..]) + s == path[0] + ("::" + (PathText(path[1..]) + s));
    }
  }

  lemma PathGoesOn(path: seq<string>, s: string)
    requires path != []
    ensures |path| == 1 ==> PathRest(path, s) == s
    ensures |path| > 1 ==> PathRest(path, s) == "::" + (PathText(path[1..]) + s) && !PathEnds(PathRest(path, s))
    ensures |path| > 1 ==> WordEnds(PathRest(path, s))
  {
  }

  lemma PathParts(path: seq<string>)
    requires IsPath(path)
    ensures IsWord(path[0]) && (|path| > 1 ==> IsPath(path[1..])) && path == [path[0]] + path[1..]
  {
    hide IsWord;
  }

  lemma {:induction false} SamePath(p: seq<string>, x: string, q: seq<string>, y: string)
    requires IsPath(p) && IsPath(q) && PathEnds(x) && PathEnds(y) && PathText(p) + x == PathText(q) + y
    ensures p == q && x == y
    decreases |p|
  {
    hide PathText, PathRest, PathEnds, WordEnds, IsWord, IsPath;
    PathParts(p);
    PathParts(q);
    PathSplit(p, x);
    PathSplit(q, y);
    PathGoesOn(p, x);
    PathGoesOn(q, y);
    EndsAreWordEnds(x);
    EndsAreWordEnds(y);
    SameWord(p[0], PathRest(p, x), q[0], PathRest(q, y));
    if |p| > 1 {
      Strip("::", PathText(p[1..]) + x, PathText(q[1..]) + y);
      SamePath(p[1..], x, q[1..], y);
    } else {
      assert |q| == 1 && p == [p[0]] && q == [q[0]];
    }
  }

  lemma EndsAreWordEnds(s: string)
    requires PathEnds(s)
    ensures WordEnds(s)
  {
  }

  lemma SameDigits(m: nat, r: string, n: nat, s: string)
    requires WordEnds(r) && WordEnds(s) && Mangling.Digits(m) + r == Mangling.Digits(n) + s
    ensures m == n && r == s
  {
    DigitsAreWords(m);
    DigitsAreWords(n);
    SameWord(Mangling.Digits(m), r, Mangling.Digits(n), s);
    Mangling.NumberOfDigits(m);
    Mangling.NumberOfDigits(n);
  }

  lemma CountText(n: int, s: string)
    ensures Decimal(n) + s == if n < 0 then "-" + (Mangling.Digits(-n) + s) else Mangling.Digits(n) + s
    ensures (Decimal(n) + s)[0] == '-' <==> n < 0
  {
    hide Mangling.Digits;
    DigitsAreWords(if n < 0 then -n else n);
    if n < 0 { assert "-" + Mangling.Digits(-n) + s == "-" + (Mangling.Digits(-n) + s); }
  }

  lemma SameCount(m: int, r: string, n: int, s: string)
    requires WordEnds(r) && WordEnds(s) && Decimal(m) + r == Decimal(n) + s
    ensures m == n && r == s
  {
    hide Mangling.Digits, Decimal;
    CountText(m, r);
    CountText(n, s);
    if m < 0 {
      Strip("-", Mangling.Digits(-m) + r, Mangling.Digits(-n) + s);
      SameDigits(-m, r, -n, s);
    } else {
      SameDigits(m, r, n, s);
    }
  }

  // ----- types that begin with a word -----

  predicate Worded(t: Ty) {
    !t.Slice? && !t.Sized? && !t.Reference?
  }

  function PathOf(t: Ty): seq<string> {
    match t
    case Named(path) => path
    case Generic(path, _) => path
    case Optional(_) => ["Option"]
    case Pointer(_) => ["ptr"]
    case _ => ["fn"]
  }

  /** What stands behind a type in a text. */
  predicate Behind(s: string) {
    s == "" || s[0] in {',', ')', ']', '*'}
  }

  function Tail(t: Ty, s: string): string {
    match t
    case Named(_) => s
    case Generic(_, args) => ":[" + (ListText(args) + ("]" + s))
    case Optional(inner) => "[" + (Text(inner) + ("]" + s))
    case Pointer(inner) => ":" + (Text(inner) + s)
    case Function(params, result) => "(" + (ListText(params) + ("): " + (Text(result) + s)))
    case _ => s
  }

  lemma Three(a: string, b: string, c: string, d: string)
    ensures a + b + c + d == a + (b + (c + d))
  {
    assert a + b + c + d == a + (b + (c + d));
  }

  lemma FunctionSplit(l: string, r: string, s: string)
    ensures "fn(" + l + "): " + r + s == "fn" + ("(" + (l + ("): " + (r + s))))
  {
    Three("fn(" + l, "): ", r, s);
    assert "fn(" + l + ("): " + (r + s)) == "fn" + ("(" + (l + ("): " + (r + s))));
  }

  lemma WordedText(t: Ty, s: string)
    requires Plainly(t) && Worded(t) && Behind(s)
    ensures Text(t) + s == PathText(PathOf(t)) + Tail(t, s) && IsPath(PathOf(t)) && PathEnds(Tail(t, s))
  {
    hide ListText;
    match t
    case Named(_) =>
    case Generic(path, args) =>
      hide PathText;
      Three(PathText(path) + ":[", ListText(args), "]", s);
      assert PathText(path) + ":[" + (ListText(args) + ("]" + s)) == PathText(path) + (":[" + (ListText(args) + ("]" + s)));
    case Optional(inner) =>
      Three("Option[", Text(inner), "]", s);
      assert "Option[" + (Text(inner) + ("]" + s)) == "Option" + ("[" + (Text(inner) + ("]" + s)));
    case Pointer(inner) => PointerText(inner, s);
    case Function(params, result) => FunctionSplit(ListText(params), Text(result), s);
  }

  lemma PointerText(inner: Ty, s: string)
    requires Plainly(inner)
    ensures "ptr:" + Text(inner) + s == "ptr" + (":" + (Text(inner) + s)) && PathEnds(":" + (Text(inner) + s))
  {
    hide Text;
    PlainlyIsWellFormed(inner);
    TextEnds(inner);
    assert "ptr:" + Text(inner) + s == "ptr" + (":" + (Text(inner) + s));
    var x := ":" + (Text(inner) + s);
    assert x[1] == Text(inner)[0];
  }

  lemma {:induction false} PlainlyIsWellFormed(t: Ty)
    requires Plainly(t)
    ensures WellFormed(t)
    decreases t, 0
  {
    match t
    case Named(_) =>
    case Generic(_, args) => AllAreWellFormed(args);
    case Function(params, result) =>
      AllAreWellFormed(params);
      PlainlyIsWellFormed(result);
    case Optional(inner) => PlainlyIsWellFormed(inner);
    case Slice(inner) => PlainlyIsWellFormed(inner);
    case Sized(inner, _) => PlainlyIsWellFormed(inner);
    case Pointer(inner) => PlainlyIsWellFormed(inner);
    case Reference(_, _, inner) => PlainlyIsWellFormed(inner);
  }

  lemma {:induction false} AllAreWellFormed(ts: seq<Ty>)
    requires AllPlainly(ts)
    ensures AllWellFormed(ts)
    decreases ts, 0
  {
    if ts != [] {
      PlainlyIsWellFormed(ts[0]);
      AllAreWellFormed(ts[1..]);
      assert forall i :: 0 < i < |ts| ==> ts[i] == ts[1..][i - 1];
    }
  }

  lemma FirstCharacter(t: Ty, s: string)
    requires Plainly(t)
    ensures var x := Text(t) + s;
            x != "" && (if Worded(t) then IsWordChar(x[0]) else if t.Reference? then x[0] == '&' else x[0] == '[')
  {
    if Worded(t) {
      var path := PathOf(t);
      WordedText(t, "");
      assert Text(t) + "" == Text(t);
      PathSplit(path, Tail(t, ""));
      assert Text(t)[0] == path[0][0];
    }
  }

  // ----- texts have one type -----

  lemma {:induction false} SameType(t: Ty, s: string, u: Ty, s': string)
    requires Plainly(t) && Plainly(u) && Behind(s) && Behind(s') && Text(t) + s == Text(u) + s'
    ensures t == u && s == s'
    decreases |Text(t)| + |s|, 3
  {
    hide Plainly, Text, Tail, PathText, IsPath;
    assert |Text(t) + s| == |Text(u) + s'|;
    FirstCharacter(t, s);
    FirstCharacter(u, s');
    if Worded(t) {
      WordedText(t, s);
      WordedText(u, s');
      SamePath(PathOf(t), Tail(t, s), PathOf(u), Tail(u, s'));
      PathIsPlain(PathOf(t));
      SameTail(t, s, u, s');
    } else if t.Reference? {
      SameReference(t, s, u, s');
    } else {
      SameArray(t, s, u, s');
    }
  }

  lemma {:induction false} SameTail(t: Ty, s: string, u: Ty, s': string)
    requires Plainly(t) && Plainly(u) && Worded(t) && Worded(u) && Behind(s) && Behind(s')
    requires PathOf(t) == PathOf(u) && Tail(t, s) == Tail(u, s')
    ensures t == u && s == s'
    decreases |Tail(t, s)|, 5
  {
    hide Text, ListText;
    SameForm(t, s, u, s');
    match t
    case Named(_) =>
    case Generic(_, args) =>
      Strip(":[", ListText(args) + ("]" + s), ListText(u.args) + ("]" + s'));
      SameTypes(args, "]" + s, u.args, "]" + s');
      Strip("]", s, s');
    case Optional(inner) =>
      Strip("[", Text(inner) + ("]" + s), Text(u.inner) + ("]" + s'));
      SameType(inner, "]" + s, u.inner, "]" + s');
      Strip("]", s, s');
    case Pointer(inner) =>
      Strip(":", Text(inner) + s, Text(u.inner) + s');
      SameType(inner, s, u.inner, s');
    case Function(params, result) =>
      var r, r' := Text(result) + s, Text(u.result) + s';
      Strip("(", ListText(params) + ("): " + r), ListText(u.params) + ("): " + r'));
      SameTypes(params, "): " + r, u.params, "): " + r');
      Strip("): ", r, r');
      SameType(result, s, u.result, s');
  }

  lemma TailFirst(t: Ty, s: string)
    requires Worded(t) && Behind(s)
    ensures match t
            case Named(_) => Behind(Tail(t, s))
            case Generic(_, _) => Tail(t, s) != "" && Tail(t, s)[0] == ':'
            case Pointer(_) => Tail(t, s) != "" && Tail(t, s)[0] == ':'
            case Optional(_) => Tail(t, s) != "" && Tail(t, s)[0] == '['
            case _ => Tail(t, s) != "" && Tail(t, s)[0] == '('
  {
  }

  /** What stands behind the path tells the forms apart. */
  lemma {:induction false} SameForm(t: Ty, s: string, u: Ty, s': string)
    requires Plainly(t) && Plainly(u) && Worded(t) && Worded(u) && Behind(s) && Behind(s')
    requires PathOf(t) == PathOf(u) && Tail(t, s) == Tail(u, s')
    ensures t.Named? == u.Named? && t.Generic? == u.Generic? && t.Optional? == u.Optional? && t.Pointer? == u.Pointer?
    decreases |Tail(t, s)|, 4
  {
    hide Text, ListText;
    TailFirst(t, s);
    TailFirst(u, s');
    if t.Generic? && u.Pointer? {
      GenericIsNoPointer(t.args, s, u.inner, s');
    } else if t.Pointer? && u.Generic? {
      GenericIsNoPointer(u.args, s', t.inner, s);
    }
  }

  lemma {:induction false} GenericIsNoPointer(args: seq<Ty>, s: string, inner: Ty, s': string)
    requires AllPlainly(args) && |args| != 1 && Plainly(inner) && Behind(s) && Behind(s')
    ensures ":[" + (ListText(args) + ("]" + s)) != ":" + (Text(inner) + s')
    decreases |ListText(args)| + |s| + 3, 2
  {
    hide Text, ListText, Plainly, ArrayRest;
    var l := ListText(args) + ("]" + s);
    if args != [] { ListFirst(args, "]" + s); } else { NoTypes("]" + s); }
    if ":[" + l == ":" + (Text(inner) + s') {
      assert ":[" + l == ":" + ("[" + l);
      Strip(":", "[" + l, Text(inner) + s');
      FirstCharacter(inner, s');
      ArrayText(inner, s');
      Strip("[", l, Text(inner.inner) + ArrayRest(inner, s'));
      ArrayInside(inner);
      FirstCharacter(inner.inner, ArrayRest(inner, s'));
      assert args != [];
      ArrayRestFirst(inner, s');
      SameType(args[0], ListRest(args, "]" + s), inner.inner, ArrayRest(inner, s'));
      assert false;
    }
  }

  lemma NoTypes(x: string)
    ensures ListText([]) + x == x
  {
  }

  lemma ArrayInside(t: Ty)
    requires Plainly(t) && (t.Slice? || t.Sized?)
    ensures Plainly(t.inner)
  {
  }

  lemma ArrayRestFirst(t: Ty, s: string)
    requires t.Slice? || t.Sized?
    ensures ArrayRest(t, s) != "" && ArrayRest(t, s)[0] == if t.Slice? then ']' else '*'
  {
  }

  // ----- arrays -----

  function ArrayRest(t: Ty, s: string): string
    requires t.Slice? || t.Sized?
  {
    if t.Slice? then "]" + s else "*" + (Decimal(t.count) + ("]" + s))
  }

  lemma ArrayText(t: Ty, s: string)
    requires t.Slice? || t.Sized?
    ensures Text(t) + s == "[" + (Text(t.inner) + ArrayRest(t, s)) && Behind(ArrayRest(t, s))
  {
    hide Decimal;
    if t.Slice? {
      assert "[" + Text(t.inner) + "]" + s == "[" + (Text(t.inner) + ("]" + s));
    } else {
      assert "[" + Text(t.inner) + "*" + Decimal(t.count) + "]" + s == "[" + (Text(t.inner) + ("*" + (Decimal(t.count) + ("]" + s))));
    }
  }

  lemma {:induction false} SameArray(t: Ty, s: string, u: Ty, s': string)
    requires Plainly(t) && Plainly(u) && (t.Slice? || t.Sized?) && (u.Slice? || u.Sized?)
    requires Behind(s) && Behind(s') && Text(t) + s == Text(u) + s'
    ensures t == u && s == s'
    decreases |Text(t)| + |s|, 2
  {
    hide Text, Decimal;
    ArrayText(t, s);
    ArrayText(u, s');
    Strip("[", Text(t.inner) + ArrayRest(t, s), Text(u.inner) + ArrayRest(u, s'));
    assert |Text(t) + s| == 1 + |Text(t.inner)| + |ArrayRest(t, s)|;
    SameType(t.inner, ArrayRest(t, s), u.inner, ArrayRest(u, s'));
    assert ArrayRest(t, s)[0] == ArrayRest(u, s')[0];
    if t.Sized? {
      Strip("*", Decimal(t.count) + ("]" + s), Decimal(u.count) + ("]" + s'));
      SameCount(t.count, "]" + s, u.count, "]" + s');
    }
    Strip("]", s, s');
  }

  // ----- references -----

  function AfterLifetime(t: Ty, s: string): string
    requires t.Reference?
  {
    MutText(t.isMut) + (Text(t.inner) + s)
  }

  lemma ReferenceText(t: Ty, s: string)
    requires t.Reference?
    ensures Text(t) + s == "&" + (LifetimeText(t.lifetime) + AfterLifetime(t, s))
  {
    hide MutText, LifetimeText;
    assert "&" + LifetimeText(t.lifetime) + MutText(t.isMut) + Text(t.inner) + s
        == "&" + (LifetimeText(t.lifetime) + (MutText(t.isMut) + (Text(t.inner) + s)));
  }

  /** A type does not begin with `mut` and a space. */
  lemma NoMut(t: Ty, s: string, x: string)
    requires Plainly(t) && Behind(s)
    ensures Text(t) + s != "mut " + x
  {
    if Text(t) + s == "mut " + x {
      hide Plainly, Text, Tail;
      FirstCharacter(t, s);
      assert ("mut " + x)[0] == 'm';
      WordedText(t, s);
      PathSplit(PathOf(t), Tail(t, s));
      assert "mut " + x == "mut" + (" " + x) && (" " + x)[0] == ' ';
      SameWord(PathOf(t)[0], PathRest(PathOf(t), Tail(t, s)), "mut", " " + x);
      TailFirst(t, s);
      assert false;
    }
  }

  lemma AfterFirst(t: Ty, s: string)
    requires Plainly(t) && t.Reference?
    ensures AfterLifetime(t, s) != "" && AfterLifetime(t, s)[0] != '\''
  {
    FirstCharacter(t.inner, s);
  }

  lemma LifetimeIs(l: string, a: string)
    requires a != "" && a[0] != '\''
    ensures LifetimeText(l) + a == if l == "" then a else "'" + (l + (" " + a))
    ensures LifetimeText(l) + a != "" && ((LifetimeText(l) + a)[0] == '\'' <==> l != "")
  {
    if l != "" {
      Three("'", l, " ", a);
    } else {
      assert "" + a == a;
    }
  }

  lemma SameLifetime(l: string, a: string, k: string, b: string)
    requires (l == "" || IsWord(l)) && (k == "" || IsWord(k))
    requires a != "" && a[0] != '\'' && b != "" && b[0] != '\''
    requires LifetimeText(l) + a == LifetimeText(k) + b
    ensures l == k && a == b
  {
    hide LifetimeText;
    LifetimeIs(l, a);
    LifetimeIs(k, b);
    if l != "" {
      Strip("'", l + (" " + a), k + (" " + b));
      SameWord(l, " " + a, k, " " + b);
      Strip(" ", a, b);
    }
  }

  lemma {:induction false} SameReference(t: Ty, s: string, u: Ty, s': string)
    requires Plainly(t) && Plainly(u) && t.Reference? && u.Reference?
    requires Behind(s) && Behind(s') && Text(t) + s == Text(u) + s'
    ensures t == u && s == s'
    decreases |Text(t)| + |s|, 2
  {
    hide Text, LifetimeText;
    ReferenceText(t, s);
    ReferenceText(u, s');
    Strip("&", LifetimeText(t.lifetime) + AfterLifetime(t, s), LifetimeText(u.lifetime) + AfterLifetime(u, s'));
    AfterFirst(t, s);
    AfterFirst(u, s');
    SameLifetime(t.lifetime, AfterLifetime(t, s), u.lifetime, AfterLifetime(u, s'));
    NoMut(t.inner, s, Text(u.inner) + s');
    NoMut(u.inner, s', Text(t.inner) + s);
    assert t.isMut == u.isMut;
    Strip(MutText(t.isMut), Text(t.inner) + s, Text(u.inner) + s');
    assert |Text(t) + s| > |Text(t.inner) + s|;
    SameType(t.inner, s, u.inner, s');
  }

  // ----- lists -----

  lemma {:induction false} SameTypes(ts: seq<Ty>, x: string, us: seq<Ty>, y: string)
    requires AllPlainly(ts) && AllPlainly(us) && x != "" && y != "" && x[0] == y[0] && x[0] in {']', ')'}
    requires ListText(ts) + x == ListText(us) + y
    ensures ts == us && x == y
    decreases |ListText(ts)| + |x|, 4
  {
    assert |ListText(ts) + x| == |ListText(us) + y|;
    if ts != [] { ListFirst(ts, x); } else { NoTypes(x); }
    if us != [] { ListFirst(us, y); } else { NoTypes(y); }
    if ts != [] {
      hide Text, Plainly;
      SameType(ts[0], ListRest(ts, x), us[0], ListRest(us, y));
      if |ts| > 1 {
        Strip(", ", ListText(ts[1..]) + x, ListText(us[1..]) + y);
        SameTypes(ts[1..], x, us[1..], y);
      }
      assert ts == [ts[0]] + ts[1..] && us == [us[0]] + us[1..];
    }
  }

  function ListRest(ts: seq<Ty>, x: string): string
    requires ts != []
  {
    if |ts| == 1 then x else ", " + (ListText(ts[1..]) + x)
  }

  lemma ListFirst(ts: seq<Ty>, x: string)
    requires ts != [] && AllPlainly(ts)
    ensures ListText(ts) + x == Text(ts[0]) + ListRest(ts, x)
    ensures (ListText(ts) + x) != "" && (ListText(ts) + x)[0] !in {']', ')'}
  {
    hide Text;
    FirstCharacter(ts[0], ListRest(ts, x));
    if |ts| > 1 {
      assert Text(ts[0]) + ", " + ListText(ts[1..]) + x == Text(ts[0]) + (", " + (ListText(ts[1..]) + x));
    }
  }

  // ----- the theorem -----

  /** Two types have the same text exactly when they differ at most in writing `ref [x]` or
      `ptr:[x]`. */
  lemma SameTexts(t: Ty, u: Ty)
    requires WellFormed(t) && WellFormed(u)
    ensures Text(t) == Text(u) <==> Canonical(t) == Canonical(u)
  {
    hide Plainly, Text, WellFormed, Canonical;
    CanonicalText(t);
    CanonicalText(u);
    if Text(t) == Text(u) {
      SameType(Canonical(t), "", Canonical(u), "");
    }
  }

  /** So a list of types behind a pointer cannot be told from a generic type with the name
      `ptr`. */
  lemma APointerToASliceLooksGeneric(x: Ty)
    ensures Text(Pointer(Slice(x))) == Text(Generic(["ptr"], [x])) && Pointer(Slice(x)) != Generic(["ptr"], [x])
  {
    assert ListText([x]) == Text(x);
    assert "ptr" + ":[" + Text(x) + "]" == "ptr:" + ("[" + Text(x) + "]");
  }
}
