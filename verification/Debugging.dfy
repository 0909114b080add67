/**
  When the debugging printer can be undone: exactly when it never has to print `@e` or
  `&x` in front of a bracket or a dot.
 */
module Debugging {
  import opened Syntax
  import opened Parsing
  import opened ParsingComplete
  import opened ParsingSound
  import opened Printing

  // ----- scanning tokens as the parser sees them -----

  /** What the parser has just read: it waits for an operand, has one, has read `&`, has
      read `&mut`, has a borrow, has a dot, or has a bracket or dot after a borrow. */
  datatype Scan = Operand | Done | Ref | RefMut | Lent | Dot | Bad

  function Step(s: Scan, t: Token): Scan {
    match s
    case Operand =>
      if t.kind == Str then Done
      else if t.text in {"ref", "&"} then Ref
      else if IsUnary(t.text) then Operand
      else if t.kind in {Number, Bool, Ident} then Done
      else if t.text == "(" then Operand
      else Done
    case Ref => if t.text == "mut" then RefMut else Lent
    case RefMut => Lent
    case Dot => Done
    case Bad => Bad
    case _ =>
      if t.text in {"[", "."} && s.Lent? then Bad
      else if t.text == "." then Dot
      else if t.text in {"[", ".."} || OpLevel(t) > 0 then Operand
      else Done
  }

  function Scanned(ts: seq<Token>, s: Scan): Scan {
    if ts == [] then s else Scanned(ts[1..], Step(s, ts[0]))
  }

  lemma {:induction false} ScanJoined(a: seq<Token>, b: seq<Token>, s: Scan)
    ensures Scanned(a + b, s) == Scanned(b, Scanned(a, s))
  {
    if a == [] {
      assert a + b == b;
    } else {
      assert (a + b)[1..] == a[1..] + b;
      ScanJoined(a[1..], b, Step(s, a[0]));
    }
  }

  lemma ScanOne(t: Token, s: Scan)
    ensures Scanned([t], s) == Step(s, t)
  {
    assert [t][1..] == [];
  }

  lemma ScanBad(ts: seq<Token>)
    ensures Scanned(ts, Bad) == Bad
  {
    if ts != [] { ScanBad(ts[1..]); }
  }

  // ----- what the parser accepts scans well -----

  ghost predicate Scans(ts: seq<Token>, postfix: bool) {
    Scanned(ts, Operand) in {Done, Lent} && (postfix ==> Scanned(ts, Operand) == Done)
  }

  lemma ScanBracketed(a: seq<Token>, o: Token, b: seq<Token>, k: Token)
    requires Scans(a, true) && o.text == "[" && Scans(b, false) && k.text == "]"
    ensures Scans(a + [o] + b + [k], true)
  {
    hide Scanned;
    ScanJoined(a + [o] + b, [k], Operand);
    ScanJoined(a + [o], b, Operand);
    ScanJoined(a, [o], Operand);
    ScanOne(o, Done);
    ScanOne(k, Scanned(b, Operand));
  }

  lemma ScanSliced(a: seq<Token>, o: Token, b: seq<Token>, d: Token, e: seq<Token>, k: Token)
    requires Scans(a, true) && o.text == "[" && Scans(b, false) && d.text == ".." && Scans(e, false) && k.text == "]"
    ensures Scans(a + [o] + b + [d] + e + [k], true)
  {
    hide Scanned;
    ScanJoined(a + [o] + b + [d] + e, [k], Operand);
    ScanJoined(a + [o] + b + [d], e, Operand);
    ScanJoined(a + [o] + b, [d], Operand);
    ScanJoined(a + [o], b, Operand);
    ScanJoined(a, [o], Operand);
    ScanOne(o, Done);
    ScanOne(d, Scanned(b, Operand));
    ScanOne(k, Scanned(e, Operand));
  }

  lemma ScanField(a: seq<Token>, d: Token, name: Token)
    requires Scans(a, true) && d.text == "."
    ensures Scans(a + [d, name], true)
  {
    hide Scanned;
    assert a + [d, name] == a + [d] + [name];
    ScanJoined(a + [d], [name], Operand);
    ScanJoined(a, [d], Operand);
    ScanOne(d, Done);
    ScanOne(name, Dot);
  }

  lemma ScanInfix(a: seq<Token>, op: Token, b: seq<Token>)
    requires Scans(a, false) && OpLevel(op) > 0 && Scans(b, false)
    ensures Scans(a + [op] + b, false)
  {
    hide Scanned;
    ScanJoined(a + [op], b, Operand);
    ScanJoined(a, [op], Operand);
    ScanOne(op, Scanned(a, Operand));
  }

  lemma ScanPrefix(op: Token, a: seq<Token>)
    requires op.kind != Str && IsUnary(op.text) && Scans(a, false)
    ensures Scans([op] + a, false) && Scanned([op] + a, Operand) == Scanned(a, Operand)
  {
    hide Scanned;
    ScanJoined([op], a, Operand);
    ScanOne(op, Operand);
  }

  lemma ScanParens(o: Token, a: seq<Token>, k: Token)
    requires Punctuation(o, "(") && Scans(a, false) && k.text == ")"
    ensures Scans([o] + a + [k], true)
  {
    hide Scanned;
    ScanJoined([o] + a, [k], Operand);
    ScanJoined([o], a, Operand);
    ScanOne(o, Operand);
    ScanOne(k, Scanned(a, Operand));
  }

  lemma ScanBorrow(op: Token, mut: seq<Token>, name: Token)
    requires op.kind != Str && op.text in {"ref", "&"}
    requires if mut == [] then name.text != "mut" else |mut| == 1 && mut[0].text == "mut"
    ensures Scanned([op] + mut + [name], Operand) == Lent
  {
    hide Scanned;
    ScanJoined([op] + mut, [name], Operand);
    ScanJoined([op], mut, Operand);
    ScanOne(op, Operand);
    if mut == [] {
      assert [op] + mut == [op];
      ScanOne(name, Ref);
    } else {
      assert mut == [mut[0]];
      ScanOne(mut[0], Ref);
      ScanOne(name, RefMut);
    }
  }

  lemma {:induction false} SyntaxScans(c: Cst)
    requires Fits(c) && Starts(c) && Printable(ToTree(c))
    ensures Scans(Tokens(c), Level(c) == POSTFIX)
    decreases c, 1
  {
    hide Scanned, Scans;
    match c
    case Lit(t) => AtomScans(t);
    case Nil(t) => AtomScans(t);
    case Id(t) => AtomScans(t);
    case Paren(o, e, k) =>
      SyntaxScans(e);
      Loosened(Tokens(e), Level(e) == POSTFIX);
      ScanParens(o, Tokens(e), k);
    case Bin(op, l, r) =>
      SyntaxScans(l);
      SyntaxScans(r);
      Loosened(Tokens(l), Level(l) == POSTFIX);
      Loosened(Tokens(r), Level(r) == POSTFIX);
      ScanInfix(Tokens(l), op, Tokens(r));
    case Un(op, e) =>
      SyntaxScans(e);
      Loosened(Tokens(e), Level(e) == POSTFIX);
      ScanPrefix(op, Tokens(e));
    case Borrow(op, mut, name) =>
      ScanBorrow(op, mut, name);
      LentScans([op] + mut + [name]);
    case IndexOf(_, _, _, _) => BracketScans(c);
    case SliceOf(_, _, _, _, _, _) => BracketScans(c);
    case FieldOf(e, d, name) =>
      BaseStarts(c, e);
      SyntaxScans(e);
      ScanField(Tokens(e), d, name);
  }

  lemma {:induction false} BracketScans(c: Cst)
    requires Fits(c) && Starts(c) && Printable(ToTree(c)) && (c.IndexOf? || c.SliceOf?)
    ensures Scans(Tokens(c), true)
    decreases c, 0
  {
    hide Scanned, Scans;
    BaseStarts(c, c.e);
    SyntaxScans(c.e);
    SyntaxScans(c.i);
    Loosened(Tokens(c.i), Level(c.i) == POSTFIX);
    if c.IndexOf? {
      ScanBracketed(Tokens(c.e), c.open, Tokens(c.i), c.close);
    } else {
      SyntaxScans(c.j);
      Loosened(Tokens(c.j), Level(c.j) == POSTFIX);
      ScanSliced(Tokens(c.e), c.open, Tokens(c.i), c.dots, Tokens(c.j), c.close);
    }
  }

  lemma AtomScans(t: Token)
    requires t.kind in {Number, Bool, Str, Ident} || t.text == "nil"
    requires Plain(t)
    ensures Scans([t], true)
  {
    ScanOne(t, Operand);
  }

  lemma Loosened(ts: seq<Token>, postfix: bool)
    requires Scans(ts, postfix)
    ensures Scans(ts, false)
  {
  }

  lemma LentScans(ts: seq<Token>)
    requires Scanned(ts, Operand) == Lent
    ensures Scans(ts, false)
  {
  }

  /** The base of an index, a slice or a field begins like the whole. */
  lemma BaseStarts(c: Cst, e: Cst)
    requires Fits(c) && Starts(c) && (c.IndexOf? || c.SliceOf? || c.FieldOf?) && e == c.e
    ensures Starts(e)
  {
    NotEmpty(e);
    assert Tokens(c)[0] == Tokens(e)[0];
  }

  // ----- what the debugging printer prints -----

  /** `&x`, also behind derefs. */
  predicate LentTree(t: Tree) {
    HasTag(t, "addr") || (HasTag(t, "deref") && LentTree(t.left))
  }

  /** Somewhere a borrow is indexed, sliced or asked for a field. */
  predicate LentBase(t: Tree)
    requires Printable(t)
    decreases t
  {
    match t.tag
    case "binop" => LentBase(t.left) || LentBase(t.right)
    case "unaryop" => LentBase(t.left)
    case "deref" => LentBase(t.left)
    case "index" => LentTree(t.left) || LentBase(t.left) || LentBase(t.right)
    case "slice" => LentTree(t.left) || LentBase(t.left) || LentBase(t.right) || LentBase(t.args[0])
    case "field" => LentTree(t.left) || LentBase(t.left)
    case _ => false
  }

  function Verdict(t: Tree): Scan
    requires Printable(t)
  {
    if LentBase(t) then Bad else if LentTree(t) then Lent else Done
  }

  /** From a part on: bad stays bad, and a closing token completes the rest. */
  lemma ScanClosed(a: seq<Token>, k: Token, s: Scan)
    requires Scanned(a, s) in {Done, Lent, Bad} && k.text in {")", "]"}
    ensures Scanned(a + [k], s) == if Scanned(a, s).Bad? then Bad else Done
  {
    ScanJoined(a, [k], s);
    ScanOne(k, Scanned(a, s));
  }

  /** A part, then a token that asks for an operand, then another part. */
  lemma ScanMiddle(a: seq<Token>, m: Token, b: seq<Token>, s: Scan)
    requires Scanned(a, s) in {Done, Lent, Bad}
    requires m.text == ".." || (OpLevel(m) > 0 && m.text !in {"[", "."})
    ensures Scanned(a + [m] + b, s) == if Scanned(a, s).Bad? then Bad else Scanned(b, Operand)
  {
    ScanJoined(a + [m], b, s);
    ScanJoined(a, [m], s);
    ScanOne(m, Scanned(a, s));
    ScanBad(b);
  }

  /** A part, then a bracket, then another part. */
  lemma ScanOpened(a: seq<Token>, b: seq<Token>, s: Scan)
    requires Scanned(a, s) in {Done, Lent, Bad}
    ensures Scanned(a + [Sym("[")] + b, s) == if Scanned(a, s).Done? then Scanned(b, Operand) else Bad
  {
    ScanJoined(a + [Sym("[")], b, s);
    ScanJoined(a, [Sym("[")], s);
    ScanOne(Sym("["), Scanned(a, s));
    ScanBad(b);
  }

  lemma ScanDotted(a: seq<Token>, name: Token, s: Scan)
    requires Scanned(a, s) in {Done, Lent, Bad}
    ensures Scanned(a + [Sym("."), name], s) == if Scanned(a, s).Done? then Done else Bad
  {
    assert a + [Sym("."), name] == a + [Sym(".")] + [name];
    ScanJoined(a + [Sym(".")], [name], s);
    ScanJoined(a, [Sym(".")], s);
    ScanOne(Sym("."), Scanned(a, s));
    ScanOne(name, Scanned(a + [Sym(".")], s));
  }

  lemma ScanLeading(t: Token, a: seq<Token>)
    requires t.kind == Symbol && t.text in {"(", "@", "-", "!"}
    ensures Scanned([t] + a, Operand) == Scanned(a, Operand)
  {
    ScanJoined([t], a, Operand);
    ScanOne(t, Operand);
  }

  lemma {:induction false} DebugScans(t: Tree)
    requires Printable(t)
    ensures Scanned(Debug(t), Operand) == Verdict(t)
    decreases t
  {
    hide Scanned;
    if t.tag in {"int", "bool", "string", "ident"} {
      LeafScans(t);
    } else if t.tag == "addr" {
      ScanBorrow(Sym("&"), if t.value == 1 then [Word("mut")] else [], Token(Ident, t.text, 0));
    } else if t.tag == "binop" {
      DebugScans(t.left);
      DebugScans(t.right);
      BinaryScans(t);
    } else if t.tag in {"unaryop", "deref"} {
      DebugScans(t.left);
      UnaryScans(t);
    } else if t.tag == "index" {
      DebugScans(t.left);
      DebugScans(t.right);
      ScanOpened(Debug(t.left), Debug(t.right), Operand);
      ScanClosed(Debug(t.left) + [Sym("[")] + Debug(t.right), Sym("]"), Operand);
    } else if t.tag == "slice" {
      DebugScans(t.left);
      DebugScans(t.right);
      DebugScans(t.args[0]);
      var head := Debug(t.left) + [Sym("[")] + Debug(t.right);
      ScanOpened(Debug(t.left), Debug(t.right), Operand);
      ScanMiddle(head, Sym(".."), Debug(t.args[0]), Operand);
      ScanClosed(head + [Sym("..")] + Debug(t.args[0]), Sym("]"), Operand);
    } else {
      DebugScans(t.left);
      ScanDotted(Debug(t.left), Token(Ident, t.text, 0), Operand);
    }
  }

  lemma LeafScans(t: Tree)
    requires Printable(t) && t.tag in {"int", "bool", "string", "ident"}
    ensures Scanned(Debug(t), Operand) == Verdict(t)
  {
    ScanOne(Debug(t)[0], Operand);
    assert Debug(t) == [Debug(t)[0]];
  }

  lemma BinaryScans(t: Tree)
    requires Printable(t) && t.tag == "binop"
    requires Scanned(Debug(t.left), Operand) == Verdict(t.left) && Scanned(Debug(t.right), Operand) == Verdict(t.right)
    ensures Scanned(Debug(t), Operand) == Verdict(t)
  {
    hide Scanned, Debug;
    BinaryDebug(t);
    var (a, op, b) := (Debug(t.left), OpToken(t.text), Debug(t.right));
    assert [Sym("(")] + a + [op] + b + [Sym(")")] == [Sym("(")] + (a + [op] + b) + [Sym(")")];
    ScanMiddle(a, op, b, Operand);
    ScanLeading(Sym("("), a + [op] + b);
    ScanClosed([Sym("(")] + (a + [op] + b), Sym(")"), Operand);
  }

  lemma UnaryScans(t: Tree)
    requires Printable(t) && t.tag in {"unaryop", "deref"} && Scanned(Debug(t.left), Operand) == Verdict(t.left)
    ensures Scanned(Debug(t), Operand) == Verdict(t)
  {
    hide Scanned, Debug;
    UnaryDebug(t);
    var a := Debug(t.left);
    if t.tag == "deref" {
      ScanLeading(Sym("@"), a);
    } else {
      assert [Sym("("), Sym(t.text)] + a + [Sym(")")] == [Sym("(")] + ([Sym(t.text)] + a) + [Sym(")")];
      ScanLeading(Sym(t.text), a);
      ScanLeading(Sym("("), [Sym(t.text)] + a);
      ScanClosed([Sym("(")] + ([Sym(t.text)] + a), Sym(")"), Operand);
    }
  }

  // ----- the tree that the parser finds in the tokens -----

  /** What stands in front of a bracket or a dot. */
  datatype Tail = Index(i: Tree) | Slice(i: Tree, j: Tree) | Field(name: string)

  predicate PrintableTail(x: Tail) {
    match x
    case Index(i) => Printable(i)
    case Slice(i, j) => Printable(i) && Printable(j)
    case Field(name) => IsName(name)
  }

  predicate UnbasedTail(x: Tail)
    requires PrintableTail(x)
  {
    match x
    case Index(i) => Unbased(i)
    case Slice(i, j) => Unbased(i) && Unbased(j)
    case Field(_) => true
  }

  function TailTokens(x: Tail): seq<Token>
    requires PrintableTail(x)
  {
    match x
    case Index(i) => [Sym("[")] + Debug(i) + [Sym("]")]
    case Slice(i, j) => [Sym("[")] + Debug(i) + [Sym("..")] + Debug(j) + [Sym("]")]
    case Field(name) => [Sym("."), Token(Ident, name, 0)]
  }

  function On(e: Tree, x: Tail): Tree {
    match x
    case Index(i) => Node("index", "", 0, false, e, i, [])
    case Slice(i, j) => Node("slice", "", 0, false, e, i, [j])
    case Field(name) => Node("field", name, 0, false, e, Absent, [])
  }

  lemma OnDebug(e: Tree, x: Tail)
    requires Printable(e) && PrintableTail(x)
    ensures Printable(On(e, x)) && Debug(On(e, x)) == Debug(e) + TailTokens(x)
    ensures Unbased(On(e, x)) == (Base(e) && Unbased(e) && UnbasedTail(x))
    ensures LentTree(On(e, x)) == false
  {
    match x
    case Index(i) => OnIndex(e, i);
    case Slice(i, j) => OnSlice(e, i, j);
    case Field(name) =>
  }

  lemma Regrouped(a: seq<Token>, o: seq<Token>, b: seq<Token>, k: seq<Token>)
    ensures a + o + b + k == a + (o + b + k)
  {
  }

  lemma OnIndex(e: Tree, i: Tree)
    requires Printable(e) && Printable(i)
    ensures Printable(On(e, Index(i))) && Debug(On(e, Index(i))) == Debug(e) + TailTokens(Index(i))
    ensures Unbased(On(e, Index(i))) == (Base(e) && Unbased(e) && Unbased(i))
  {
    IndexDebug(e, i);
    IndexBases(e, i);
    hide Debug, Printable, Unbased;
    Regrouped(Debug(e), [Sym("[")], Debug(i), [Sym("]")]);
  }

  lemma IndexBases(e: Tree, i: Tree)
    requires Printable(e) && Printable(i)
    ensures Printable(On(e, Index(i))) && Unbased(On(e, Index(i))) == (Base(e) && Unbased(e) && Unbased(i))
  {
    hide Debug;
  }

  lemma SliceDebug(e: Tree, i: Tree, j: Tree)
    requires Printable(e) && Printable(i) && Printable(j)
    ensures Printable(On(e, Slice(i, j)))
    ensures Debug(On(e, Slice(i, j))) == Debug(e) + [Sym("[")] + Debug(i) + [Sym("..")] + Debug(j) + [Sym("]")]
  {
  }

  lemma SliceBases(e: Tree, i: Tree, j: Tree)
    requires Printable(e) && Printable(i) && Printable(j)
    ensures Printable(On(e, Slice(i, j))) && Unbased(On(e, Slice(i, j))) == (Base(e) && Unbased(e) && Unbased(i) && Unbased(j))
  {
    hide Debug;
  }

  lemma OnSlice(e: Tree, i: Tree, j: Tree)
    requires Printable(e) && Printable(i) && Printable(j)
    ensures Printable(On(e, Slice(i, j))) && Debug(On(e, Slice(i, j))) == Debug(e) + TailTokens(Slice(i, j))
    ensures Unbased(On(e, Slice(i, j))) == (Base(e) && Unbased(e) && Unbased(i) && Unbased(j))
  {
    SliceDebug(e, i, j);
    SliceBases(e, i, j);
    hide Debug, Printable, Unbased;
    Regrouped(Debug(e), [Sym("[")], Debug(i), [Sym("..")]);
    Regrouped(Debug(e), [Sym("[")] + Debug(i) + [Sym("..")], Debug(j), [Sym("]")]);
  }

  /** The derefs of a base are read last. */
  function Under(e: Tree, x: Tail): Tree {
    if HasTag(e, "deref") then Unary("@", Under(e.left, x)) else On(e, x)
  }

  lemma {:induction false} UnderDebug(e: Tree, x: Tail)
    requires Printable(e) && Unbased(e) && !LentTree(e) && PrintableTail(x) && UnbasedTail(x)
    ensures Printable(Under(e, x)) && Unbased(Under(e, x)) && !LentTree(Under(e, x))
    ensures Debug(Under(e, x)) == Debug(e) + TailTokens(x)
    decreases e
  {
    hide Debug, TailTokens;
    if e.tag == "deref" {
      UnderDebug(e.left, x);
      DerefDebug(e.left);
      DerefDebug(Under(e.left, x));
      assert e == Unary("@", e.left);
      assert [Sym("@")] + (Debug(e.left) + TailTokens(x)) == [Sym("@")] + Debug(e.left) + TailTokens(x);
    } else {
      OnDebug(e, x);
    }
  }

  function Rotated(t: Tree): Tree
    requires Printable(t)
    decreases t
  {
    match t.tag
    case "binop" => Binary(t.text, Rotated(t.left), Rotated(t.right))
    case "unaryop" => Unary(t.text, Rotated(t.left))
    case "deref" => Unary("@", Rotated(t.left))
    case "index" => Under(Rotated(t.left), Index(Rotated(t.right)))
    case "slice" => Under(Rotated(t.left), Slice(Rotated(t.right), Rotated(t.args[0])))
    case "field" => Under(Rotated(t.left), Field(t.text))
    case _ => t
  }

  ghost predicate Rotates(t: Tree, r: Tree)
    requires Printable(t)
  {
    Printable(r) && Unbased(r) && Debug(r) == Debug(t) && LentTree(r) == LentTree(t)
  }

  lemma {:induction false} RotatedIsUnbased(t: Tree)
    requires Printable(t) && !LentBase(t)
    ensures Rotates(t, Rotated(t))
    decreases t
  {
    hide Rotates, Under;
    if t.tag in {"int", "bool", "string", "ident", "addr"} {
      LeafRotates(t);
    } else if t.tag == "binop" {
      RotatedIsUnbased(t.left);
      RotatedIsUnbased(t.right);
      BinaryRotates(t, Rotated(t.left), Rotated(t.right));
    } else if t.tag in {"unaryop", "deref"} {
      RotatedIsUnbased(t.left);
      UnaryRotates(t, Rotated(t.left));
    } else if t.tag == "index" {
      RotatedIsUnbased(t.left);
      RotatedIsUnbased(t.right);
      IndexRotates(t, Rotated(t.left), Rotated(t.right));
    } else if t.tag == "slice" {
      RotatedIsUnbased(t.left);
      RotatedIsUnbased(t.right);
      RotatedIsUnbased(t.args[0]);
      SliceRotates(t, Rotated(t.left), Rotated(t.right), Rotated(t.args[0]));
    } else {
      RotatedIsUnbased(t.left);
      FieldRotates(t, Rotated(t.left));
    }
  }

  lemma IndexRotates(t: Tree, e: Tree, i: Tree)
    requires Printable(t) && t.tag == "index" && !LentTree(t.left) && Rotates(t.left, e) && Rotates(t.right, i)
    ensures Rotates(t, Under(e, Index(i)))
  {
    hide Debug, Under, Unbased;
    TailRotates(t, Index(t.right), e, Index(i));
  }

  lemma SliceRotates(t: Tree, e: Tree, i: Tree, j: Tree)
    requires Printable(t) && t.tag == "slice" && !LentTree(t.left)
    requires Rotates(t.left, e) && Rotates(t.right, i) && Rotates(t.args[0], j)
    ensures Rotates(t, Under(e, Slice(i, j)))
  {
    hide Debug, Under, Unbased;
    assert t.args == [t.args[0]];
    TailRotates(t, Slice(t.right, t.args[0]), e, Slice(i, j));
  }

  lemma FieldRotates(t: Tree, e: Tree)
    requires Printable(t) && t.tag == "field" && !LentTree(t.left) && Rotates(t.left, e)
    ensures Rotates(t, Under(e, Field(t.text)))
  {
    hide Debug, Under, Unbased;
    TailRotates(t, Field(t.text), e, Field(t.text));
  }

  lemma LeafRotates(t: Tree)
    requires Printable(t) && t.tag in {"int", "bool", "string", "ident", "addr"}
    ensures Rotates(t, t)
  {
  }

  lemma BinaryRotates(t: Tree, l: Tree, r: Tree)
    requires Printable(t) && t.tag == "binop" && Rotates(t.left, l) && Rotates(t.right, r)
    ensures Rotates(t, Binary(t.text, l, r))
  {
    hide Debug;
    var u := Binary(t.text, l, r);
    assert Printable(u) && Unbased(u);
    BinaryDebug(t);
    BinaryDebug(u);
  }

  lemma UnaryRotates(t: Tree, e: Tree)
    requires Printable(t) && t.tag in {"unaryop", "deref"} && Rotates(t.left, e)
    ensures Rotates(t, Unary(if t.tag == "deref" then "@" else t.text, e))
  {
    hide Debug;
    var u := Unary(if t.tag == "deref" then "@" else t.text, e);
    assert Printable(u) && Unbased(u);
    UnaryDebug(t);
    UnaryDebug(u);
  }

  /** An index, a slice or a field whose parts are rotated. */
  lemma TailRotates(t: Tree, x: Tail, e: Tree, y: Tail)
    requires Printable(t) && Printable(t.left) && PrintableTail(x) && t == On(t.left, x) && !LentTree(t.left)
    requires Rotates(t.left, e) && PrintableTail(y) && UnbasedTail(y) && TailTokens(x) == TailTokens(y)
    ensures Rotates(t, Under(e, y))
  {
    hide Debug, TailTokens, Printable, Unbased;
    OnDebug(t.left, x);
    UnderDebug(e, y);
  }

  // ----- the main result -----

  ghost predicate RoundTrips(t: Tree)
    requires Printable(t)
  {
    var r := ParseExpression(Debug(t) + [END], 0);
    r.Ok? && r.next == |Debug(t)| && ToTree(r.value) == t
  }

  lemma NoLentRoundTrip(t: Tree)
    requires Printable(t) && RoundTrips(t)
    ensures !LentBase(t)
  {
    hide Printable, Debug, Fits, ParseExpression, Starts, Scanned, LentBase;
    var ts := Debug(t) + [END];
    var c := ParseExpression(ts, 0).value;
    ExpressionSpans(ts, 0);
    assert ts[0..|Debug(t)|] == Debug(t);
    SyntaxScans(c);
    DebugScans(t);
  }

  /** Parsing undoes the debugging printer exactly when no deref and no borrow stands in
      front of a bracket or a dot. */
  lemma DebugRoundTripsIffUnbased(t: Tree)
    requires Printable(t)
    ensures RoundTrips(t) <==> Unbased(t)
  {
    hide Printable, Debug, ParseExpression, LentBase, LentTree;
    if RoundTrips(t) {
      NoLentRoundTrip(t);
      RotatedIsUnbased(t);
      ParsingUndoesDebug(Rotated(t));
    }
    if Unbased(t) { ParsingUndoesDebug(t); }
  }
}
