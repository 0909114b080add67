/**
  Substitution for type parameters. It is done on the text, word by word; on the type it
  is one simultaneous substitution, as long as no word that is not a type name of its own
  happens to be a parameter.
 */
module TypeSubstitution {
  import opened Types
  import Mangling

  // ----- on the type -----

  /** The last of the first n parameters that has this name and an argument, or -1. */
  function LastMatch(name: string, params: seq<string>, n: nat, given: nat): (r: int)
    requires n <= |params|
    ensures -1 <= r < n && r < given
    ensures r >= 0 ==> params[r] == name
    ensures forall i :: r < i < n && i < given ==> params[i] != name
  {
    if n == 0 then -1
    else if params[n - 1] == name && n - 1 < given then n - 1
    else LastMatch(name, params, n - 1, given)
  }

  function Instance(t: Ty, params: seq<string>, args: seq<Ty>): Ty {
    match t
    case Named(path) =>
      var p := if |path| == 1 then LastMatch(path[0], params, |params|, |args|) else -1;
      if p < 0 then t else args[p]
    case Generic(path, ts) => Generic(path, Instances(ts, params, args))
    case Optional(inner) => Optional(Instance(inner, params, args))
    case Slice(inner) => Slice(Instance(inner, params, args))
    case Sized(inner, count) => Sized(Instance(inner, params, args), count)
    case Pointer(inner) => Pointer(Instance(inner, params, args))
    case Reference(lifetime, isMut, inner) => Reference(lifetime, isMut, Instance(inner, params, args))
    case Function(ts, result) => Function(Instances(ts, params, args), Instance(result, params, args))
  }

  function Instances(ts: seq<Ty>, params: seq<string>, args: seq<Ty>): seq<Ty> {
    if ts == [] then [] else [Instance(ts[0], params, args)] + Instances(ts[1..], params, args)
  }

  // ----- on the text -----

  function Replacement(token: string, params: seq<string>, args: seq<string>): string {
    var p := LastMatch(token, params, |params|, |args|);
    if p < 0 then token else args[p]
  }

  /** The rest of a text, with the word read so far. */
  function SubstituteIn(s: string, token: string, params: seq<string>, args: seq<string>): string {
    if s == [] then Replacement(token, params, args)
    else if IsWordChar(s[0]) then SubstituteIn(s[1..], token + [s[0]], params, args)
    else Replacement(token, params, args) + [s[0]] + SubstituteIn(s[1..], "", params, args)
  }

  function Substitute(text: string, params: seq<string>, args: seq<string>): string {
    SubstituteIn(text, "", params, args)
  }

  method ReplaceToken(token: string, params: seq<string>, args: seq<string>) returns (replacement: string)
    ensures replacement == Replacement(token, params, args)
  {
    replacement := token;
    for p := 0 to |params|
      invariant replacement == var q := LastMatch(token, params, p, |args|); if q < 0 then token else args[q]
    {
      if token == params[p] && p < |args| { replacement := args[p]; }
    }
  }

  method GenericSubstituteType(text: string, params: seq<string>, args: seq<string>) returns (out: string)
    ensures out == Substitute(text, params, args)
  {
    hide Replacement;
    out := "";
    var token := "";
    assert text[0..] == text;
    for i := 0 to |text|
      invariant out + SubstituteIn(text[i..], token, params, args) == Substitute(text, params, args)
    {
      assert text[i..][1..] == text[i + 1..];
      if IsWordChar(text[i]) {
        token := token + [text[i]];
      } else {
        var replacement := ReplaceToken(token, params, args);
        assert out + (replacement + [text[i]] + SubstituteIn(text[i + 1..], "", params, args))
            == out + replacement + [text[i]] + SubstituteIn(text[i + 1..], "", params, args);
        out := out + replacement + [text[i]];
        token := "";
      }
    }
    var last := ReplaceToken(token, params, args);
    out := out + last;
  }

  // ----- texts as words and marks -----

  /** A word is either a type name of its own or part of something else: a keyword, a
      lifetime, a count, the head of a generic type, a segment of a path. */
  datatype Piece = Word(text: string, own: bool) | Mark(c: char)

  function PathPieces(path: seq<string>): seq<Piece> {
    if path == [] then []
    else if |path| == 1 then [Word(path[0], false)]
    else [Word(path[0], false)] + [Mark(':')] + [Mark(':')] + PathPieces(path[1..])
  }

  function CountPieces(n: int): seq<Piece> {
    if n < 0 then [Mark('-')] + [Word(Mangling.Digits(-n), false)] else [Word(Mangling.Digits(n), false)]
  }

  function RefPieces(lifetime: string, isMut: bool): seq<Piece> {
    [Mark('&')]
    + (if lifetime == "" then [] else [Mark('\'')] + [Word(lifetime, false)] + [Mark(' ')])
    + (if isMut then [Word("mut", false)] + [Mark(' ')] else [])
  }

  function Pieces(t: Ty): seq<Piece> {
    match t
    case Named(path) => if |path| == 1 then [Word(path[0], true)] else PathPieces(path)
    case Generic(path, ts) => PathPieces(path) + ([Mark(':')] + [Mark('[')]) + (ListPieces(ts) + [Mark(']')])
    case Optional(inner) => [Word("Option", false)] + [Mark('[')] + (Pieces(inner) + [Mark(']')])
    case Slice(inner) => [Mark('[')] + (Pieces(inner) + [Mark(']')])
    case Sized(inner, count) => [Mark('[')] + (Pieces(inner) + [Mark('*')] + (CountPieces(count) + [Mark(']')]))
    case Pointer(inner) => [Word("ptr", false)] + [Mark(':')] + Pieces(inner)
    case Reference(lifetime, isMut, inner) => RefPieces(lifetime, isMut) + Pieces(inner)
    case Function(ts, result) =>
      [Word("fn", false)] + [Mark('(')] + (ListPieces(ts) + ([Mark(')')] + [Mark(':')] + [Mark(' ')]) + Pieces(result))
  }

  function ListPieces(ts: seq<Ty>): seq<Piece> {
    if ts == [] then []
    else if |ts| == 1 then Pieces(ts[0])
    else Pieces(ts[0]) + ([Mark(',')] + [Mark(' ')]) + ListPieces(ts[1..])
  }

  function PutPiece(p: Piece, params: seq<string>, args: seq<string>, all: bool): string {
    match p
    case Word(w, own) => if all || own then Replacement(w, params, args) else w
    case Mark(c) => [c]
  }

  /** The text with its own names replaced, or with all words replaced. */
  function Put(ps: seq<Piece>, params: seq<string>, args: seq<string>, all: bool): string {
    if ps == [] then "" else PutPiece(ps[0], params, args, all) + Put(ps[1..], params, args, all)
  }

  lemma {:induction false} PutJoined(a: seq<Piece>, b: seq<Piece>, params: seq<string>, args: seq<string>, all: bool)
    ensures Put(a + b, params, args, all) == Put(a, params, args, all) + Put(b, params, args, all)
  {
    if a == [] {
      assert a + b == b;
    } else {
      assert (a + b)[1..] == a[1..] + b;
      PutJoined(a[1..], b, params, args, all);
    }
  }

  lemma PutMark(c: char, params: seq<string>, args: seq<string>)
    ensures Put([Mark(c)], params, args, false) == [c]
  {
    assert [Mark(c)][1..] == [];
  }

  lemma PutFixed(w: string, params: seq<string>, args: seq<string>)
    ensures Put([Word(w, false)], params, args, false) == w
  {
    assert [Word(w, false)][1..] == [];
    assert w + "" == w;
  }

  lemma PutMarks(c: char, d: char, params: seq<string>, args: seq<string>)
    ensures Put([Mark(c)] + [Mark(d)], params, args, false) == [c, d]
  {
    PutJoined([Mark(c)], [Mark(d)], params, args, false);
    PutMark(c, params, args);
    PutMark(d, params, args);
  }

  lemma {:induction false} PutPath(path: seq<string>, params: seq<string>, args: seq<string>)
    ensures Put(PathPieces(path), params, args, false) == PathText(path)
  {
    hide Put;
    if path == [] {
      PutNothing(params, args);
    } else {
      PutFixed(path[0], params, args);
      if |path| > 1 {
        var w, c, rest := [Word(path[0], false)], [Mark(':')], PathPieces(path[1..]);
        PutPath(path[1..], params, args);
        PutMark(':', params, args);
        PutJoined(w, c, params, args, false);
        PutJoined(w + c, c, params, args, false);
        PutJoined(w + c + c, rest, params, args, false);
        assert path[0] + ":" + ":" + PathText(path[1..]) == path[0] + "::" + PathText(path[1..]);
      }
    }
  }

  lemma PutNothing(params: seq<string>, args: seq<string>)
    ensures Put([], params, args, false) == ""
  {
  }

  lemma PutCount(n: int, params: seq<string>, args: seq<string>)
    ensures Put(CountPieces(n), params, args, false) == Decimal(n)
  {
    hide Put;
    var d := Mangling.Digits(if n < 0 then -n else n);
    PutFixed(d, params, args);
    if n < 0 {
      PutMark('-', params, args);
      PutJoined([Mark('-')], [Word(d, false)], params, args, false);
    }
  }

  lemma PutRef(lifetime: string, isMut: bool, params: seq<string>, args: seq<string>)
    ensures Put(RefPieces(lifetime, isMut), params, args, false) == "&" + LifetimeText(lifetime) + MutText(isMut)
  {
    hide Put;
    var q, l, s, m := [Mark('\'')], [Word(lifetime, false)], [Mark(' ')], [Word("mut", false)];
    PutNothing(params, args);
    PutMark('&', params, args);
    PutMark('\'', params, args);
    PutMark(' ', params, args);
    PutFixed(lifetime, params, args);
    PutFixed("mut", params, args);
    PutJoined(q, l, params, args, false);
    PutJoined(q + l, s, params, args, false);
    PutJoined(m, s, params, args, false);
    var a := if lifetime == "" then [] else q + l + s;
    var b := if isMut then m + s else [];
    PutJoined([Mark('&')], a, params, args, false);
    PutJoined([Mark('&')] + a, b, params, args, false);
    assert "mut" + " " == "mut ";
  }

  /** With its own names replaced, the text of a type is the text of the instance. */
  lemma {:induction false} PutOwn(t: Ty, params: seq<string>, args: seq<Ty>)
    requires WellFormed(t)
    ensures Put(Pieces(t), params, Texts(args), false) == Text(Instance(t, params, args))
    decreases t, 0
  {
    hide Put, Replacement, LastMatch, PathText, WellFormed, Texts;
    var ta := Texts(args);
    match t
    case Named(path) =>
      PutNamed(path, params, args);
    case Generic(path, ts) =>
      assert AllWellFormed(ts) by { PartsWellFormed(t); }
      PutOwnList(ts, params, args);
      PutPath(path, params, ta);
      PutMarks(':', '[', params, ta);
      PutMark(']', params, ta);
      PutJoined(ListPieces(ts), [Mark(']')], params, ta, false);
      PutThree(PathPieces(path), [Mark(':')] + [Mark('[')], ListPieces(ts) + [Mark(']')], params, ta);
      GenericText(path, Instances(ts, params, args));
    case Optional(inner) =>
      PartsWellFormed(t);
      PutOwn(inner, params, args);
      PutFixed("Option", params, ta);
      PutMark('[', params, ta);
      PutMark(']', params, ta);
      PutJoined(Pieces(inner), [Mark(']')], params, ta, false);
      PutThree([Word("Option", false)], [Mark('[')], Pieces(inner) + [Mark(']')], params, ta);
      OptionalText(Instance(inner, params, args));
    case Slice(inner) =>
      PartsWellFormed(t);
      PutOwn(inner, params, args);
      PutMark('[', params, ta);
      PutMark(']', params, ta);
      PutJoined(Pieces(inner), [Mark(']')], params, ta, false);
      PutJoined([Mark('[')], Pieces(inner) + [Mark(']')], params, ta, false);
      SliceText(Instance(inner, params, args));
    case Sized(inner, count) =>
      PartsWellFormed(t);
      PutOwn(inner, params, args);
      PutCount(count, params, ta);
      PutMark('[', params, ta);
      PutMark('*', params, ta);
      PutMark(']', params, ta);
      PutJoined(CountPieces(count), [Mark(']')], params, ta, false);
      PutThree(Pieces(inner), [Mark('*')], CountPieces(count) + [Mark(']')], params, ta);
      PutJoined([Mark('[')], Pieces(inner) + [Mark('*')] + (CountPieces(count) + [Mark(']')]), params, ta, false);
      SizedText(Instance(inner, params, args), count);
    case Pointer(inner) =>
      PartsWellFormed(t);
      PutOwn(inner, params, args);
      PutFixed("ptr", params, ta);
      PutMark(':', params, ta);
      PutThree([Word("ptr", false)], [Mark(':')], Pieces(inner), params, ta);
      assert "ptr" + ":" == "ptr:";
    case Reference(lifetime, isMut, inner) =>
      PartsWellFormed(t);
      PutOwn(inner, params, args);
      PutRef(lifetime, isMut, params, ta);
      PutJoined(RefPieces(lifetime, isMut), Pieces(inner), params, ta, false);
    case Function(ts, result) =>
      PartsWellFormed(t);
      assert AllWellFormed(ts) && WellFormed(result);
      PutOwnList(ts, params, args);
      PutOwn(result, params, args);
      PutFunction(ts, result, params, ta);
      FunctionText(Instances(ts, params, args), Instance(result, params, args));
  }

  lemma PartsWellFormed(t: Ty)
    requires WellFormed(t)
    ensures match t
            case Named(_) => true
            case Generic(_, ts) => AllWellFormed(ts)
            case Optional(inner) => WellFormed(inner)
            case Slice(inner) => WellFormed(inner)
            case Sized(inner, _) => WellFormed(inner)
            case Pointer(inner) => WellFormed(inner)
            case Reference(_, _, inner) => WellFormed(inner)
            case Function(ts, result) => AllWellFormed(ts) && WellFormed(result)
  {
  }

  lemma PutThree(a: seq<Piece>, b: seq<Piece>, c: seq<Piece>, params: seq<string>, args: seq<string>)
    ensures Put(a + b + c, params, args, false)
            == Put(a, params, args, false) + Put(b, params, args, false) + Put(c, params, args, false)
  {
    PutJoined(a, b, params, args, false);
    PutJoined(a + b, c, params, args, false);
  }

  lemma PutFunction(ts: seq<Ty>, result: Ty, params: seq<string>, args: seq<string>)
    ensures Put(Pieces(Function(ts, result)), params, args, false)
            == "fn" + "(" + (Put(ListPieces(ts), params, args, false) + "): " + Put(Pieces(result), params, args, false))
  {
    hide Put;
    var close := [Mark(')')] + [Mark(':')] + [Mark(' ')];
    PutFixed("fn", params, args);
    PutMark('(', params, args);
    PutMark(')', params, args);
    PutMark(':', params, args);
    PutMark(' ', params, args);
    PutThree([Mark(')')], [Mark(':')], [Mark(' ')], params, args);
    PutThree(ListPieces(ts), close, Pieces(result), params, args);
    PutThree([Word("fn", false)], [Mark('(')], ListPieces(ts) + close + Pieces(result), params, args);
    assert [')'] + [':'] + [' '] == "): ";
  }

  lemma GenericText(path: seq<string>, ts: seq<Ty>)
    ensures Text(Generic(path, ts)) == PathText(path) + [':', '['] + (ListText(ts) + "]")
  {
    assert PathText(path) + [':', '['] + (ListText(ts) + "]") == PathText(path) + ":[" + ListText(ts) + "]";
  }

  lemma OptionalText(t: Ty)
    ensures Text(Optional(t)) == "Option" + "[" + (Text(t) + "]")
  {
    assert "Option" + "[" + (Text(t) + "]") == "Option[" + Text(t) + "]";
  }

  lemma SliceText(t: Ty)
    ensures Text(Slice(t)) == "[" + (Text(t) + "]")
  {
    assert "[" + (Text(t) + "]") == "[" + Text(t) + "]";
  }

  lemma SizedText(t: Ty, count: int)
    ensures Text(Sized(t, count)) == "[" + (Text(t) + "*" + (Decimal(count) + "]"))
  {
    assert "[" + (Text(t) + "*" + (Decimal(count) + "]")) == "[" + Text(t) + "*" + Decimal(count) + "]";
  }

  lemma FunctionText(ts: seq<Ty>, result: Ty)
    ensures Text(Function(ts, result)) == "fn" + "(" + (ListText(ts) + "): " + Text(result))
  {
    assert "fn" + "(" + (ListText(ts) + "): " + Text(result)) == "fn(" + ListText(ts) + "): " + Text(result);
  }

  lemma PutNamed(path: seq<string>, params: seq<string>, args: seq<Ty>)
    requires WellFormed(Named(path))
    ensures Put(Pieces(Named(path)), params, Texts(args), false) == Text(Instance(Named(path), params, args))
  {
    if |path| == 1 {
      var w := [Word(path[0], true)];
      assert w[1..] == [];
      assert Put(w, params, Texts(args), false) == Replacement(path[0], params, Texts(args)) + "";
      assert Replacement(path[0], params, Texts(args)) + "" == Replacement(path[0], params, Texts(args));
    } else {
      PutPath(path, params, Texts(args));
    }
  }

  lemma {:induction false} PutOwnList(ts: seq<Ty>, params: seq<string>, args: seq<Ty>)
    requires AllWellFormed(ts)
    ensures Put(ListPieces(ts), params, Texts(args), false) == ListText(Instances(ts, params, args))
    decreases ts, 0
  {
    hide Put, Text, Pieces, Instance, WellFormed, Texts;
    var ta := Texts(args);
    if ts == [] {
      PutNothing(params, ta);
    } else {
      PutOwn(ts[0], params, args);
      if |ts| > 1 {
        PutOwnList(ts[1..], params, args);
        PutMarks(',', ' ', params, ta);
        PutThree(Pieces(ts[0]), [Mark(',')] + [Mark(' ')], ListPieces(ts[1..]), params, ta);
        assert Instances(ts, params, args)[1..] == Instances(ts[1..], params, args);
        assert [',', ' '] == ", ";
      } else {
        assert Instances(ts[1..], params, args) == [];
      }
    }
  }

  lemma {:induction false} NoParameters(t: Ty)
    ensures Instance(t, [], []) == t
    decreases t, 0
  {
    match t
    case Named(path) =>
    case Generic(path, ts) => NoParametersInList(ts);
    case Optional(inner) => NoParameters(inner);
    case Slice(inner) => NoParameters(inner);
    case Sized(inner, count) => NoParameters(inner);
    case Pointer(inner) => NoParameters(inner);
    case Reference(lifetime, isMut, inner) => NoParameters(inner);
    case Function(ts, result) =>
      NoParametersInList(ts);
      NoParameters(result);
  }

  lemma {:induction false} NoParametersInList(ts: seq<Ty>)
    ensures Instances(ts, [], []) == ts
    decreases ts, 0
  {
    if ts != [] {
      NoParameters(ts[0]);
      NoParametersInList(ts[1..]);
    }
  }

  // ----- words are kept apart -----

  predicate Spaced(ps: seq<Piece>) {
    (forall i :: 0 <= i < |ps| ==> if ps[i].Word? then IsWord(ps[i].text) else !IsWordChar(ps[i].c)) &&
    (forall i :: 0 <= i < |ps| - 1 ==> ps[i].Mark? || ps[i + 1].Mark?)
  }

  lemma SpacedMarked(a: seq<Piece>, b: seq<Piece>)
    requires Spaced(a) && Spaced(b)
    requires a == [] || b == [] || a[|a| - 1].Mark? || b[0].Mark?
    ensures Spaced(a + b)
  {
    var ps := a + b;
    forall i | 0 <= i < |ps| - 1 ensures ps[i].Mark? || ps[i + 1].Mark? {
      if i + 1 < |a| {
        assert a[i].Mark? || a[i + 1].Mark?;
      } else if i >= |a| {
        assert b[i - |a|].Mark? || b[i - |a| + 1].Mark?;
      }
    }
  }

  lemma SpacedOne(p: Piece)
    requires if p.Word? then IsWord(p.text) else !IsWordChar(p.c)
    ensures Spaced([p])
  {
  }

  /** Something in brackets or between other marks. */
  lemma SpacedBetween(a: seq<Piece>, open: char, b: seq<Piece>)
    requires Spaced(a) && Spaced(b) && !IsWordChar(open)
    ensures Spaced(a + [Mark(open)] + b)
  {
    hide Spaced;
    SpacedOne(Mark(open));
    SpacedMarked(a, [Mark(open)]);
    SpacedMarked(a + [Mark(open)], b);
  }

  lemma {:induction false} PathSpaced(path: seq<string>)
    requires IsPath(path)
    ensures Spaced(PathPieces(path))
  {
    SpacedOne(Word(path[0], false));
    if |path| > 1 {
      PathSpaced(path[1..]);
      SpacedBetween([Word(path[0], false)], ':', []);
      assert [Word(path[0], false)] + [Mark(':')] + [] == [Word(path[0], false)] + [Mark(':')];
      SpacedBetween([Word(path[0], false)] + [Mark(':')], ':', PathPieces(path[1..]));
    }
  }

  lemma CountSpaced(n: int)
    ensures Spaced(CountPieces(n))
  {
    DigitsAreWords(if n < 0 then -n else n);
  }

  lemma RefSpaced(lifetime: string, isMut: bool)
    requires lifetime == "" || IsWord(lifetime)
    ensures Spaced(RefPieces(lifetime, isMut)) && RefPieces(lifetime, isMut)[|RefPieces(lifetime, isMut)| - 1].Mark?
  {
    assert IsWord("mut");
  }

  lemma Closed(a: seq<Piece>, close: char)
    requires Spaced(a) && !IsWordChar(close)
    ensures Spaced(a + [Mark(close)])
  {
    SpacedBetween(a, close, []);
    assert a + [Mark(close)] + [] == a + [Mark(close)];
  }

  lemma Opened(open: char, a: seq<Piece>)
    requires Spaced(a) && !IsWordChar(open)
    ensures Spaced([Mark(open)] + a)
  {
    SpacedBetween([], open, a);
    assert [] + [Mark(open)] + a == [Mark(open)] + a;
  }

  lemma {:induction false} PiecesSpaced(t: Ty)
    requires WellFormed(t)
    ensures Spaced(Pieces(t))
    decreases t, 0
  {
    hide Spaced, PathPieces, RefPieces, CountPieces;
    match t
    case Named(path) =>
      if |path| == 1 { SpacedOne(Word(path[0], true)); } else { PathSpaced(path); }
    case Generic(path, ts) =>
      PathSpaced(path);
      ListSpaced(ts);
      Closed(ListPieces(ts), ']');
      Opened(':', [Mark('[')]) by { SpacedOne(Mark('[')); }
      SpacedMarked(PathPieces(path), [Mark(':')] + [Mark('[')]);
      SpacedMarked(PathPieces(path) + ([Mark(':')] + [Mark('[')]), ListPieces(ts) + [Mark(']')]);
    case Optional(inner) =>
      PiecesSpaced(inner);
      Closed(Pieces(inner), ']');
      SpacedOne(Word("Option", false));
      SpacedBetween([Word("Option", false)], '[', Pieces(inner) + [Mark(']')]);
    case Slice(inner) =>
      PiecesSpaced(inner);
      Closed(Pieces(inner), ']');
      Opened('[', Pieces(inner) + [Mark(']')]);
    case Sized(inner, count) =>
      PiecesSpaced(inner);
      CountSpaced(count);
      Closed(CountPieces(count), ']');
      SpacedBetween(Pieces(inner), '*', CountPieces(count) + [Mark(']')]);
      Opened('[', Pieces(inner) + [Mark('*')] + (CountPieces(count) + [Mark(']')]));
    case Pointer(inner) =>
      PiecesSpaced(inner);
      SpacedOne(Word("ptr", false));
      SpacedBetween([Word("ptr", false)], ':', Pieces(inner));
    case Reference(lifetime, isMut, inner) =>
      PiecesSpaced(inner);
      RefSpaced(lifetime, isMut);
      SpacedMarked(RefPieces(lifetime, isMut), Pieces(inner));
    case Function(ts, result) =>
      ListSpaced(ts);
      PiecesSpaced(result);
      SpacedOne(Word("fn", false));
      SpacedFunction(ListPieces(ts), Pieces(result));
  }

  lemma SpacedFunction(ps: seq<Piece>, r: seq<Piece>)
    requires Spaced(ps) && Spaced(r)
    ensures Spaced([Word("fn", false)] + [Mark('(')] + (ps + ([Mark(')')] + [Mark(':')] + [Mark(' ')]) + r))
  {
    hide Spaced;
    SpacedOne(Mark(')'));
    Closed([Mark(')')], ':');
    Closed([Mark(')')] + [Mark(':')], ' ');
    var close := [Mark(')')] + [Mark(':')] + [Mark(' ')];
    SpacedMarked(ps, close);
    SpacedMarked(ps + close, r);
    SpacedOne(Word("fn", false));
    SpacedBetween([Word("fn", false)], '(', ps + close + r);
  }

  lemma {:induction false} ListSpaced(ts: seq<Ty>)
    requires AllWellFormed(ts)
    ensures Spaced(ListPieces(ts))
    decreases ts, 0
  {
    hide Spaced, Pieces;
    if ts == [] {
      NothingSpaced();
    } else {
      PiecesSpaced(ts[0]);
      if |ts| > 1 {
        ListSpaced(ts[1..]);
        Opened(',', [Mark(' ')]) by { SpacedOne(Mark(' ')); }
        SpacedMarked(Pieces(ts[0]), [Mark(',')] + [Mark(' ')]);
        SpacedMarked(Pieces(ts[0]) + ([Mark(',')] + [Mark(' ')]), ListPieces(ts[1..]));
      }
    }
  }

  lemma NothingSpaced()
    ensures Spaced([])
  {
  }

  // ----- the text substitution replaces all words -----

  lemma {:induction false} WordRead(w: string, s: string, token: string, params: seq<string>, args: seq<string>)
    requires forall i :: 0 <= i < |w| ==> IsWordChar(w[i])
    ensures SubstituteIn(w + s, token, params, args) == SubstituteIn(s, token + w, params, args)
  {
    if w == [] {
      assert w + s == s && token + w == token;
    } else {
      assert (w + s)[1..] == w[1..] + s;
      WordRead(w[1..], s, token + [w[0]], params, args);
      assert token + [w[0]] + w[1..] == token + w;
    }
  }

  predicate Proper(params: seq<string>) {
    "" !in params
  }

  lemma NoWord(params: seq<string>, args: seq<string>, n: nat)
    requires Proper(params) && n <= |params|
    ensures LastMatch("", params, n, |args|) == -1
  {
  }

  lemma {:induction false} AllWordsReplaced(ps: seq<Piece>, params: seq<string>, args: seq<string>)
    requires Spaced(ps) && Proper(params)
    ensures Substitute(Put(ps, [], [], false), params, args) == Put(ps, params, args, true)
  {
    NoWord(params, args, |params|);
    if ps != [] {
      var rest := Put(ps[1..], [], [], false);
      AllWordsReplaced(ps[1..], params, args);
      match ps[0]
      case Mark(c) =>
        assert ([c] + rest)[1..] == rest;
        assert "" + [c] == [c];
      case Word(w, own) =>
        assert Replacement(w, [], []) == w;
        WordRead(w, rest, "", params, args);
        assert "" + w == w;
        if |ps| == 1 {
          assert rest == "" && Put(ps[1..], params, args, true) == "";
        } else {
          MarkAfterWord(ps, w, params, args);
        }
    }
  }

  lemma MarkAfterWord(ps: seq<Piece>, w: string, params: seq<string>, args: seq<string>)
    requires Spaced(ps) && |ps| > 1 && ps[0].Word? && Proper(params)
    ensures ps[1].Mark?
    ensures SubstituteIn(Put(ps[1..], [], [], false), w, params, args)
            == Replacement(w, params, args) + SubstituteIn(Put(ps[1..], [], [], false), "", params, args)
  {
    assert ps[0].Mark? || ps[0 + 1].Mark?;
    var c, rest := ps[1].c, Put(ps[2..], [], [], false);
    assert ps[1..][1..] == ps[2..];
    assert Put(ps[1..], [], [], false) == [c] + rest && ([c] + rest)[1..] == rest;
    NoWord(params, args, |params|);
    assert "" + [c] + SubstituteIn(rest, "", params, args) == [c] + SubstituteIn(rest, "", params, args);
  }

  // ----- when the two agree -----

  /** No word but type names of their own is a parameter with another text. */
  ghost predicate Unaffected(ps: seq<Piece>, params: seq<string>, args: seq<string>) {
    forall i :: 0 <= i < |ps| && ps[i].Word? && !ps[i].own ==> Replacement(ps[i].text, params, args) == ps[i].text
  }

  lemma {:induction false} SameText(ps: seq<Piece>, params: seq<string>, args: seq<string>)
    requires Unaffected(ps, params, args)
    ensures Put(ps, params, args, true) == Put(ps, params, args, false)
  {
    if ps != [] { SameText(ps[1..], params, args); }
  }

  function Marks(s: string): nat {
    if s == [] then 0 else (if IsWordChar(s[0]) then 0 else 1) + Marks(s[1..])
  }

  lemma {:induction false} MarksJoined(a: string, b: string)
    ensures Marks(a + b) == Marks(a) + Marks(b)
  {
    if a == [] {
      assert a + b == b;
    } else {
      assert (a + b)[1..] == a[1..] + b;
      MarksJoined(a[1..], b);
    }
  }

  lemma {:induction false} NoMarks(s: string)
    ensures Marks(s) == 0 <==> forall i :: 0 <= i < |s| ==> IsWordChar(s[i])
  {
    if s != [] { NoMarks(s[1..]); }
  }

  lemma {:induction false} MoreMarks(ps: seq<Piece>, params: seq<string>, args: seq<string>)
    requires Spaced(ps)
    ensures Marks(Put(ps, params, args, true)) >= Marks(Put(ps, params, args, false))
  {
    hide Replacement;
    if ps != [] {
      MoreMarks(ps[1..], params, args);
      MarksJoined(PutPiece(ps[0], params, args, true), Put(ps[1..], params, args, true));
      MarksJoined(PutPiece(ps[0], params, args, false), Put(ps[1..], params, args, false));
      if ps[0].Word? { NoMarks(ps[0].text); }
    }
  }

  function WordLength(s: string): (n: nat)
    ensures n <= |s|
  {
    if s != [] && IsWordChar(s[0]) then 1 + WordLength(s[1..]) else 0
  }

  lemma {:induction false} WordFirst(r: string, a: string)
    requires forall i :: 0 <= i < |r| ==> IsWordChar(r[i])
    requires a == "" || !IsWordChar(a[0])
    ensures WordLength(r + a) == |r|
  {
    if r == [] {
      assert r + a == a;
    } else {
      assert (r + a)[1..] == r[1..] + a;
      WordFirst(r[1..], a);
    }
  }

  lemma FirstWordSame(r: string, a: string, w: string, b: string)
    requires r + a == w + b
    requires forall i :: 0 <= i < |r| ==> IsWordChar(r[i])
    requires forall i :: 0 <= i < |w| ==> IsWordChar(w[i])
    requires (a == "" || !IsWordChar(a[0])) && (b == "" || !IsWordChar(b[0]))
    ensures r == w && a == b
  {
    WordFirst(r, a);
    WordFirst(w, b);
    assert r == (r + a)[..|r|] && w == (w + b)[..|w|];
    assert a == (r + a)[|r|..] && b == (w + b)[|w|..];
  }

  lemma {:induction false} SameTextOnly(ps: seq<Piece>, params: seq<string>, args: seq<string>)
    requires Spaced(ps) && Put(ps, params, args, true) == Put(ps, params, args, false)
    ensures Unaffected(ps, params, args)
  {
    hide Replacement;
    if ps != [] {
      var x, y := PutPiece(ps[0], params, args, true), PutPiece(ps[0], params, args, false);
      var a, b := Put(ps[1..], params, args, true), Put(ps[1..], params, args, false);
      assert x + a == y + b;
      MarksJoined(x, a);
      MarksJoined(y, b);
      MoreMarks(ps[1..], params, args);
      if ps[0].Word? && !ps[0].own {
        NoMarks(x);
        NoMarks(y);
        RestStartsWithMark(ps, params, args);
        FirstWordSame(x, a, y, b);
      } else {
        assert x == y && a == (x + a)[|x|..] && b == (y + b)[|y|..];
      }
      SameTextOnly(ps[1..], params, args);
      forall i | 0 <= i < |ps| && ps[i].Word? && !ps[i].own
        ensures Replacement(ps[i].text, params, args) == ps[i].text
      {
        if i > 0 { assert ps[i] == ps[1..][i - 1]; }
      }
    }
  }

  lemma RestStartsWithMark(ps: seq<Piece>, params: seq<string>, args: seq<string>)
    requires Spaced(ps) && ps != [] && ps[0].Word?
    ensures var a, b := Put(ps[1..], params, args, true), Put(ps[1..], params, args, false);
            (a == "" || !IsWordChar(a[0])) && (b == "" || !IsWordChar(b[0]))
  {
    if |ps| > 1 {
      assert ps[0].Mark? || ps[0 + 1].Mark?;
    }
  }

  /** Substituting in the text of a type gives the text of its instance exactly when no
      keyword, lifetime, count, generic head or path segment of it is replaced. */
  lemma SubstitutionIsInstantiation(t: Ty, params: seq<string>, args: seq<Ty>)
    requires WellFormed(t) && Proper(params)
    ensures Substitute(Text(t), params, Texts(args)) == Text(Instance(t, params, args))
            <==> Unaffected(Pieces(t), params, Texts(args))
  {
    hide Put, Text, Pieces, Spaced, Unaffected, Instance;
    var ps := Pieces(t);
    PiecesSpaced(t);
    PutOwn(t, [], []);
    NoParameters(t);
    assert Texts([]) == [];
    AllWordsReplaced(ps, params, Texts(args));
    PutOwn(t, params, args);
    if Unaffected(ps, params, Texts(args)) {
      SameText(ps, params, Texts(args));
    } else if Put(ps, params, Texts(args), true) == Put(ps, params, Texts(args), false) {
      SameTextOnly(ps, params, Texts(args));
    }
  }

  /** A lifetime that has the name of a type parameter is replaced with it. */
  lemma ALifetimeIsReplaced()
    ensures var t := Reference("a", false, Named(["a"]));
            Substitute(Text(t), ["a"], Texts([Named(["i32"])])) != Text(Instance(t, ["a"], [Named(["i32"])]))
  {
    var t := Reference("a", false, Named(["a"]));
    var ps, args := Pieces(t), Texts([Named(["i32"])]);
    assert ps[2] == Word("a", false) && args[0] == "i32";
    assert Replacement(ps[2].text, ["a"], args) != ps[2].text;
    SubstitutionIsInstantiation(t, ["a"], [Named(["i32"])]);
  }
}
