/**
  Taking type texts apart again: the parameters and the result of a function type, the
  arguments of a generic type.
 */
module TypeTexts {
  import opened Types

  // ----- trimming -----

  function TrimLeft(s: string): string {
    if s != "" && s[0] == ' ' then TrimLeft(s[1..]) else s
  }

  function TrimRight(s: string): string {
    if s != "" && s[|s| - 1] == ' ' then TrimRight(s[..|s| - 1]) else s
  }

  function Trim(s: string): string {
    TrimRight(TrimLeft(s))
  }

  method TypeTextTrim(ty: string) returns (r: string)
    ensures r == Trim(ty)
  {
    var start, end := 0, |ty|;
    assert ty[0..] == ty;
    while start < end && ty[start] == ' '
      invariant start <= end == |ty| && TrimLeft(ty[start..]) == TrimLeft(ty)
    {
      assert ty[start..][1..] == ty[start + 1..];
      start := start + 1;
    }
    assert ty[start..end] == ty[start..];
    while end > start && ty[end - 1] == ' '
      invariant start <= end <= |ty| && TrimRight(ty[start..end]) == Trim(ty)
    {
      assert ty[start..end][..end - start - 1] == ty[start..end - 1];
      end := end - 1;
    }
    r := ty[start..end];
  }

  // ----- function types -----

  function NextDepth(c: char, depth: int): int {
    if Opens(c, true) then depth + 1 else if Closes(c, true) then depth - 1 else depth
  }

  /** How far the bracket that closes the parameters is, from a depth; -1 when there is none. */
  function CloseIn(s: string, depth: int): (r: int)
    ensures -1 <= r < |s| && (depth <= 0 ==> r != 0)
  {
    if s == [] then -1
    else if s[0] == ')' && depth == 1 then 0
    else
      var r := CloseIn(s[1..], NextDepth(s[0], depth));
      if r < 0 then -1 else r + 1
  }

  /** The scan starts at the bracket after `fn`. */
  function FunctionClose(ty: string): (r: int)
    ensures r == -1 || 3 <= r < |ty|
  {
    var r := if |ty| < 2 then -1 else CloseIn(ty[2..], 0);
    if r < 0 then -1 else r + 2
  }

  method TypeFunctionClose(ty: string) returns (close: int)
    ensures close == FunctionClose(ty)
  {
    var depth := 0;
    var i := 2;
    while i < |ty|
      invariant 2 <= i <= |ty| || |ty| < 2
      invariant |ty| >= 2 ==> FunctionClose(ty) == var r := CloseIn(ty[i..], depth); if r < 0 then -1 else r + i
    {
      assert ty[i..][1..] == ty[i + 1..];
      if ty[i] == '(' || ty[i] == '[' {
        depth := depth + 1;
      } else if ty[i] == ')' || ty[i] == ']' {
        depth := depth - 1;
        if ty[i] == ')' && depth == 0 { return i; }
      }
      i := i + 1;
    }
    close := -1;
  }

  function AddPart(part: string, rest: seq<string>): seq<string> {
    if Trim(part) == "" then rest else [Trim(part)] + rest
  }

  /** The parts between the commas outside all brackets, with what was read of the
      current one. */
  function PartsIn(s: string, depth: int, part: string): seq<string> {
    if s == [] then AddPart(part, [])
    else
      var d := NextDepth(s[0], depth);
      if s[0] == ',' && d == 0 then AddPart(part, PartsIn(s[1..], d, "")) else PartsIn(s[1..], d, part + [s[0]])
  }

  function FunctionParams(ty: string): seq<string> {
    var close := FunctionClose(ty);
    if close < 0 then [] else PartsIn(ty[3..close], 0, "")
  }

  lemma PartsStep(ty: string, close: nat, start: nat, i: nat, depth: int)
    requires start <= i < close < |ty|
    ensures var d := NextDepth(ty[i], depth);
            PartsIn(ty[i..close], depth, ty[start..i])
            == if ty[i] == ',' && d == 0 then AddPart(ty[start..i], PartsIn(ty[i + 1..close], d, ty[i + 1..i + 1]))
               else PartsIn(ty[i + 1..close], d, ty[start..i + 1])
  {
    assert ty[i..close][1..] == ty[i + 1..close] && ty[start..i] + [ty[i]] == ty[start..i + 1];
    assert ty[i + 1..i + 1] == "";
  }

  lemma PartAdded(params: seq<string>, part: string, rest: seq<string>)
    ensures params + AddPart(part, rest) == (if Trim(part) == "" then params else params + [Trim(part)]) + rest
  {
  }

  lemma LastPart(ty: string, start: nat, close: nat, depth: int)
    requires start <= close < |ty|
    ensures PartsIn(ty[close..close], depth, ty[start..close]) == AddPart(ty[start..close], [])
  {
  }

  method TypeFunctionParams(ty: string) returns (params: seq<string>)
    ensures params == FunctionParams(ty)
  {
    hide PartsIn, AddPart, Trim;
    params := [];
    var close := TypeFunctionClose(ty);
    if close < 0 { return; }
    var start, depth, i := 3, 0, 3;
    assert ty[3..3] == "" && params + FunctionParams(ty) == FunctionParams(ty);
    while i < close + 1
      invariant 3 <= start <= i <= close + 1
      invariant i <= close ==> params + PartsIn(ty[i..close], depth, ty[start..i]) == FunctionParams(ty)
      invariant i == close + 1 ==> params == FunctionParams(ty)
    {
      var atEnd := i == close;
      if atEnd { LastPart(ty, start, close, depth); } else { PartsStep(ty, close, start, i, depth); }
      if !atEnd && (ty[i] == '(' || ty[i] == '[') {
        depth := depth + 1;
      } else if !atEnd && (ty[i] == ')' || ty[i] == ']') {
        depth := depth - 1;
      }
      if atEnd || (ty[i] == ',' && depth == 0) {
        var param := TypeTextTrim(ty[start..i]);
        PartAdded(params, ty[start..i], if atEnd then [] else PartsIn(ty[i + 1..close], depth, ty[i + 1..i + 1]));
        if param != "" { params := params + [param]; }
        start := i + 1;
      }
      i := i + 1;
    }
  }

  function SkipColon(s: string): string {
    if s != "" && s[0] in ": " then SkipColon(s[1..]) else s
  }

  function FunctionReturn(ty: string): string {
    var close := FunctionClose(ty);
    if close < 0 then "unknown" else Trim(SkipColon(ty[close + 1..]))
  }

  method TypeFunctionReturn(ty: string) returns (r: string)
    ensures r == FunctionReturn(ty)
  {
    var close := TypeFunctionClose(ty);
    if close < 0 { return "unknown"; }
    var start := close + 1;
    while start < |ty| && (ty[start] == ':' || ty[start] == ' ')
      invariant start <= |ty| && SkipColon(ty[start..]) == SkipColon(ty[close + 1..])
    {
      assert ty[start..][1..] == ty[start + 1..];
      start := start + 1;
    }
    r := TypeTextTrim(ty[start..]);
  }

  lemma {:induction false} CloseSkips(a: string, k: nat, b: string, d: nat)
    requires d >= 1 && Nested(a, k, true)
    ensures CloseIn(a + b, k + d) == var r := CloseIn(b, d); if r < 0 then -1 else r + |a|
  {
    if a == [] {
      assert a + b == b;
    } else {
      assert (a + b)[1..] == a[1..] + b;
      var k' := if Opens(a[0], true) then k + 1 else if Closes(a[0], true) then k - 1 else k;
      CloseSkips(a[1..], k', b, d);
    }
  }

  lemma {:induction false} PartsSkip(a: string, k: nat, b: string, part: string)
    requires Nested(a, k, true) && Loose(a, k, true) == 0
    ensures PartsIn(a + b, k, part) == PartsIn(b, 0, part + a)
  {
    if a == [] {
      assert a + b == b && part + a == part;
    } else {
      assert (a + b)[1..] == a[1..] + b;
      var k' := if Opens(a[0], true) then k + 1 else if Closes(a[0], true) then k - 1 else k;
      PartsSkip(a[1..], k', b, part + [a[0]]);
      assert part + [a[0]] + a[1..] == part + a;
    }
  }

  lemma TrimmedText(t: Ty, lead: string)
    requires WellFormed(t) && lead in {"", " "}
    ensures Trim(lead + Text(t)) == Text(t) != ""
  {
    TextEnds(t);
    var s := Text(t);
    assert "" + s == s && (" " + s)[1..] == s;
    assert TrimLeft(s) == s;
  }

  lemma {:induction false} PartsOfList(ts: seq<Ty>, lead: string)
    requires AllWellFormed(ts) && ts != [] && lead in {"", " "}
    ensures PartsIn(ListText(ts), 0, lead) == Texts(ts)
  {
    var s := Text(ts[0]);
    TextNested(ts[0], true);
    TrimmedText(ts[0], lead);
    if |ts| == 1 {
      PartsSkip(s, 0, "", lead);
      assert s + "" == s;
      assert Texts(ts[1..]) == [];
    } else {
      var rest := ListText(ts[1..]);
      PartsSkip(s, 0, ", " + rest, lead);
      assert s + (", " + rest) == ListText(ts);
      assert (", " + rest)[1..] == " " + rest && (" " + rest)[1..] == rest;
      assert "" + " " == " ";
      PartsOfList(ts[1..], " ");
    }
  }

  lemma OpenFirst(s: string)
    ensures CloseIn("(" + s, 0) == var r := CloseIn(s, 1); if r < 0 then -1 else r + 1
  {
    assert ("(" + s)[1..] == s;
  }

  lemma CloseOfFunction(ty: string, ps: string, r: string)
    requires Nested(ps, 0, true) && ty == "fn(" + ps + "): " + r
    ensures FunctionClose(ty) == 3 + |ps|
  {
    hide Nested, CloseIn;
    CloseSkips(ps, 0, "): " + r, 1);
    assert CloseIn("): " + r, 1) == 0 by { CloseFirst(r); }
    assert ty[2..] == "(" + (ps + ("): " + r));
    OpenFirst(ps + ("): " + r));
  }

  lemma CloseFirst(r: string)
    ensures CloseIn("): " + r, 1) == 0
  {
  }

  lemma PartsOfParams(params: seq<Ty>)
    requires AllWellFormed(params)
    ensures PartsIn(ListText(params), 0, "") == Texts(params)
  {
    if params == [] { assert Trim("") == ""; } else { PartsOfList(params, ""); }
  }

  lemma ColonSkipped(r: string)
    requires r != "" && r[0] != ' ' && r[0] != ':'
    ensures SkipColon(": " + r) == r
  {
    assert SkipColon(r) == r;
    assert (": " + r)[1..] == " " + r && (" " + r)[1..] == r;
  }

  lemma ReturnOfFunction(ty: string, ps: string, result: Ty)
    requires WellFormed(result) && ty == "fn(" + ps + "): " + Text(result)
    ensures Trim(SkipColon(ty[4 + |ps|..])) == Text(result)
  {
    hide WellFormed, Text, Trim, SkipColon;
    var r := Text(result);
    assert ty[4 + |ps|..] == ": " + r;
    TextEnds(result);
    ColonSkipped(r);
    TrimmedText(result, "");
    assert "" + r == r;
  }

  /** The text of a function type gives back its parameters and its result. */
  lemma FunctionTypesDecode(params: seq<Ty>, result: Ty)
    requires WellFormed(Function(params, result))
    ensures FunctionClose(Text(Function(params, result))) == 3 + |ListText(params)|
    ensures FunctionParams(Text(Function(params, result))) == Texts(params)
    ensures FunctionReturn(Text(Function(params, result))) == Text(result)
  {
    hide Nested, Loose, Text, ListText, WellFormed, FunctionClose, PartsIn, Trim, SkipColon;
    var ps, r := ListText(params), Text(result);
    TextIsParts(params, result);
    ParamsWellFormed(params, result);
    ListNested(params, true);
    var ty := Text(Function(params, result));
    CloseOfFunction(ty, ps, r);
    assert ty[3..3 + |ps|] == ps;
    PartsOfParams(params);
    ReturnOfFunction(ty, ps, result);
  }

  lemma TextIsParts(params: seq<Ty>, result: Ty)
    ensures Text(Function(params, result)) == "fn(" + ListText(params) + "): " + Text(result)
  {
  }

  lemma ParamsWellFormed(params: seq<Ty>, result: Ty)
    requires WellFormed(Function(params, result))
    ensures AllWellFormed(params) && WellFormed(result)
  {
  }

  // ----- generic types -----

  /** The scan for one argument: inside the argument list or not, at which argument, how
      deep, and what was kept of the argument sought. */
  function ArgIn(s: string, inArgs: bool, idx: nat, depth: nat, target: int, kept: string): string {
    if s == [] then kept
    else
      var c, rest, here := s[0], s[1..], idx == target;
      if !inArgs then
        if c == '[' then ArgIn(rest, true, 0, depth, target, "") else ArgIn(rest, false, idx, depth, target, kept)
      else if c == '[' then ArgIn(rest, true, idx, depth + 1, target, if here then kept + "[" else kept)
      else if c == ']' && depth > 0 then ArgIn(rest, true, idx, depth - 1, target, if here then kept + "]" else kept)
      else if c == ']' then if here then kept else ArgIn(rest, false, idx, depth, target, kept)
      else if c == ',' && depth == 0 then if here then kept else ArgIn(rest, true, idx + 1, depth, target, "")
      else ArgIn(rest, true, idx, depth, target, if here && c != ' ' then kept + [c] else kept)
  }

  method AstGenericArgAt(ty: string, target: int) returns (result: string)
    ensures result == ArgIn(ty, false, 0, 0, target, "")
  {
    var inArgs, idx: nat, depth: nat := false, 0, 0;
    result := "";
    assert ty[0..] == ty;
    for i := 0 to |ty|
      invariant ArgIn(ty[i..], inArgs, idx, depth, target, result) == ArgIn(ty, false, 0, 0, target, "")
    {
      assert ty[i..][1..] == ty[i + 1..];
      if !inArgs && ty[i] == '[' {
        inArgs := true;
        idx := 0;
        result := "";
      } else if inArgs && ty[i] == '[' {
        depth := depth + 1;
        if idx == target { result := result + "["; }
      } else if inArgs && ty[i] == ']' && depth > 0 {
        depth := depth - 1;
        if idx == target { result := result + "]"; }
      } else if inArgs && ty[i] == ']' {
        if idx == target { return; }
        inArgs := false;
      } else if inArgs && ty[i] == ',' && depth == 0 {
        if idx == target { return; }
        idx := idx + 1;
        result := "";
      } else if inArgs && idx == target && ty[i] != ' ' {
        result := result + [ty[i]];
      }
    }
  }

  function CountIn(s: string, inArgs: bool, depth: nat, has: bool): nat {
    if s == [] then 0
    else
      var c, rest := s[0], s[1..];
      if !inArgs then if c == '[' then CountIn(rest, true, depth, false) else CountIn(rest, false, depth, has)
      else if c == '[' then CountIn(rest, true, depth + 1, true)
      else if c == ']' && depth > 0 then CountIn(rest, true, depth - 1, has)
      else if c == ']' then (if has then 1 else 0) + CountIn(rest, false, depth, has)
      else if c == ',' && depth == 0 then 1 + CountIn(rest, true, depth, false)
      else CountIn(rest, true, depth, has || c != ' ')
  }

  method AstGenericArgCount(ty: string) returns (count: nat)
    ensures count == CountIn(ty, false, 0, false)
  {
    var inArgs, hasArg, depth: nat := false, false, 0;
    count := 0;
    assert ty[0..] == ty;
    for i := 0 to |ty|
      invariant count + CountIn(ty[i..], inArgs, depth, hasArg) == CountIn(ty, false, 0, false)
    {
      assert ty[i..][1..] == ty[i + 1..];
      if !inArgs && ty[i] == '[' {
        inArgs := true;
        hasArg := false;
      } else if inArgs && ty[i] == '[' {
        depth := depth + 1;
        hasArg := true;
      } else if inArgs && ty[i] == ']' && depth > 0 {
        depth := depth - 1;
      } else if inArgs && ty[i] == ']' {
        if hasArg { count := count + 1; }
        inArgs := false;
      } else if inArgs && ty[i] == ',' && depth == 0 {
        count := count + 1;
        hasArg := false;
      } else if inArgs && ty[i] != ' ' {
        hasArg := true;
      }
    }
  }

  function Squeeze(s: string): string {
    if s == [] then "" else if s[0] == ' ' then Squeeze(s[1..]) else [s[0]] + Squeeze(s[1..])
  }

  function Step(c: char, k: nat): int {
    if Opens(c, false) then k + 1 else if Closes(c, false) then k - 1 else k
  }

  lemma {:induction false} ArgSkips(a: string, k: nat, b: string, idx: nat, target: int, kept: string)
    requires Nested(a, k, false) && Loose(a, k, false) == 0
    ensures ArgIn(a + b, true, idx, k, target, kept)
            == ArgIn(b, true, idx, 0, target, if idx == target then kept + Squeeze(a) else kept)
  {
    if a == [] {
      assert a + b == b && kept + "" == kept;
    } else {
      assert (a + b)[1..] == a[1..] + b;
      var kept' := if idx == target && a[0] != ' ' then kept + [a[0]] else kept;
      ArgSkips(a[1..], Step(a[0], k), b, idx, target, kept');
      assert kept + ([a[0]] + Squeeze(a[1..])) == kept + [a[0]] + Squeeze(a[1..]);
    }
  }

  /** A loose comma cuts the argument off. */
  lemma {:induction false} ArgIsCut(a: string, k: nat, b: string, idx: nat, kept: string)
    requires Nested(a, k, false) && Loose(a, k, false) > 0
    ensures |ArgIn(a + b, true, idx, k, idx, kept)| < |kept| + |Squeeze(a)|
  {
    assert (a + b)[1..] == a[1..] + b;
    if !(a[0] == ',' && k == 0) {
      ArgIsCut(a[1..], Step(a[0], k), b, idx, if a[0] != ' ' then kept + [a[0]] else kept);
    }
  }

  lemma {:induction false} HeadSkips(head: string, b: string, target: int, has: bool)
    requires '[' !in head
    ensures ArgIn(head + b, false, 0, 0, target, "") == ArgIn(b, false, 0, 0, target, "")
    ensures CountIn(head + b, false, 0, has) == CountIn(b, false, 0, has)
  {
    if head == [] {
      assert head + b == b;
    } else {
      assert (head + b)[1..] == head[1..] + b;
      HeadSkips(head[1..], b, target, has);
    }
  }

  /** Counting through an argument that ends in no space and no comma. */
  lemma {:induction false} CountSkips(a: string, k: nat, b: string, has: bool)
    requires Nested(a, k, false) && a != "" && a[|a| - 1] != ' ' && a[|a| - 1] != ',' && (k > 0 ==> has)
    ensures CountIn(a + b, true, k, has) == Loose(a, k, false) + CountIn(b, true, 0, true)
  {
    assert (a + b)[1..] == a[1..] + b;
    var has' := if a[0] == ',' && k == 0 then false else has || a[0] !in " ]";
    if |a| == 1 {
      assert a[1..] + b == b;
    } else {
      CountSkips(a[1..], Step(a[0], k), b, has');
    }
  }

  lemma {:induction false} CountOfList(ts: seq<Ty>, has: bool)
    requires AllWellFormed(ts) && ts != []
    ensures CountIn(ListText(ts) + "]", true, 0, has) == |ts| + LooseInList(ts)
  {
    hide Nested, Loose, WellFormed;
    var s := Text(ts[0]);
    TextNested(ts[0], false);
    TextEnds(ts[0]);
    if |ts| == 1 {
      CountSkips(s, 0, "]", has);
      assert LooseInList(ts[1..]) == 0;
      assert "]"[1..] == "";
    } else {
      var rest := ListText(ts[1..]) + "]";
      CountSkips(s, 0, ", " + rest, has);
      assert s + (", " + rest) == ListText(ts) + "]";
      assert (", " + rest)[1..] == " " + rest && (" " + rest)[1..] == rest;
      CountOfList(ts[1..], false);
    }
  }

  /** The scan through the arguments up to the one sought. */
  lemma {:induction false} ArgOfList(ts: seq<Ty>, idx: nat, k: nat)
    requires AllWellFormed(ts) && k < |ts| && LooseInList(ts[..k]) == 0
    ensures var r := ArgIn(ListText(ts) + "]", true, idx, 0, idx + k, "");
            if LooseCommas(ts[k]) == 0 then r == Squeeze(Text(ts[k])) else r != Squeeze(Text(ts[k]))
  {
    hide Nested, Loose, WellFormed;
    var s := Text(ts[0]);
    var b := if |ts| == 1 then "]" else ", " + (ListText(ts[1..]) + "]");
    assert s + b == ListText(ts) + "]";
    TextNested(ts[0], false);
    if k == 0 {
      if LooseCommas(ts[0]) == 0 {
        ArgSkips(s, 0, b, idx, idx, "");
        assert "" + Squeeze(s) == Squeeze(s);
      } else {
        ArgIsCut(s, 0, b, idx, "");
      }
    } else {
      assert ts[..k][0] == ts[0] && ts[..k][1..] == ts[1..][..k - 1];
      ArgSkips(s, 0, b, idx, idx + k, "");
      var rest := ListText(ts[1..]) + "]";
      assert (", " + rest)[1..] == " " + rest && (" " + rest)[1..] == rest;
      ArgSkips(" ", 0, rest, idx + 1, idx + k, "") by { SpaceIsNested(); }
      assert "" + Squeeze(" ") == "";
      ArgOfList(ts[1..], idx + 1, k - 1);
      assert idx + 1 + (k - 1) == idx + k;
    }
  }

  lemma SpaceIsNested()
    ensures Nested(" ", 0, false) && Loose(" ", 0, false) == 0 && Squeeze(" ") == ""
  {
    assert " "[1..] == "";
  }

  lemma {:induction false} PastTheList(ts: seq<Ty>, idx: nat, target: int)
    requires AllWellFormed(ts) && LooseInList(ts) == 0 && (ts == [] || !(idx <= target < idx + |ts|))
    ensures ArgIn(ListText(ts) + "]", true, idx, 0, target, "") == ""
  {
    hide Nested, Loose, WellFormed;
    assert "]"[1..] == "";
    if ts == [] {
      assert "" + "]" == "]";
    } else {
      var s := Text(ts[0]);
      TextNested(ts[0], false);
      if |ts| == 1 {
        ArgSkips(s, 0, "]", idx, target, "");
      } else {
        var rest := ListText(ts[1..]) + "]";
        ArgSkips(s, 0, ", " + rest, idx, target, "");
        assert s + (", " + rest) == ListText(ts) + "]";
        assert (", " + rest)[1..] == " " + rest && (" " + rest)[1..] == rest;
        ArgSkips(" ", 0, rest, idx + 1, target, "") by { SpaceIsNested(); }
        assert "" + Squeeze(" ") == "";
        PastTheList(ts[1..], idx + 1, target);
      }
    }
  }

  lemma {:induction false} FirstLoose(ts: seq<Ty>) returns (k: nat)
    requires LooseInList(ts) > 0
    ensures k < |ts| && LooseInList(ts[..k]) == 0 && LooseCommas(ts[k]) > 0
  {
    if LooseCommas(ts[0]) > 0 {
      k := 0;
    } else {
      k := FirstLoose(ts[1..]);
      k := k + 1;
      assert ts[..k][0] == ts[0] && ts[..k][1..] == ts[1..][..k - 1];
    }
  }

  lemma {:induction false} LooseUpTo(ts: seq<Ty>, k: nat)
    requires LooseInList(ts) == 0 && k <= |ts|
    ensures LooseInList(ts[..k]) == 0 && (k < |ts| ==> LooseCommas(ts[k]) == 0)
  {
    if k > 0 {
      LooseUpTo(ts[1..], k - 1);
      assert ts[..k][0] == ts[0] && ts[..k][1..] == ts[1..][..k - 1];
    }
  }

  function GenericArg(ty: string, k: int): string {
    ArgIn(ty, false, 0, 0, k, "")
  }

  ghost predicate ArgsFound(ty: string, args: seq<Ty>) {
    forall k :: 0 <= k < |args| ==> GenericArg(ty, k) == Squeeze(Text(args[k]))
  }

  /** The scans of a generic type begin at its list. */
  lemma ListAfterHead(head: string, list: string, k: int)
    requires '[' !in head
    ensures GenericArg(head + "[" + list, k) == ArgIn(list, true, 0, 0, k, "")
    ensures CountIn(head + "[" + list, false, 0, false) == CountIn(list, true, 0, false)
  {
    HeadSkips(head, "[" + list, k, false);
    assert head + ("[" + list) == head + "[" + list && ("[" + list)[1..] == list;
  }

  lemma EmptyCount()
    ensures CountIn(ListText([]) + "]", true, 0, false) == 0
  {
    assert "" + "]" == "]" && "]"[1..] == "";
  }

  lemma ArgsInList(head: string, args: seq<Ty>)
    requires '[' !in head && AllWellFormed(args)
    ensures ArgsFound(head + "[" + (ListText(args) + "]"), args) <==> LooseInList(args) == 0
  {
    hide ArgIn, ListText, GenericArg, WellFormed, Squeeze, Text;
    var list := ListText(args) + "]";
    if LooseInList(args) == 0 {
      forall k: nat | k < |args| ensures GenericArg(head + "[" + list, k) == Squeeze(Text(args[k])) {
        LooseUpTo(args, k);
        ArgOfList(args, 0, k);
        ListAfterHead(head, list, k);
      }
    } else {
      var k := FirstLoose(args);
      ArgOfList(args, 0, k);
      ListAfterHead(head, list, k);
      assert GenericArg(head + "[" + list, k) != Squeeze(Text(args[k]));
    }
  }

  /** A text `head[a, b]` counts its arguments and gives each back, up to spaces, exactly
      when no argument has a function type with two parameters outside square brackets. */
  lemma GenericArgumentsDecode(head: string, args: seq<Ty>)
    requires '[' !in head && AllWellFormed(args)
    ensures var ty := head + "[" + ListText(args) + "]";
            (CountIn(ty, false, 0, false) == |args| <==> LooseInList(args) == 0) &&
            (ArgsFound(ty, args) <==> LooseInList(args) == 0) &&
            (LooseInList(args) == 0 ==> forall k :: k < 0 || k >= |args| ==> GenericArg(ty, k) == "")
  {
    hide ArgIn, CountIn, ListText, GenericArg, WellFormed, ArgsFound;
    var ty, list := head + "[" + ListText(args) + "]", ListText(args) + "]";
    assert ty == head + "[" + list;
    ListAfterHead(head, list, 0);
    if args == [] { EmptyCount(); } else { CountOfList(args, false); }
    ArgsInList(head, args);
    if LooseInList(args) == 0 {
      forall k | k < 0 || k >= |args| ensures GenericArg(ty, k) == "" {
        PastTheList(args, 0, k);
        ListAfterHead(head, list, k);
      }
    }
  }

  lemma LooseInOne(t: Ty)
    ensures LooseInList([t]) == LooseCommas(t)
  {
    assert [t][1..] == [];
  }

  /** `Box[fn(a, b): c]` has one argument and is taken to have two. */
  lemma AFunctionArgumentIsSplit()
    ensures var f := Function([Named(["a"]), Named(["b"])], Named(["c"]));
            CountIn(Text(Generic(["Box"], [f])), false, 0, false) == 2 && GenericArg(Text(Generic(["Box"], [f])), 0) != Squeeze(Text(f))
  {
    var a, b, c := Named(["a"]), Named(["b"]), Named(["c"]);
    var f := Function([a, b], c);
    assert IsWord("a") && IsWord("b") && IsWord("c");
    assert WellFormed(a) && WellFormed(b) && WellFormed(c);
    assert AllWellFormed([a, b]) && WellFormed(f) && AllWellFormed([f]);
    LooseInOne(b);
    LooseInOne(f);
    assert [a, b][1..] == [b] && LooseInList([a, b]) == 0;
    hide Text;
    var list := ListText([f]) + "]";
    CountOfList([f], false);
    ArgOfList([f], 0, 0);
    ListAfterHead("Box:", list, 0);
    assert Text(Generic(["Box"], [f])) == "Box:" + "[" + list by { BoxText(f); }
  }

  lemma BoxText(t: Ty)
    ensures Text(Generic(["Box"], [t])) == "Box:" + "[" + (ListText([t]) + "]")
  {
    assert "Box" + ":[" + ListText([t]) + "]" == "Box:" + "[" + (ListText([t]) + "]");
  }
}
