/**
  Symbol names of module members: every segment of the path with its length in front. A
  reader of such names gives the segments back.
 */
module Mangling {
  import opened Options

  predicate IsDigit(c: char) {
    '0' <= c <= '9'
  }

  /** A segment of a path, as identifiers are: not empty, no colon, no digit in front. */
  predicate IsSegment(s: string) {
    s != "" && !IsDigit(s[0]) && ':' !in s
  }

  predicate AllSegments(segs: seq<string>) {
    forall i :: 0 <= i < |segs| ==> IsSegment(segs[i])
  }

  function Join(segs: seq<string>): string {
    if segs == [] then "" else if |segs| == 1 then segs[0] else Join(segs[..|segs| - 1]) + "::" + segs[|segs| - 1]
  }

  function Digits(n: nat): (r: string)
    ensures r != "" && forall i :: 0 <= i < |r| ==> IsDigit(r[i])
  {
    if n < 10 then [(n as char) + '0'] else Digits(n / 10) + [((n % 10) as char) + '0']
  }

  function Encode(seg: string): string {
    Digits(|seg|) + seg
  }

  function EncodeAll(segs: seq<string>): string {
    if segs == [] then "" else Encode(segs[0]) + EncodeAll(segs[1..])
  }

  // ----- splitting a path -----

  predicate SeparatorAt(q: string, i: nat) {
    i + 1 < |q| && q[i] == ':' && q[i + 1] == ':'
  }

  function AddSegment(segs: seq<string>, seg: string): seq<string> {
    if seg != "" then [seg] + segs else segs
  }

  /** The segments from a position on, with what was read of the current one. */
  function SplitFrom(q: string, i: nat, seg: string): seq<string>
    decreases |q| - i
  {
    if i >= |q| then AddSegment([], seg)
    else if SeparatorAt(q, i) then AddSegment(SplitFrom(q, i + 2, ""), seg)
    else SplitFrom(q, i + 1, seg + [q[i]])
  }

  function MangleName(q: string, sym: string): string {
    "_V" + EncodeAll(SplitFrom(q, 0, "")) + Encode(sym)
  }

  method MangleNameOf(qualifiedModule: string, sym: string) returns (out: string)
    ensures out == MangleName(qualifiedModule, sym)
  {
    out := "_V";
    var seg := "";
    var i := 0;
    while i <= |qualifiedModule|
      invariant i <= |qualifiedModule| + 2
      invariant i <= |qualifiedModule| ==>
                  out + EncodeAll(SplitFrom(qualifiedModule, i, seg)) == "_V" + EncodeAll(SplitFrom(qualifiedModule, 0, ""))
      invariant i > |qualifiedModule| ==> out == "_V" + EncodeAll(SplitFrom(qualifiedModule, 0, ""))
      decreases |qualifiedModule| + 2 - i
    {
      var atEnd := i == |qualifiedModule|;
      var atSep := !atEnd && i + 1 < |qualifiedModule| && qualifiedModule[i] == ':' && qualifiedModule[i + 1] == ':';
      if atEnd || atSep {
        EncodeAdded(out, SplitFrom(qualifiedModule, i + 2, ""), seg);
        EncodeAdded(out, [], seg);
        if seg != "" { out := out + (Digits(|seg|) + seg); }
        seg := "";
        i := if atSep then i + 2 else i + 1;
      } else {
        seg := seg + [qualifiedModule[i]];
        i := i + 1;
      }
    }
    out := out + (Digits(|sym|) + sym);
  }

  lemma EncodeAdded(out: string, segs: seq<string>, seg: string)
    ensures out + EncodeAll(AddSegment(segs, seg)) == (if seg != "" then out + Encode(seg) else out) + EncodeAll(segs)
  {
    if seg != "" {
      assert ([seg] + segs)[1..] == segs;
      assert out + (Encode(seg) + EncodeAll(segs)) == out + Encode(seg) + EncodeAll(segs);
    }
  }

  // ----- the last separator -----

  /** The last place below n where a separator stands, or -1. */
  function LastSeparator(flat: string, n: nat): (r: int)
    ensures -1 <= r < n && (r >= 0 ==> r + 1 < |flat|)
  {
    if n == 0 then -1
    else if SeparatorAt(flat, n - 1) then n - 1
    else LastSeparator(flat, n - 1)
  }

  /** Names without a separator are left alone. */
  function MangleFlat(flat: string): string {
    var last := LastSeparator(flat, |flat|);
    if last < 0 then flat else MangleName(flat[..last], flat[last + 2..])
  }

  method MangleFlatName(flat: string) returns (out: string)
    ensures out == MangleFlat(flat)
  {
    var lastSep := -1;
    var i := 0;
    while i + 1 < |flat|
      invariant i <= |flat| && lastSep == LastSeparator(flat, i)
    {
      if flat[i] == ':' && flat[i + 1] == ':' { lastSep := i; }
      i := i + 1;
    }
    assert LastSeparator(flat, |flat|) == lastSep;
    if lastSep < 0 { return flat; }
    out := MangleNameOf(flat[..lastSep], flat[lastSep + 2..]);
  }

  // ----- paths of segments -----

  /** Reading a segment that goes on to a separator or to the end. */
  lemma {:induction false} SplitSegment(q: string, i: nat, j: nat, seg: string)
    requires i <= j <= |q| && (forall k :: i <= k < j ==> q[k] != ':')
    ensures SplitFrom(q, i, seg) == SplitFrom(q, j, seg + q[i..j])
    decreases j - i
  {
    if i < j {
      SplitSegment(q, i + 1, j, seg + [q[i]]);
      assert seg + [q[i]] + q[i + 1..j] == seg + q[i..j];
    } else {
      assert seg + q[i..j] == seg;
    }
  }

  function JoinFrom(segs: seq<string>): string {
    if segs == [] then "" else if |segs| == 1 then segs[0] else segs[0] + "::" + JoinFrom(segs[1..])
  }

  lemma {:induction false} JoinIsJoinFrom(segs: seq<string>)
    ensures Join(segs) == JoinFrom(segs)
    decreases |segs|
  {
    if |segs| == 2 {
      assert segs[..1] == [segs[0]] && segs[1..] == [segs[1]];
    } else if |segs| > 2 {
      var n := |segs| - 1;
      JoinIsJoinFrom(segs[..n]);
      JoinIsJoinFrom(segs[1..]);
      JoinIsJoinFrom(segs[1..n]);
      assert segs[..n][1..] == segs[1..n] && segs[1..][..n - 1] == segs[1..n] && segs[1..][n - 1] == segs[n];
      var m := JoinFrom(segs[1..n]);
      assert segs[0] + "::" + m + "::" + segs[n] == segs[0] + "::" + (m + "::" + segs[n]);
    }
  }

  lemma {:induction false} SplitJoin(q: string, i: nat, segs: seq<string>)
    requires i <= |q| && q[i..] == JoinFrom(segs) && AllSegments(segs)
    ensures SplitFrom(q, i, "") == segs
    decreases |segs|
  {
    if segs == [] {
      assert i == |q|;
    } else {
      var j := i + |segs[0]|;
      assert q[i..][..|segs[0]|] == segs[0];
      assert q[i..j] == segs[0];
      forall k | i <= k < j ensures q[k] != ':' { assert q[k] == segs[0][k - i]; }
      SplitSegment(q, i, j, "");
      assert "" + q[i..j] == segs[0];
      if |segs| > 1 {
        var rest := JoinFrom(segs[1..]);
        assert q[i..] == segs[0] + ("::" + rest);
        assert q[j..] == "::" + rest;
        assert q[j] == q[j..][0] && q[j + 1] == q[j..][1];
        assert q[j + 2..] == rest;
        SplitJoin(q, j + 2, segs[1..]);
        assert segs == [segs[0]] + segs[1..];
      } else {
        assert segs == [segs[0]];
      }
    }
  }

  /** The last separator of a path is the one before its last segment. */
  lemma LastOfPath(path: string, sym: string)
    requires ':' !in sym && path != "" && path[|path| - 1] != ':'
    ensures LastSeparator(path + "::" + sym, |path + "::" + sym|) == |path|
  {
    var flat := path + "::" + sym;
    NoneAfter(flat, |path|, |flat|);
  }

  lemma {:induction false} NoneAfter(flat: string, at: nat, n: nat)
    requires at < n <= |flat| && SeparatorAt(flat, at) && forall k :: at + 1 < k < |flat| ==> flat[k] != ':'
    ensures LastSeparator(flat, n) == at
    decreases n
  {
    if n - 1 > at { NoneAfter(flat, at, n - 1); }
  }

  /** A qualified name is mangled segment by segment. */
  lemma MangledPath(segs: seq<string>)
    requires |segs| >= 2 && AllSegments(segs)
    ensures MangleFlat(Join(segs)) == "_V" + EncodeAll(segs)
  {
    hide SplitFrom, EncodeAll, LastSeparator, Encode, IsSegment;
    var n := |segs| - 1;
    var path, sym := Join(segs[..n]), segs[n];
    PathEnds(segs[..n]);
    NoColon(sym);
    LastOfPath(path, sym);
    Halves(path, sym);
    MangledParts(segs[..n], path, sym);
    assert segs[..n] + [sym] == segs;
  }

  lemma NoColon(s: string)
    requires IsSegment(s)
    ensures ':' !in s
  {
  }

  lemma Halves(path: string, sym: string)
    ensures (path + "::" + sym)[..|path|] == path && (path + "::" + sym)[|path| + 2..] == sym
  {
  }

  lemma MangledParts(segs: seq<string>, path: string, sym: string)
    requires AllSegments(segs) && path == Join(segs)
    ensures MangleName(path, sym) == "_V" + EncodeAll(segs + [sym])
  {
    hide SplitFrom, EncodeAll, Encode, Join, AllSegments;
    JoinIsJoinFrom(segs);
    assert path[0..] == path;
    SplitJoin(path, 0, segs);
    EncodeLast(segs, sym);
    assert "_V" + EncodeAll(segs) + Encode(sym) == "_V" + (EncodeAll(segs) + Encode(sym));
  }

  lemma PathEnds(segs: seq<string>)
    requires segs != [] && AllSegments(segs)
    ensures Join(segs) != "" && Join(segs)[|Join(segs)| - 1] != ':'
  {
    var last := segs[|segs| - 1];
    assert IsSegment(last) && last[|last| - 1] in last;
    assert Join(segs)[|Join(segs)| - 1] == last[|last| - 1];
  }

  lemma {:induction false} EncodeLast(segs: seq<string>, sym: string)
    ensures EncodeAll(segs + [sym]) == EncodeAll(segs) + Encode(sym)
    decreases |segs|
  {
    if segs == [] {
      assert [] + [sym] == [sym] && [sym][1..] == [];
      assert EncodeAll([sym]) == Encode(sym) + EncodeAll([]);
    } else {
      assert (segs + [sym])[1..] == segs[1..] + [sym];
      EncodeLast(segs[1..], sym);
      assert Encode(segs[0]) + (EncodeAll(segs[1..]) + Encode(sym)) == Encode(segs[0]) + EncodeAll(segs[1..]) + Encode(sym);
    }
  }

  // ----- a reader of mangled names -----

  /** The number of digits in front. */
  function DigitCount(s: string): (n: nat)
    ensures n <= |s|
  {
    if s != "" && IsDigit(s[0]) then DigitCount(s[1..]) + 1 else 0
  }

  function Number(s: string): nat
    requires forall i :: 0 <= i < |s| ==> IsDigit(s[i])
  {
    if s == "" then 0
    else
      assert IsDigit(s[|s| - 1]);
      Number(s[..|s| - 1]) * 10 + (s[|s| - 1] as int - '0' as int)
  }

  lemma {:induction false} LeadingDigits(s: string)
    ensures forall i :: 0 <= i < DigitCount(s) ==> IsDigit(s[i])
  {
    if s != "" && IsDigit(s[0]) {
      LeadingDigits(s[1..]);
      assert forall i :: 0 < i < DigitCount(s) ==> s[i] == s[1..][i - 1];
    }
  }

  function Decode(s: string): Option<seq<string>>
    decreases |s|
  {
    if s == "" then Some([])
    else
      LeadingDigits(s);
      var d := DigitCount(s);
      var n := Number(s[..d]);
      if d == 0 || d + n > |s| then None
      else
        var rest := Decode(s[d + n..]);
        if rest.None? then None else Some([s[d..d + n]] + rest.value)
  }

  function Demangle(s: string): Option<seq<string>> {
    if "_V" <= s then Decode(s[2..]) else None
  }

  lemma {:induction false} NumberOfDigits(n: nat)
    ensures Number(Digits(n)) == n
    decreases n
  {
    if n >= 10 {
      NumberOfDigits(n / 10);
      assert Digits(n)[..|Digits(n)| - 1] == Digits(n / 10);
    } else {
      assert Digits(n)[..0] == "";
    }
  }

  lemma {:induction false} CountDigits(d: string, s: string)
    requires (forall i :: 0 <= i < |d| ==> IsDigit(d[i])) && (s != "" ==> !IsDigit(s[0]))
    ensures DigitCount(d + s) == |d|
    decreases |d|
  {
    if d == "" {
      assert d + s == s;
    } else {
      assert (d + s)[1..] == d[1..] + s;
      CountDigits(d[1..], s);
    }
  }

  lemma {:induction false} DecodeEncoded(segs: seq<string>)
    requires AllSegments(segs)
    ensures Decode(EncodeAll(segs)) == Some(segs)
    decreases |segs|
  {
    if segs != [] {
      var seg, rest := segs[0], EncodeAll(segs[1..]);
      assert IsSegment(seg);
      DecodeEncoded(segs[1..]);
      DecodeOne(seg, rest);
      assert segs == [seg] + segs[1..];
    }
  }

  lemma DecodeOne(seg: string, rest: string)
    requires IsSegment(seg) && Decode(rest).Some?
    ensures Decode(Encode(seg) + rest) == Some([seg] + Decode(rest).value)
  {
    var d := Digits(|seg|);
    var s := Encode(seg) + rest;
    assert s == d + (seg + rest);
    CountDigits(d, seg + rest);
    NumberOfDigits(|seg|);
    assert s[..|d|] == d;
    assert s[|d|..|d| + |seg|] == seg && s[|d| + |seg|..] == rest;
  }

  // ----- the main results -----

  /** A mangled qualified name can be read back. */
  lemma DemangleMangled(segs: seq<string>)
    requires |segs| >= 2 && AllSegments(segs)
    ensures Demangle(MangleFlat(Join(segs))) == Some(segs)
  {
    MangledPath(segs);
    DecodeEncoded(segs);
    assert ("_V" + EncodeAll(segs))[2..] == EncodeAll(segs);
  }

  lemma RootNamesStay(name: string)
    requires ':' !in name
    ensures MangleFlat(name) == name
  {
    NoSeparator(name, |name|);
  }

  lemma {:induction false} NoSeparator(name: string, n: nat)
    requires ':' !in name
    ensures LastSeparator(name, n) == -1
    decreases n
  {
    if n > 0 { NoSeparator(name, n - 1); }
  }

  /** Two paths get the same symbol only if they are the same path, where a root name must
      not itself look mangled. */
  lemma ManglingIsInjective(a: seq<string>, b: seq<string>)
    requires a != [] && b != [] && AllSegments(a) && AllSegments(b)
    requires (|a| == 1 ==> !("_V" <= a[0])) && (|b| == 1 ==> !("_V" <= b[0]))
    ensures MangleFlat(Join(a)) == MangleFlat(Join(b)) <==> a == b
  {
    hide MangleFlat, Demangle;
    SymbolOf(a);
    SymbolOf(b);
    if MangleFlat(Join(a)) == MangleFlat(Join(b)) {
      if |a| == 1 {
        assert a == [a[0]];
        assert |b| == 1;
        assert b == [b[0]];
      }
    }
  }

  lemma SymbolOf(a: seq<string>)
    requires a != [] && AllSegments(a) && (|a| == 1 ==> !("_V" <= a[0]))
    ensures |a| == 1 ==> MangleFlat(Join(a)) == a[0]
    ensures |a| >= 2 ==> "_V" <= MangleFlat(Join(a)) && Demangle(MangleFlat(Join(a))) == Some(a)
  {
    if |a| == 1 {
      assert IsSegment(a[0]);
      RootNamesStay(a[0]);
    } else {
      MangledPath(a);
      DemangleMangled(a);
    }
  }
}
