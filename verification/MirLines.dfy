/**
  The textual intermediate form, line by line, and the scalar pass over it: copies and
  constants are put in place of the names they define, branches on constants are folded,
  and assignments that nothing uses are dropped.
 */
module MirLines {
  import opened Options

  /** A run of name characters (a sign belongs to its number), a quoted string, a run of
      blanks, or any other character. */
  datatype Piece = Word(text: string) | Quote(text: string) | Gap | Other(c: char)

  datatype Line = Assign(dest: string, rhs: seq<Piece>) | Plain(body: seq<Piece>)

  datatype Alias = Alias(name: string, value: string)

  function Uses(l: Line): seq<Piece> {
    if l.Assign? then l.rhs else l.body
  }

  function WithUses(l: Line, ps: seq<Piece>): Line {
    if l.Assign? then l.(rhs := ps) else l.(body := ps)
  }

  predicate Contains(ps: seq<Piece>, name: string) {
    Word(name) in ps
  }

  function ReplacePiece(p: Piece, a: Alias): Piece {
    if p == Word(a.name) then Word(a.value) else p
  }

  function Replace(ps: seq<Piece>, a: Alias): (r: seq<Piece>)
    ensures |r| == |ps| && forall i :: 0 <= i < |ps| ==> r[i] == ReplacePiece(ps[i], a)
  {
    seq(|ps|, i requires 0 <= i < |ps| => ReplacePiece(ps[i], a))
  }

  /** The aliases one after the other, the oldest first. */
  function ReplaceAll(ps: seq<Piece>, aliases: seq<Alias>): (r: seq<Piece>)
    ensures |r| == |ps|
    decreases |aliases|
  {
    if aliases == [] then ps else Replace(ReplaceAll(ps, aliases[..|aliases| - 1]), aliases[|aliases| - 1])
  }

  // ----- the shapes that the pass looks for -----

  predicate IntegerType(ty: string) {
    ty in {"i1", "i8", "i16", "i32", "i64", "u8", "u16", "u32", "u64", "usize"}
  }

  /** `copy T v` or, for an integer type, `const T v`: the value stands for the name. */
  function AliasValue(rhs: seq<Piece>): Option<string> {
    var n := |rhs|;
    if n >= 5 && rhs[1] == Gap && rhs[n - 2] == Gap && rhs[n - 1].Word? && Gap !in rhs[2..n - 2]
       && (rhs[0] == Word("copy") || (rhs[0] == Word("const") && n == 5 && rhs[2].Word? && IntegerType(rhs[2].text)))
    then Some(rhs[n - 1].text) else None
  }

  function AliasOf(l: Line): Option<string> {
    if l.Assign? then AliasValue(l.rhs) else None
  }

  /** The assignments that are kept whether or not they are used. */
  predicate IsCall(rhs: seq<Piece>) {
    |rhs| > 1 && rhs[0] in {Word("call"), Word("syscall")} && rhs[1] == Gap
  }

  function Jump(target: string): seq<Piece> {
    [Word("br"), Gap, Word("label"), Gap, Word(target)]
  }

  function CondJump(cond: string, yes: string, no: string): seq<Piece> {
    [Word("br_cond"), Gap, Word(cond), Other(','), Gap, Word("label"), Gap, Word(yes), Other(','), Gap, Word("label"), Gap, Word(no)]
  }

  predicate IsJump(ps: seq<Piece>) {
    |ps| == 5 && ps[4].Word? && ps == Jump(ps[4].text)
  }

  predicate IsCondJump(ps: seq<Piece>) {
    |ps| == 13 && ps[2].Word? && ps[7].Word? && ps[12].Word? && ps == CondJump(ps[2].text, ps[7].text, ps[12].text)
  }

  predicate Truthy(cond: string) {
    cond == "1" || cond == "true"
  }

  predicate Falsy(cond: string) {
    cond == "0" || cond == "false"
  }

  /** A branch on a constant becomes a jump. */
  function FoldBranch(ps: seq<Piece>): seq<Piece> {
    if IsCondJump(ps) && Truthy(ps[2].text) then Jump(ps[7].text)
    else if IsCondJump(ps) && Falsy(ps[2].text) then Jump(ps[12].text)
    else ps
  }

  function Fold(l: Line): Line {
    if l.Plain? then Plain(FoldBranch(l.body)) else l
  }

  // ----- propagation -----

  datatype Propagated = Propagated(lines: seq<Line>, aliases: seq<Alias>)

  function Rewrite(l: Line, aliases: seq<Alias>): Line {
    WithUses(l, ReplaceAll(Uses(l), aliases))
  }

  function Collect(l: Line, aliases: seq<Alias>): seq<Alias> {
    if AliasOf(l).Some? then aliases + [Alias(l.dest, AliasOf(l).value)] else aliases
  }

  /** One forward pass: each line is rewritten by the aliases collected before it. */
  function Propagate(lines: seq<Line>): (r: Propagated)
    ensures |r.lines| == |lines|
    decreases |lines|
  {
    if lines == [] then Propagated([], [])
    else
      var before := Propagate(lines[..|lines| - 1]);
      var l := Rewrite(lines[|lines| - 1], before.aliases);
      Propagated(before.lines + [Fold(l)], Collect(l, before.aliases))
  }

  lemma PropagateNext(lines: seq<Line>, i: nat)
    requires i < |lines|
    ensures var before := Propagate(lines[..i]);
            var l := Rewrite(lines[i], before.aliases);
            Propagate(lines[..i + 1]) == Propagated(before.lines + [Fold(l)], Collect(l, before.aliases))
  {
    assert lines[..i + 1][..i] == lines[..i];
  }

  lemma NothingPropagated()
    ensures Propagate([]) == Propagated([], [])
  {
  }

  // ----- what propagation leaves -----

  /** Stored values mention neither their own name nor that of an older alias. */
  ghost predicate Resolved(aliases: seq<Alias>) {
    forall i, j :: 0 <= i <= j < |aliases| ==> aliases[j].value != aliases[i].name
  }

  ghost predicate Free(ps: seq<Piece>, aliases: seq<Alias>) {
    forall i :: 0 <= i < |aliases| ==> !Contains(ps, aliases[i].name)
  }

  lemma {:induction false} ReplacedIsFree(ps: seq<Piece>, aliases: seq<Alias>)
    requires Resolved(aliases)
    ensures Free(ReplaceAll(ps, aliases), aliases)
    decreases |aliases|
  {
    if aliases != [] {
      var last := |aliases| - 1;
      ReplacedIsFree(ps, aliases[..last]);
      var qs := ReplaceAll(ps, aliases[..last]);
      var rs := Replace(qs, aliases[last]);
      forall i | 0 <= i < |aliases| ensures !Contains(rs, aliases[i].name) {
        if i < last {
          assert aliases[..last][i] == aliases[i];
          assert !Contains(qs, aliases[i].name);
        }
      }
    }
  }
}
