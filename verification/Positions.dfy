/**
  Lines and columns: where a position in the source is, and the scan that goes back from
  a line and a column to the position.
 */
module Positions {

  /** Both count from 1. */
  datatype Place = Place(line: int, column: int)

  const FIRST := Place(1, 1)

  function TabStop(column: int): int {
    (column - 1) / 8 * 8 + 9
  }

  /** Tabs stop at the columns one past the multiples of eight: at the first behind theirs. */
  lemma TabsStopAtEights(column: int, d: int)
    ensures TabStop(column) == d <==> d > column && d % 8 == 1 && forall k :: column < k < d ==> k % 8 != 1
  {
    var stop := TabStop(column);
    assert stop - 8 <= column < stop && stop % 8 == 1;
    if d > column && d % 8 == 1 && (forall k :: column < k < d ==> k % 8 != 1) {
      assert !(stop < d);
      assert (stop - d) % 8 == 0;
    }
  }

  /** A continuation byte of a multi-byte character takes no column. */
  function Width(c: char): nat {
    if 128 <= c as int < 192 then 0 else 1
  }

  /** Reading one character that is no carriage return. */
  function After(at: Place, c: char): Place {
    if c == '\n' then Place(at.line + 1, 1)
    else if c == '\t' then Place(at.line, TabStop(at.column))
    else Place(at.line, at.column + Width(c))
  }

  function PlaceOf(src: string, p: nat): (r: Place)
    requires p <= |src|
    ensures r.line >= 1 && r.column >= 1
  {
    if p == 0 then FIRST else After(PlaceOf(src, p - 1), src[p - 1])
  }

  /** The sources for which the two scanners are meant to agree. */
  predicate PlainSource(src: string) {
    forall i :: 0 <= i < |src| ==> src[i] != '\r' && src[i] as int < 128
  }

  /** The scan from an offset on: it stops at the wanted place, at the end of the wanted
      line, or at the end of the source. A carriage return, alone or before a line feed,
      ends a line too. */
  function OffsetFrom(src: string, offset: nat, at: Place, wanted: Place): (r: nat)
    requires offset <= |src|
    ensures offset <= r <= |src|
    decreases |src| - offset
  {
    if offset == |src| then |src|
    else if at.line == wanted.line && at.column >= wanted.column then offset
    else if src[offset] == '\r' then
      var o := if offset + 1 < |src| && src[offset + 1] == '\n' then offset + 1 else offset;
      if at.line == wanted.line then o else OffsetFrom(src, o + 1, Place(at.line + 1, 1), wanted)
    else if src[offset] == '\n' && at.line == wanted.line then offset
    else OffsetFrom(src, offset + 1, After(at, src[offset]), wanted)
  }

  function OffsetAt(src: string, line: int, column: int): nat {
    OffsetFrom(src, 0, FIRST, Place(if line < 1 then 1 else line, if column < 1 then 1 else column))
  }

  method DiagOffsetAt(src: string, targetLine: int, targetColumn: int) returns (offset: nat)
    ensures offset == OffsetAt(src, targetLine, targetColumn) <= |src|
  {
    var wantedLine := if targetLine < 1 then 1 else targetLine;
    var wantedColumn := if targetColumn < 1 then 1 else targetColumn;
    var line, column := 1, 1;
    offset := 0;
    while offset < |src|
      invariant offset <= |src|
      invariant OffsetFrom(src, offset, Place(line, column), Place(wantedLine, wantedColumn)) == OffsetAt(src, targetLine, targetColumn)
    {
      if line == wantedLine && column >= wantedColumn { return; }
      var c := src[offset];
      if c == '\r' {
        if offset + 1 < |src| && src[offset + 1] == '\n' { offset := offset + 1; }
        if line == wantedLine { return; }
        line := line + 1;
        column := 1;
      } else if c == '\n' {
        if line == wantedLine { return; }
        line := line + 1;
        column := 1;
      } else if c == '\t' {
        column := (column - 1) / 8 * 8 + 9;
      } else {
        column := column + Width(c);
      }
      offset := offset + 1;
    }
  }

  // ----- the two directions -----

  /** Later positions are at later places. */
  lemma {:induction false} PlacesIncrease(src: string, p: nat, q: nat)
    requires PlainSource(src) && p < q <= |src|
    ensures var (a, b) := (PlaceOf(src, p), PlaceOf(src, q));
            a.line < b.line || (a.line == b.line && a.column < b.column)
    ensures src[p] == '\n' ==> PlaceOf(src, p).line < PlaceOf(src, q).line
    decreases q
  {
    if p < q - 1 { PlacesIncrease(src, p, q - 1); }
  }

  lemma {:induction false} ScanFinds(src: string, o: nat, p: nat)
    requires PlainSource(src) && o <= p <= |src|
    ensures OffsetFrom(src, o, PlaceOf(src, o), PlaceOf(src, p)) == p
    decreases p - o
  {
    if o < p {
      PlacesIncrease(src, o, p);
      ScanFinds(src, o + 1, p);
    }
  }

  /** Going from a position to its place and back. */
  lemma PlaceRoundTrips(src: string, p: nat)
    requires PlainSource(src) && p <= |src|
    ensures OffsetAt(src, PlaceOf(src, p).line, PlaceOf(src, p).column) == p
  {
    ScanFinds(src, 0, p);
  }
}
