/**
  The diagnostic bag: repeated diagnostics are dropped and errors stop being recorded
  at a limit, but neither can hide that there was an error.
 */
module Diagnostics {
  datatype Level = Error | Warning | Note | Help

  datatype Span = Span(file: string, start: int, end: int)

  const NO_SPAN := Span("", 0, 0)

  const LIMIT: nat := 50

  datatype Diag = Diag(code: string, level: Level, message: string, span: Span)

  predicate Same(a: Diag, b: Diag) {
    a.code == b.code && a.message == b.message && a.span == b.span
  }

  datatype Bag = Bag(diags: seq<Diag>, errors: nat, warnings: nat, limit: nat, stopped: bool)

  predicate Repeats(diags: seq<Diag>, d: Diag) {
    exists i :: 0 <= i < |diags| && Same(diags[i], d)
  }

  predicate Emitted(b: Bag, d: Diag) {
    !Repeats(b.diags, d) && !(d.level.Error? && b.errors >= b.limit)
  }

  function Emit(b: Bag, d: Diag): Bag {
    if Repeats(b.diags, d) then b
    else if d.level.Error? && b.errors >= b.limit then b.(stopped := true)
    else b.(diags := b.diags + [d],
            errors := b.errors + if d.level.Error? then 1 else 0,
            warnings := b.warnings + if d.level.Warning? then 1 else 0)
  }

  function EmptyBag(): Bag {
    Bag([], 0, 0, LIMIT, false)
  }

  function CountErrors(diags: seq<Diag>): nat {
    if diags == [] then 0 else CountErrors(diags[..|diags| - 1]) + if diags[|diags| - 1].level.Error? then 1 else 0
  }

  /** What every bag that began empty satisfies. */
  ghost predicate ValidBag(b: Bag) {
    && b.errors == CountErrors(b.diags) <= b.limit
    && (forall i, j :: 0 <= i < j < |b.diags| ==> !Same(b.diags[i], b.diags[j]))
    && (b.stopped ==> b.errors == b.limit)
  }

  lemma EmitKeepsValid(b: Bag, d: Diag)
    requires ValidBag(b)
    ensures ValidBag(Emit(b, d))
  {
    if Emitted(b, d) {
      assert (b.diags + [d])[..|b.diags|] == b.diags;
    }
  }

  lemma {:induction false} NoErrorsCounted(diags: seq<Diag>)
    ensures CountErrors(diags) == 0 <==> forall i :: 0 <= i < |diags| ==> !diags[i].level.Error?
  {
    if diags != [] {
      NoErrorsCounted(diags[..|diags| - 1]);
    }
  }

  /** What a diagnostic says, apart from how severe it is. */
  predicate SaysUnused(d: Diag) {
    "unused" <= d.message
  }

  /** Warnings are only about unused names, and errors never are. */
  predicate Plain(d: Diag) {
    (d.level.Error? ==> !SaysUnused(d)) && (d.level.Warning? ==> SaysUnused(d))
  }

  predicate PlainBag(b: Bag) {
    forall i :: 0 <= i < |b.diags| ==> Plain(b.diags[i]) && (b.diags[i].level.Error? || b.diags[i].level.Warning?)
  }

  lemma EmitKeepsPlain(b: Bag, d: Diag)
    requires PlainBag(b) && Plain(d) && (d.level.Error? || d.level.Warning?)
    ensures PlainBag(Emit(b, d))
    ensures !d.level.Error? ==> Emit(b, d).errors == b.errors
  {
    hide Plain, Repeats;
  }

  /** The first error is always recorded: no warning equals it, and the limit is above 0. */
  lemma FirstErrorIsRecorded(b: Bag, d: Diag)
    requires ValidBag(b) && PlainBag(b) && b.limit > 0 && d.level.Error? && Plain(d)
    ensures Emit(b, d).errors > 0 && PlainBag(Emit(b, d))
    ensures b.errors == 0 ==> Emitted(b, d)
  {
    if b.errors == 0 {
      NoErrorsCounted(b.diags);
    }
  }

  class DiagBag {
    var diagnostics: seq<Diag>
    var errorCount: nat
    var warningCount: nat
    var limit: nat
    var stopped: bool

    constructor ()
      ensures View() == EmptyBag()
    {
      diagnostics := [];
      errorCount, warningCount, limit, stopped := 0, 0, LIMIT, false;
    }

    function View(): Bag
      reads this
    {
      Bag(diagnostics, errorCount, warningCount, limit, stopped)
    }

    method DiagEmit(d: Diag) returns (emitted: bool)
      modifies this
      ensures View() == Emit(old(View()), d)
      ensures emitted == Emitted(old(View()), d)
    {
      for i := 0 to |diagnostics|
        invariant View() == old(View())
        invariant forall j :: 0 <= j < i ==> !Same(diagnostics[j], d)
      {
        if Same(diagnostics[i], d) { return false; }
      }
      if d.level.Error? && errorCount >= limit {
        stopped := true;
        return false;
      }
      diagnostics := diagnostics + [d];
      if d.level.Error? {
        errorCount := errorCount + 1;
      } else if d.level.Warning? {
        warningCount := warningCount + 1;
      }
      return true;
    }
  }
}
