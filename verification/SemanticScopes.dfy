/**
  The checker's tables as they are kept: parallel arrays whose slots are reused, a count
  of the active ones, and a depth. They stand for the stack of frames.
 */
module SemanticScopes {
  import opened Options
  import opened Scoping
  import opened FlatScopes

  lemma MarkMutableIsUpdate(env: Env, name: string)
    requires env != [] && FindFirst(Top(env), name).Some?
    ensures var i := FindFirst(Top(env), name).value;
            Scoping.MarkMutable(env, name) == Update(env, (|env| - 1, i), Top(env)[i].(mutable := true))
  {
  }

  function Entries(n: nat, names: seq<string>, depths: seq<int>, used: seq<bool>, mutable: seq<bool>,
                   lines: seq<int>, cols: seq<int>, warn: seq<bool>): (r: seq<Entry>)
    requires n <= |names| == |depths| == |used| == |mutable| == |lines| == |cols| == |warn|
    ensures |r| == n
    ensures forall i :: 0 <= i < n ==>
              r[i] == Entry(depths[i], Binding(names[i], used[i], mutable[i], Loc(lines[i], cols[i]), warn[i]))
  {
    seq(n, i requires 0 <= i < n =>
      Entry(depths[i], Binding(names[i], used[i], mutable[i], Loc(lines[i], cols[i]), warn[i])))
  }

  class SemanticScope {
    var names: seq<string>
    var depths: seq<int>
    var used: seq<bool>
    var mutable: seq<bool>
    var lines: seq<int>
    var cols: seq<int>
    var warnUnused: seq<bool>
    var activeLen: nat
    var depth: nat
    ghost var frames: Env

    constructor ()
      ensures Valid() && frames == [[]]
    {
      names, depths, used, mutable, lines, cols, warnUnused := [], [], [], [], [], [], [];
      activeLen, depth := 0, 0;
      frames := [[]];
    }

    predicate SameLengths()
      reads `names, `depths, `used, `mutable, `lines, `cols, `warnUnused, `activeLen
    {
      && |depths| == |names| && |used| == |names| && |mutable| == |names| && |lines| == |names| && |cols| == |names|
      && |warnUnused| == |names| && activeLen <= |names|
    }

    function Active(): (r: seq<Entry>)
      requires SameLengths()
      reads `names, `depths, `used, `mutable, `lines, `cols, `warnUnused, `activeLen
      ensures |r| == activeLen
    {
      Entries(activeLen, names, depths, used, mutable, lines, cols, warnUnused)
    }

    ghost predicate Valid()
      reads this
    {
      SameLengths() && |frames| == depth + 1 && Active() == Flat(frames)
    }

    method Push()
      requires Valid()
      modifies this
      ensures Valid() && frames == old(frames) + [[]]
    {
      FlatPush(frames);
      depth := depth + 1;
      frames := frames + [[]];
    }

    /** Forgets the innermost frame; its slots are kept for reuse. */
    method Truncate()
      requires Valid() && depth > 0
      modifies this
      ensures Valid() && frames == Below(old(frames))
    {
      hide Flat;
      FlatTop(frames);
      var keep := activeLen;
      while keep > 0
        invariant |Flat(Below(frames))| <= keep <= activeLen
      {
        assert Active()[keep - 1] == Flat(frames)[keep - 1];
        if depths[keep - 1] >= depth {
          keep := keep - 1;
        } else {
          assert keep - 1 < |Flat(Below(frames))|;
          break;
        }
      }
      ghost var was := Active();
      activeLen := keep;
      depth := depth - 1;
      frames := Below(frames);
      assert Active() == was[..keep];
    }

    method FindCurrent(name: string) returns (at: Option<nat>)
      requires Valid()
      ensures at.None? <==> FindFirst(Top(frames), name).None?
      ensures at.Some? ==> at.value == IndexOf(frames, (depth, FindFirst(Top(frames), name).value)) < activeLen
    {
      hide Flat, IndexOf, Top, Below;
      FlatFindCurrent(frames, name);
      for i := 0 to activeLen
        invariant forall j :: 0 <= j < i ==> !(Flat(frames)[j].binding.name == name && Flat(frames)[j].depth == depth)
      {
        assert Active()[i] == Flat(frames)[i];
        if names[i] == name && depths[i] == depth { return Some(i); }
      }
      at := None;
    }

    method Lookup(name: string) returns (at: Option<nat>)
      requires Valid()
      ensures at == FoundAt(frames, name) && (at.Some? ==> at.value < activeLen)
    {
      hide Flat, FoundAt;
      FlatLookup(frames, name);
      FlatDepths(frames);
      var i := activeLen;
      while i > 0
        invariant 0 <= i <= activeLen == |Flat(frames)|
        invariant forall j :: i <= j < |Flat(frames)| ==> Flat(frames)[j].binding.name != name
      {
        i := i - 1;
        assert Active()[i] == Flat(frames)[i];
        if names[i] == name && depths[i] <= depth { return Some(i); }
      }
      at := None;
    }

    method Contains(name: string) returns (found: bool)
      requires Valid()
      ensures found == Scoping.Lookup(frames, name).Some?
    {
      var at := Lookup(name);
      found := at.Some?;
    }

    method ReuseSlot(name: string, loc: Loc, warn: bool)
      requires SameLengths() && activeLen < |names|
      modifies `names, `depths, `used, `mutable, `lines, `cols, `warnUnused, `activeLen
      ensures SameLengths() && activeLen == old(activeLen) + 1
      ensures Active() == old(Active()) + [Entry(depth, Binding(name, false, false, loc, warn))]
    {
      var idx := activeLen;
      names := names[idx := name];
      depths := depths[idx := depth];
      used := used[idx := false];
      mutable := mutable[idx := false];
      lines := lines[idx := loc.line];
      cols := cols[idx := loc.col];
      warnUnused := warnUnused[idx := warn];
      activeLen := activeLen + 1;
    }

    method GrowSlots(name: string, loc: Loc, warn: bool)
      requires SameLengths() && activeLen == |names|
      modifies `names, `depths, `used, `mutable, `lines, `cols, `warnUnused, `activeLen
      ensures SameLengths() && activeLen == old(activeLen) + 1
      ensures Active() == old(Active()) + [Entry(depth, Binding(name, false, false, loc, warn))]
    {
      names := names + [name];
      depths := depths + [depth];
      used := used + [false];
      mutable := mutable + [false];
      lines := lines + [loc.line];
      cols := cols + [loc.col];
      warnUnused := warnUnused + [warn];
      activeLen := activeLen + 1;
    }

    /** A new entry in the innermost frame, in an old slot if there is one. */
    method Append(name: string, loc: Loc, warn: bool)
      requires Valid()
      modifies this
      ensures Valid() && frames == Add(old(frames), Binding(name, false, false, loc, warn))
    {
      hide Flat, Below, Top, Active;
      ghost var b := Binding(name, false, false, loc, warn);
      FlatAdd(frames, b);
      Rejoin(frames);
      if activeLen < |names| {
        ReuseSlot(name, loc, warn);
      } else {
        GrowSlots(name, loc, warn);
      }
      frames := Add(frames, b);
    }

    method MarkMutable(name: string)
      requires Valid()
      modifies this
      ensures Valid() && frames == Scoping.MarkMutable(old(frames), name)
    {
      hide Flat, Below, IndexOf;
      var at := FindCurrent(name);
      if at.Some? {
        ghost var place := (depth, FindFirst(Top(frames), name).value);
        ghost var b := frames[place.0][place.1].(mutable := true);
        ghost var was := Active();
        FlatUpdate(frames, place, b);
        MarkMutableIsUpdate(frames, name);
        mutable := mutable[at.value := true];
        frames := Update(frames, place, b);
        assert Active() == was[at.value := Entry(place.0, b)];
      }
    }

    method MarkUsed(name: string)
      requires Valid()
      modifies this
      ensures Valid() && frames == Scoping.MarkUsed(old(frames), name)
    {
      hide Flat, Below, IndexOf;
      var at := Lookup(name);
      if at.Some? {
        ghost var place := Scoping.Lookup(frames, name).value;
        ghost var b := frames[place.0][place.1].(used := true);
        ghost var was := Active();
        FlatUpdate(frames, place, b);
        used := used[at.value := true];
        frames := Update(frames, place, b);
        assert Active() == was[at.value := Entry(place.0, b)];
      }
    }

    method DeclareExisting(name: string)
      requires Valid()
      modifies this
      ensures Valid() && frames == Scoping.DeclareExisting(old(frames), name)
    {
      hide Add;
      var at := FindCurrent(name);
      if at.None? { Append(name, Loc(0, 0), false); }
    }
  }
}
