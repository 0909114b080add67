/**
  One list of entries with depths stands for the stack of frames.
 */
module FlatScopes {
  import opened Options
  import opened Scoping

  datatype Entry = Entry(depth: int, binding: Binding)

  function Tagged(f: Frame, depth: nat): (r: seq<Entry>)
    ensures |r| == |f| && forall i :: 0 <= i < |f| ==> r[i] == Entry(depth, f[i])
  {
    seq(|f|, i requires 0 <= i < |f| => Entry(depth, f[i]))
  }

  /** The entries of all frames, outermost first. */
  function Flat(env: Env): seq<Entry>
    decreases |env|
  {
    if env == [] then [] else Flat(Below(env)) + Tagged(Top(env), |env| - 1)
  }

  function IndexOf(env: Env, at: (nat, nat)): nat
    requires at.0 < |env|
  {
    |Flat(env[..at.0])| + at.1
  }

  lemma {:induction false} FlatDepths(env: Env)
    ensures forall i :: 0 <= i < |Flat(env)| ==> 0 <= Flat(env)[i].depth < |env|
    decreases |env|
  {
    if env != [] {
      FlatDepths(Below(env));
    }
  }

  /** Where the innermost frame begins. */
  lemma FlatTop(env: Env)
    requires env != []
    ensures Flat(env) == Flat(Below(env)) + Tagged(Top(env), |env| - 1)
    ensures forall i :: 0 <= i < |Flat(Below(env))| ==> Flat(env)[i].depth < |env| - 1
    ensures forall i :: |Flat(Below(env))| <= i < |Flat(env)| ==> Flat(env)[i].depth == |env| - 1
  {
    FlatDepths(Below(env));
  }

  lemma FlatPush(env: Env)
    ensures Flat(env + [[]]) == Flat(env)
  {
    assert Below(env + [[]]) == env;
  }

  lemma Rejoin(env: Env)
    requires env != []
    ensures Below(env) + [Top(env)] == env && |Below(env)| == |env| - 1
  {
  }

  lemma Unjoin(below: Env, top: Frame)
    ensures Below(below + [top]) == below && Top(below + [top]) == top
  {
  }

  lemma PrefixOfJoin(below: Env, top: Frame, k: nat)
    requires k <= |below|
    ensures (below + [top])[..k] == below[..k] && below[..|below|] == below
  {
  }

  lemma FlatNewTop(env: Env, f: Frame)
    ensures Flat(env + [f]) == Flat(env) + Tagged(f, |env|)
  {
    assert Below(env + [f]) == env;
  }

  lemma TaggedAdd(f: Frame, depth: nat, b: Binding)
    ensures Tagged(f + [b], depth) == Tagged(f, depth) + [Entry(depth, b)]
  {
  }

  lemma FlatAddTo(below: Env, top: Frame, b: Binding)
    ensures Flat(below + [top + [b]]) == Flat(below + [top]) + [Entry(|below|, b)]
  {
    hide Flat, Tagged;
    FlatNewTop(below, top);
    FlatNewTop(below, top + [b]);
    TaggedAdd(top, |below|, b);
  }

  lemma FlatAdd(env: Env, b: Binding)
    requires env != []
    ensures |Add(env, b)| == |env| && Flat(Add(env, b)) == Flat(env) + [Entry(|env| - 1, b)]
  {
    hide Flat, Below, Top;
    Rejoin(env);
    FlatAddTo(Below(env), Top(env), b);
  }

  lemma UpdateOnTop(below: Env, top: Frame, i: nat, b: Binding)
    requires i < |top|
    ensures Update(below + [top], (|below|, i), b) == below + [top[i := b]]
  {
  }

  lemma UpdateBelow(below: Env, top: Frame, at: (nat, nat), b: Binding)
    requires at.0 < |below| && at.1 < |below[at.0]|
    ensures Update(below + [top], at, b) == Update(below, at, b) + [top]
    ensures (below + [top])[at.0] == below[at.0] && |Update(below, at, b)| == |below|
  {
  }

  ghost predicate Updates(env: Env, at: (nat, nat), b: Binding)
    requires at.0 < |env| && at.1 < |env[at.0]|
  {
    && IndexOf(env, at) < |Flat(env)| && Flat(env)[IndexOf(env, at)] == Entry(at.0, env[at.0][at.1])
    && Flat(Update(env, at, b)) == Flat(env)[IndexOf(env, at) := Entry(at.0, b)]
  }

  lemma UpdatesOnTop(below: Env, top: Frame, i: nat, b: Binding)
    requires i < |top|
    ensures Updates(below + [top], (|below|, i), b)
  {
    hide Flat, Update;
    FlatNewTop(below, top);
    FlatNewTop(below, top[i := b]);
    UpdateOnTop(below, top, i, b);
    PrefixOfJoin(below, top, |below|);
    assert Tagged(top[i := b], |below|) == Tagged(top, |below|)[i := Entry(|below|, b)];
  }

  lemma UpdatesBelow(below: Env, top: Frame, at: (nat, nat), b: Binding)
    requires at.0 < |below| && at.1 < |below[at.0]| && Updates(below, at, b)
    ensures (below + [top])[at.0] == below[at.0]
    ensures Updates(below + [top], at, b)
  {
    hide Flat, Update, Tagged;
    FlatNewTop(below, top);
    FlatNewTop(Update(below, at, b), top);
    UpdateBelow(below, top, at, b);
    PrefixOfJoin(below, top, at.0);
  }

  lemma {:induction false} FlatUpdate(env: Env, at: (nat, nat), b: Binding)
    requires at.0 < |env| && at.1 < |env[at.0]|
    ensures Updates(env, at, b)
    decreases |env|
  {
    hide Updates, Below, Top;
    Rejoin(env);
    var below, top := Below(env), Top(env);
    if at.0 < |below| {
      assert env[at.0] == below[at.0];
      FlatUpdate(below, at, b);
      UpdatesBelow(below, top, at, b);
    } else {
      UpdatesOnTop(below, top, at.1, b);
    }
  }

  /** The place in the list where a name is found. */
  function FoundAt(env: Env, name: string): Option<nat> {
    match Lookup(env, name)
    case None => None
    case Some(at) => Some(IndexOf(env, at))
  }

  lemma FoundOnTop(below: Env, top: Frame, name: string)
    ensures FoundAt(below + [top], name)
            == if FindLast(top, name).Some? then Some(|Flat(below)| + FindLast(top, name).value) else FoundAt(below, name)
  {
    hide Flat, FindLast, Below, Top;
    Unjoin(below, top);
    PrefixOfJoin(below, top, |below|);
    if FindLast(top, name).None? && Lookup(below, name).Some? {
      PrefixOfJoin(below, top, Lookup(below, name).value.0);
    }
  }

  lemma {:induction false} FlatLookup(env: Env, name: string)
    ensures FoundAt(env, name).None? ==> forall i :: 0 <= i < |Flat(env)| ==> Flat(env)[i].binding.name != name
    ensures FoundAt(env, name).Some? ==> IsLast(Flat(env), FoundAt(env, name).value, name)
    decreases |env|
  {
    if env != [] {
      hide FindLast, IsLast, Flat, FoundAt, Below, Top;
      Rejoin(env);
      var below, top := Below(env), Top(env);
      FlatLookup(below, name);
      FoundOnTop(below, top, name);
      FlatNewTop(below, top);
      var fs := Tagged(top, |below|);
      if FindLast(top, name).Some? {
        assert IsLast(fs, FindLast(top, name).value, name) by { LastTagged(top, |below|, name); }
        LastInRight(Flat(below), fs, FindLast(top, name).value, name);
      } else if FoundAt(below, name).Some? {
        LastInLeft(Flat(below), fs, FoundAt(below, name).value, name);
      }
    }
  }

  lemma LastTagged(f: Frame, depth: nat, name: string)
    requires FindLast(f, name).Some?
    ensures IsLast(Tagged(f, depth), FindLast(f, name).value, name)
  {
  }

  predicate IsLast(es: seq<Entry>, at: nat, name: string) {
    at < |es| && es[at].binding.name == name && forall i :: at < i < |es| ==> es[i].binding.name != name
  }

  lemma LastInRight(es: seq<Entry>, fs: seq<Entry>, at: nat, name: string)
    requires IsLast(fs, at, name)
    ensures IsLast(es + fs, |es| + at, name)
  {
  }

  lemma LastInLeft(es: seq<Entry>, fs: seq<Entry>, at: nat, name: string)
    requires IsLast(es, at, name) && forall i :: 0 <= i < |fs| ==> fs[i].binding.name != name
    ensures IsLast(es + fs, at, name)
  {
  }

  /** Looking in the innermost frame is finding the first entry of that depth. */
  lemma FlatFindCurrent(env: Env, name: string)
    requires env != []
    ensures FindFirst(Top(env), name).None? ==>
              forall i :: 0 <= i < |Flat(env)| ==> !(Flat(env)[i].binding.name == name && Flat(env)[i].depth == |env| - 1)
    ensures FindFirst(Top(env), name).Some? ==>
              var at := IndexOf(env, (|env| - 1, FindFirst(Top(env), name).value));
              && at < |Flat(env)| && Flat(env)[at].binding.name == name && Flat(env)[at].depth == |env| - 1
              && forall i :: 0 <= i < at ==> !(Flat(env)[i].binding.name == name && Flat(env)[i].depth == |env| - 1)
  {
    FlatTop(env);
  }
}
