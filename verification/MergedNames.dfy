/**
  The names of merged declarations: when two of them are the same.
 */
module MergedNames {
  import opened Modules

  /** The own name of a declaration is one word. */
  predicate Word(name: string) {
    ':' !in name
  }

  /** The root, and the modules below `root::sys`, have no namespace of their own. */
  predicate Unspaced(qualifiedName: string) {
    qualifiedName == "root" || "root::sys::" <= qualifiedName
  }

  predicate ModuleName(qualifiedName: string) {
    qualifiedName == "root" || (|qualifiedName| > 6 && "root::" <= qualifiedName)
  }

  lemma Spaced(m: string) returns (q: string)
    requires ModuleName(m) && !Unspaced(m)
    ensures q != "" && m == "root::" + q && !("sys::" <= q)
  {
    q := m[6..];
    assert m[..6] == "root::" && m == m[..6] + q;
    BelowSys(q);
  }

  /** Behind the last colon of a name stands the own name. */
  lemma OwnNameIsLast(p: string, own: string, q: string, other: string)
    requires Word(own) && Word(other) && p + "::" + own == q + "::" + other
    ensures p == q && own == other
  {
    var s, t := p + "::" + own, q + "::" + other;
    LastColon(p, own);
    LastColon(q, other);
    assert s[..|p|] == p && s[|p| + 2..] == own && t[..|q|] == q && t[|q| + 2..] == other;
  }

  lemma LastColon(p: string, own: string)
    requires Word(own)
    ensures var s := p + "::" + own;
            s[|p| + 1] == ':' && forall i :: |p| + 1 < i < |s| ==> s[i] != ':'
  {
    var s := p + "::" + own;
    assert forall i :: |p| + 1 < i < |s| ==> s[i] == own[i - |p| - 2];
  }

  /** Two declarations have the same name in the merged program exactly when they have the
      same own name, and come from the same module or both from modules without namespace. */
  lemma NamesExact(m: string, own: string, name: string, m': string, own': string, name': string)
    requires ModuleName(m) && ModuleName(m') && Word(own) && Word(own')
    requires CalledAs(m, own, name) && CalledAs(m', own', name')
    ensures name == name' <==> own == own' && (m == m' || (Unspaced(m) && Unspaced(m')))
  {
    if Unspaced(m) && Unspaced(m') {
    } else if Unspaced(m) {
      var q := Spaced(m');
      assert name'[|q|] == ':' && name' == q + "::" + own';
    } else if Unspaced(m') {
      var q := Spaced(m);
      assert name[|q|] == ':' && name == q + "::" + own;
    } else {
      var q := Spaced(m);
      var q' := Spaced(m');
      assert name == q + "::" + own && name' == q' + "::" + own';
      if name == name' { OwnNameIsLast(q, own, q', own'); }
    }
  }

  // ----- functions -----

  /** Function i of module k; module 0 is the root. */
  ghost predicate IsFunction(root: Program, graph: seq<Loaded>, k: nat, i: nat)
    requires k < |graph|
  {
    if k == 0 then i < |root.functions| else graph[k].program.Some? && i < |graph[k].program.value.functions|
  }

  ghost function OwnFunction(root: Program, graph: seq<Loaded>, k: nat, i: nat): Function
    requires k < |graph| && IsFunction(root, graph, k, i)
  {
    if k == 0 then root.functions[i] else graph[k].program.value.functions[i]
  }

  /** Its place among all functions. */
  ghost function FunctionAt(root: Program, graph: seq<Loaded>, k: nat, i: nat): nat
    requires k < |graph|
  {
    if k == 0 then i else |MergeUpTo(root, graph, k - 1).functions| + i
  }

  ghost predicate NamedModules(graph: seq<Loaded>) {
    && graph != [] && graph[0].qualifiedName == "root"
    && (forall k :: 0 <= k < |graph| ==> ModuleName(graph[k].qualifiedName))
  }

  lemma FunctionIsCalled(root: Program, graph: seq<Loaded>, k: nat, i: nat)
    requires NamedModules(graph) && k < |graph| && IsFunction(root, graph, k, i)
    ensures var all := LoadAll(true, root, graph);
            && FunctionAt(root, graph, k, i) < |all.functions|
            && CalledAs(graph[k].qualifiedName, OwnFunction(root, graph, k, i).name,
                        all.functions[FunctionAt(root, graph, k, i)].name)
  {
    hide RelocateExprs, RelocateStmts, MergeOne, Prefix, CalledAs;
    var all := LoadAll(true, root, graph);
    if k == 0 {
      RootIsCalled(OwnFunction(root, graph, k, i).name);
      if |graph| > 1 {
        MergeAppends(root, graph, 0, |graph| - 1);
        StartIsRoot(root);
      }
    } else {
      var before := MergeUpTo(root, graph, k - 1);
      MergeAppends(root, graph, k, |graph| - 1);
      assert MergeUpTo(root, graph, k) == MergeOne(before, graph[k]);
      MergedModule(before, graph[k], all);
      assert all.functions[|before.functions| + i]
             == RelocateFunctions(graph[k].program.value.functions, Prefix(graph[k].qualifiedName), |before.arenas.stmts|)[i];
      QualifiedIsCalled(graph[k].qualifiedName, OwnFunction(root, graph, k, i).name);
    }
  }

  lemma RootIsCalled(own: string)
    ensures CalledAs("root", own, own)
  {
    forall q | q != "" ensures "root" != "root::" + q {
      assert |"root::" + q| > 6;
    }
  }

  /** Functions with different own names, or from different modules with namespaces, have
      different names in the merged program, and no others have. */
  lemma FunctionNamesExact(root: Program, graph: seq<Loaded>, k: nat, i: nat, l: nat, j: nat)
    requires NamedModules(graph) && k < |graph| && l < |graph|
    requires IsFunction(root, graph, k, i) && IsFunction(root, graph, l, j)
    requires Word(OwnFunction(root, graph, k, i).name) && Word(OwnFunction(root, graph, l, j).name)
    ensures var all := LoadAll(true, root, graph);
            && FunctionAt(root, graph, k, i) < |all.functions| && FunctionAt(root, graph, l, j) < |all.functions|
            && (all.functions[FunctionAt(root, graph, k, i)].name == all.functions[FunctionAt(root, graph, l, j)].name
                <==> (OwnFunction(root, graph, k, i).name == OwnFunction(root, graph, l, j).name
                      && (graph[k].qualifiedName == graph[l].qualifiedName
                          || (Unspaced(graph[k].qualifiedName) && Unspaced(graph[l].qualifiedName)))))
  {
    hide CalledAs, OwnFunction, FunctionAt, IsFunction, LoadAll, Word, Unspaced;
    var all := LoadAll(true, root, graph);
    FunctionIsCalled(root, graph, k, i);
    FunctionIsCalled(root, graph, l, j);
    NamesExact(graph[k].qualifiedName, OwnFunction(root, graph, k, i).name, all.functions[FunctionAt(root, graph, k, i)].name,
               graph[l].qualifiedName, OwnFunction(root, graph, l, j).name, all.functions[FunctionAt(root, graph, l, j)].name);
  }

  // ----- globals -----

  /** Global i of module k; module 0 is the root. */
  ghost predicate IsGlobal(root: Program, graph: seq<Loaded>, k: nat, i: nat)
    requires k < |graph|
  {
    if k == 0 then i < |root.globals| else graph[k].program.Some? && i < |graph[k].program.value.globals|
  }

  ghost function OwnGlobal(root: Program, graph: seq<Loaded>, k: nat, i: nat): Global
    requires k < |graph| && IsGlobal(root, graph, k, i)
  {
    if k == 0 then root.globals[i] else graph[k].program.value.globals[i]
  }

  ghost function GlobalAt(root: Program, graph: seq<Loaded>, k: nat, i: nat): nat
    requires k < |graph|
  {
    if k == 0 then i else |MergeUpTo(root, graph, k - 1).globals| + i
  }

  lemma GlobalIsCalled(root: Program, graph: seq<Loaded>, k: nat, i: nat)
    requires NamedModules(graph) && k < |graph| && IsGlobal(root, graph, k, i)
    ensures var all := LoadAll(true, root, graph);
            && GlobalAt(root, graph, k, i) < |all.globals|
            && CalledAs(graph[k].qualifiedName, OwnGlobal(root, graph, k, i).name, all.globals[GlobalAt(root, graph, k, i)].name)
  {
    hide RelocateExprs, RelocateStmts, MergeOne, Prefix, CalledAs;
    var all := LoadAll(true, root, graph);
    if k == 0 {
      RootIsCalled(OwnGlobal(root, graph, k, i).name);
      if |graph| > 1 {
        MergeAppends(root, graph, 0, |graph| - 1);
        StartIsRoot(root);
      }
    } else {
      var before := MergeUpTo(root, graph, k - 1);
      MergeAppends(root, graph, k, |graph| - 1);
      assert MergeUpTo(root, graph, k) == MergeOne(before, graph[k]);
      MergedModule(before, graph[k], all);
      assert all.globals[|before.globals| + i]
             == RelocateGlobals(graph[k].program.value.globals, Prefix(graph[k].qualifiedName), |before.arenas.exprs|)[i];
      QualifiedIsCalled(graph[k].qualifiedName, OwnGlobal(root, graph, k, i).name);
    }
  }

  /** The same for globals. */
  lemma GlobalNamesExact(root: Program, graph: seq<Loaded>, k: nat, i: nat, l: nat, j: nat)
    requires NamedModules(graph) && k < |graph| && l < |graph|
    requires IsGlobal(root, graph, k, i) && IsGlobal(root, graph, l, j)
    requires Word(OwnGlobal(root, graph, k, i).name) && Word(OwnGlobal(root, graph, l, j).name)
    ensures var all := LoadAll(true, root, graph);
            && GlobalAt(root, graph, k, i) < |all.globals| && GlobalAt(root, graph, l, j) < |all.globals|
            && (all.globals[GlobalAt(root, graph, k, i)].name == all.globals[GlobalAt(root, graph, l, j)].name
                <==> (OwnGlobal(root, graph, k, i).name == OwnGlobal(root, graph, l, j).name
                      && (graph[k].qualifiedName == graph[l].qualifiedName
                          || (Unspaced(graph[k].qualifiedName) && Unspaced(graph[l].qualifiedName)))))
  {
    hide CalledAs, OwnGlobal, GlobalAt, IsGlobal, LoadAll, Word, Unspaced;
    var all := LoadAll(true, root, graph);
    GlobalIsCalled(root, graph, k, i);
    GlobalIsCalled(root, graph, l, j);
    NamesExact(graph[k].qualifiedName, OwnGlobal(root, graph, k, i).name, all.globals[GlobalAt(root, graph, k, i)].name,
               graph[l].qualifiedName, OwnGlobal(root, graph, l, j).name, all.globals[GlobalAt(root, graph, l, j)].name);
  }
}
