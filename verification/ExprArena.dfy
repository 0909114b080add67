/**
  The arena that the parser fills: nodes refer to earlier nodes by position.
 */
module ExprArena {
  import opened Syntax

  /** `at` is the token whose line and column the node has. */
  datatype ExprNode = ExprNode(tag: string, text: string, value: int, some: bool, left: int, right: int, args: seq<int>, at: int)

  /** Every child comes before its parent, so walking down terminates. */
  predicate ChildrenFirst(es: seq<ExprNode>) {
    forall i :: 0 <= i < |es| ==>
      && -1 <= es[i].left < i && -1 <= es[i].right < i
      && forall j :: 0 <= j < |es[i].args| ==> 0 <= es[i].args[j] < i
  }

  /** The tree at a position. */
  function TreeAt(es: seq<ExprNode>, idx: int): Tree
    requires ChildrenFirst(es) && idx < |es|
    decreases idx, 1, 0
  {
    if idx < 0 then Absent
    else
      var n := es[idx];
      Node(n.tag, n.text, n.value, n.some, TreeAt(es, n.left), TreeAt(es, n.right), TreesAt(es, n.args, idx))
  }

  function TreesAt(es: seq<ExprNode>, idxs: seq<int>, below: nat): (r: seq<Tree>)
    requires ChildrenFirst(es) && below <= |es| && forall j :: 0 <= j < |idxs| ==> 0 <= idxs[j] < below
    ensures |r| == |idxs|
    decreases below, 0, |idxs|
  {
    if idxs == [] then [] else [TreeAt(es, idxs[0])] + TreesAt(es, idxs[1..], below)
  }

  /** Appending changes no tree. */
  lemma {:induction false} TreeKept(es: seq<ExprNode>, more: seq<ExprNode>, idx: int)
    requires ChildrenFirst(es) && ChildrenFirst(more) && es <= more && idx < |es|
    ensures TreeAt(more, idx) == TreeAt(es, idx)
    decreases idx, 1, 0
  {
    if idx >= 0 {
      TreeKept(es, more, es[idx].left);
      TreeKept(es, more, es[idx].right);
      TreesKept(es, more, es[idx].args, idx);
    }
  }

  lemma {:induction false} TreesKept(es: seq<ExprNode>, more: seq<ExprNode>, idxs: seq<int>, below: nat)
    requires ChildrenFirst(es) && ChildrenFirst(more) && es <= more && below <= |es|
    requires forall j :: 0 <= j < |idxs| ==> 0 <= idxs[j] < below
    ensures TreesAt(more, idxs, below) == TreesAt(es, idxs, below)
    decreases below, 0, |idxs|
  {
    if idxs != [] {
      TreeKept(es, more, idxs[0]);
      TreesKept(es, more, idxs[1..], below);
    }
  }

  /** The trees of a list do not depend on how far the arena is taken to reach. */
  lemma {:induction false} TreesBelow(es: seq<ExprNode>, idxs: seq<int>, a: nat, b: nat)
    requires ChildrenFirst(es) && a <= |es| && b <= |es|
    requires forall j :: 0 <= j < |idxs| ==> 0 <= idxs[j] < a && idxs[j] < b
    ensures TreesAt(es, idxs, a) == TreesAt(es, idxs, b)
    decreases |idxs|
  {
    if idxs != [] { TreesBelow(es, idxs[1..], a, b); }
  }

  lemma {:induction false} TreesAppend(es: seq<ExprNode>, idxs: seq<int>, idx: int, below: nat)
    requires ChildrenFirst(es) && below <= |es| && 0 <= idx < below
    requires forall j :: 0 <= j < |idxs| ==> 0 <= idxs[j] < below
    ensures TreesAt(es, idxs + [idx], below) == TreesAt(es, idxs, below) + [TreeAt(es, idx)]
    decreases |idxs|
  {
    if idxs == [] {
      assert idxs + [idx] == [idx];
    } else {
      assert (idxs + [idx])[1..] == idxs[1..] + [idx];
      TreesAppend(es, idxs[1..], idx, below);
    }
  }

  predicate InArena(es: seq<ExprNode>, n: ExprNode) {
    && -1 <= n.left < |es| && -1 <= n.right < |es|
    && forall j :: 0 <= j < |n.args| ==> 0 <= n.args[j] < |es|
  }

  /** A new node is the tree of its children as they are now. */
  lemma NewTree(es: seq<ExprNode>, n: ExprNode)
    requires ChildrenFirst(es) && InArena(es, n)
    ensures ChildrenFirst(es + [n])
    ensures TreeAt(es + [n], |es|)
            == Node(n.tag, n.text, n.value, n.some, TreeAt(es, n.left), TreeAt(es, n.right), TreesAt(es, n.args, |es|))
  {
    var more := es + [n];
    assert ChildrenFirst(more);
    TreeKept(es, more, n.left);
    TreeKept(es, more, n.right);
    TreesKept(es, more, n.args, |es|);
  }

  lemma OneTree(es: seq<ExprNode>, idx: int, below: nat)
    requires ChildrenFirst(es) && below <= |es| && 0 <= idx < below
    ensures TreesAt(es, [idx], below) == [TreeAt(es, idx)]
  {
    assert TreesAt(es, [idx][1..], below) == [];
  }
}
