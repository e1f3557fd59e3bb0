/**
 * The timeline's choice of bars
 * (trulens_eval/trulens_eval/react_components/record_viewer/src/TimelineBars.tsx):
 * a pre-order walk of the call tree that records each node with its depth
 * and skips every subtree whose node starts at or after the root's end.
 *
 * The tree is the arena of `RecordTree`. `times(n)` is the start and end
 * time `getStartAndEndTimesForNode` gives for node `n`.
 */
module Timeline {
  import opened RecordTree

  /** `{ node, depth }` */
  datatype Entry = Entry(node: nat, depth: nat)

  /** What `recursiveGetChildrenToRender(p, depth)` pushes. */
  function Render(ns: seq<TreeNode>, p: nat, depth: nat, treeEnd: int, times: TreeNode -> (int, int)): seq<Entry>
    requires ChildrenAfter(ns) && p < |ns|
    decreases |ns| - p, 1
  {
    if times(ns[p]).0 >= treeEnd then []
    else [Entry(p, depth)] + RenderKids(ns, p, 0, depth + 1, treeEnd, times)
  }

  /** What the loop over `p`'s children from the `k`-th on pushes. */
  function RenderKids(ns: seq<TreeNode>, p: nat, k: nat, depth: nat, treeEnd: int, times: TreeNode -> (int, int)): seq<Entry>
    requires ChildrenAfter(ns) && p < |ns| && k <= |ns[p].children|
    decreases |ns| - p, 0, |ns[p].children| - k
  {
    if k == |ns[p].children| then []
    else Render(ns, ns[p].children[k], depth, treeEnd, times) + RenderKids(ns, p, k + 1, depth, treeEnd, times)
  }

  function Nodes(es: seq<Entry>): (r: seq<nat>)
    ensures |r| == |es| && forall i :: 0 <= i < |es| ==> r[i] == es[i].node
  {
    seq(|es|, i requires 0 <= i < |es| => es[i].node)
  }

  /** `a` is `b` with some elements left out. */
  predicate IsSubsequence(a: seq<nat>, b: seq<nat>)
    decreases |b|
  {
    if |a| == 0 then true
    else if |b| == 0 then false
    else if a[0] == b[0] then IsSubsequence(a[1..], b[1..])
    else IsSubsequence(a, b[1..])
  }

  lemma {:induction false} SubsequenceOfItself(b: seq<nat>)
    ensures IsSubsequence(b, b)
    decreases |b|
  {
    if |b| > 0 {
      SubsequenceOfItself(b[1..]);
    }
  }

  lemma {:induction false} SubsequenceLength(a: seq<nat>, b: seq<nat>)
    requires IsSubsequence(a, b)
    ensures |a| <= |b|
    decreases |b|
  {
    if |a| > 0 {
      if a[0] == b[0] {
        SubsequenceLength(a[1..], b[1..]);
      } else {
        SubsequenceLength(a, b[1..]);
      }
    }
  }

  lemma {:induction false} SubsequenceConcat(a1: seq<nat>, b1: seq<nat>, a2: seq<nat>, b2: seq<nat>)
    requires IsSubsequence(a1, b1) && IsSubsequence(a2, b2)
    ensures IsSubsequence(a1 + a2, b1 + b2)
    decreases |b1|
  {
    if |b1| > 0 {
      assert (b1 + b2)[0] == b1[0] && (b1 + b2)[1..] == b1[1..] + b2;
      if |a1| == 0 {
        assert a1 + a2 == a2;
        SubsequenceConcat(a1, b1[1..], a2, b2);
        SkipHead(a2, b1 + b2);
      } else {
        assert (a1 + a2)[0] == a1[0] && (a1 + a2)[1..] == a1[1..] + a2;
        if a1[0] == b1[0] {
          SubsequenceConcat(a1[1..], b1[1..], a2, b2);
        } else {
          SubsequenceConcat(a1, b1[1..], a2, b2);
        }
      }
    } else {
      assert a1 == [] && a1 + a2 == a2 && b1 + b2 == b2;
    }
  }

  /** A subsequence of the tail of `b` is one of `b`. */
  lemma {:induction false} SkipHead(a: seq<nat>, b: seq<nat>)
    requires |b| > 0 && IsSubsequence(a, b[1..])
    ensures IsSubsequence(a, b)
    decreases |b|, 1
  {
    if |a| > 0 && a[0] == b[0] {
      DropFirst(a, b[1..]);
    }
  }

  /** Leaving out the first element of a subsequence keeps it one. */
  lemma {:induction false} DropFirst(a: seq<nat>, c: seq<nat>)
    requires |a| > 0 && IsSubsequence(a, c)
    ensures IsSubsequence(a[1..], c)
    decreases |c| + 1, 0
  {
    if a[0] == c[0] {
      SkipHead(a[1..], c);
    } else {
      DropFirst(a, c[1..]);
      SkipHead(a[1..], c);
    }
  }

  lemma NodesConcat(a: seq<Entry>, b: seq<Entry>)
    ensures Nodes(a + b) == Nodes(a) + Nodes(b)
  {
  }

  /**
   * The output is in pre-order: the nodes emitted from `p` are the tree's
   * pre-order from `p` with the pruned subtrees left out.
   */
  lemma {:induction false} RenderIsPreorderSubsequence(ns: seq<TreeNode>, p: nat, depth: nat, treeEnd: int, times: TreeNode -> (int, int))
    requires ChildrenAfter(ns) && p < |ns|
    ensures IsSubsequence(Nodes(Render(ns, p, depth, treeEnd, times)), Preorder(ns, p))
    decreases |ns| - p, 1
  {
    if times(ns[p]).0 < treeEnd {
      RenderKidsIsPreorderSubsequence(ns, p, 0, depth + 1, treeEnd, times);
      NodesConcat([Entry(p, depth)], RenderKids(ns, p, 0, depth + 1, treeEnd, times));
      SubsequenceConcat([p], [p], Nodes(RenderKids(ns, p, 0, depth + 1, treeEnd, times)), PreorderKids(ns, p, 0));
    }
  }

  lemma {:induction false} RenderKidsIsPreorderSubsequence(ns: seq<TreeNode>, p: nat, k: nat, depth: nat, treeEnd: int,
                                                           times: TreeNode -> (int, int))
    requires ChildrenAfter(ns) && p < |ns| && k <= |ns[p].children|
    ensures IsSubsequence(Nodes(RenderKids(ns, p, k, depth, treeEnd, times)), PreorderKids(ns, p, k))
    decreases |ns| - p, 0, |ns[p].children| - k
  {
    if k < |ns[p].children| {
      var c := ns[p].children[k];
      RenderIsPreorderSubsequence(ns, c, depth, treeEnd, times);
      RenderKidsIsPreorderSubsequence(ns, p, k + 1, depth, treeEnd, times);
      NodesConcat(Render(ns, c, depth, treeEnd, times), RenderKids(ns, p, k + 1, depth, treeEnd, times));
      SubsequenceConcat(Nodes(Render(ns, c, depth, treeEnd, times)), Preorder(ns, c),
                        Nodes(RenderKids(ns, p, k + 1, depth, treeEnd, times)), PreorderKids(ns, p, k + 1));
    }
  }

  /**
   * `x` lies in the subtree of `p`, and `p` and every ancestor of `x` below
   * `p` start before `treeEnd`: nothing on the way down was pruned.
   */
  predicate Unpruned(ns: seq<TreeNode>, p: nat, x: nat, treeEnd: int, times: TreeNode -> (int, int))
    requires p < |ns| && x < |ns|
  {
    && ns[p].parentNodes <= ns[x].parentNodes
    && forall j :: |ns[p].parentNodes| <= j < |ns[x].parentNodes| ==>
         ns[x].parentNodes[j] < |ns| && times(ns[ns[x].parentNodes[j]]).0 < treeEnd
  }

  /** What is known of an entry emitted from `p` at depth `depth`. */
  predicate EmittedFrom(ns: seq<TreeNode>, p: nat, depth: nat, treeEnd: int, times: TreeNode -> (int, int), e: Entry)
    requires p < |ns|
  {
    && e.node < |ns|
    && times(ns[e.node]).0 < treeEnd
    && e.depth + |ns[p].parentNodes| == depth + |ns[e.node].parentNodes|
    && Unpruned(ns, p, e.node, treeEnd, times)
  }

  /** An entry emitted from a child of an unpruned `p` is one emitted from `p`, one level deeper. */
  lemma LiftEntry(ns: seq<TreeNode>, p: nat, k: nat, depth: nat, treeEnd: int, times: TreeNode -> (int, int), e: Entry)
    requires WellFormed(ns) && p < |ns| && k < |ns[p].children| && times(ns[p]).0 < treeEnd
    requires EmittedFrom(ns, ns[p].children[k], depth + 1, treeEnd, times, e)
    ensures EmittedFrom(ns, p, depth, treeEnd, times, e)
  {
    var c := ns[p].children[k];
    assert ns[c].parentNodes == ns[p].parentNodes + [p];
    var pn := ns[e.node].parentNodes;
    assert pn[|ns[p].parentNodes|] == p;
  }

  /**
   * Every emitted node starts before the root's end, sits at depth `depth`
   * plus the number of levels below `p`, and only unpruned nodes lie on the
   * way from `p` to it: no descendant of a pruned node is visited.
   */
  lemma {:induction false} RenderEntries(ns: seq<TreeNode>, p: nat, depth: nat, treeEnd: int, times: TreeNode -> (int, int))
    requires WellFormed(ns) && p < |ns|
    ensures forall i :: 0 <= i < |Render(ns, p, depth, treeEnd, times)| ==>
      EmittedFrom(ns, p, depth, treeEnd, times, Render(ns, p, depth, treeEnd, times)[i])
    decreases |ns| - p, 1
  {
    if times(ns[p]).0 < treeEnd {
      RenderKidsEntries(ns, p, 0, depth + 1, treeEnd, times);
    }
  }

  lemma {:induction false} RenderKidsEntries(ns: seq<TreeNode>, p: nat, k: nat, kidDepth: nat, treeEnd: int,
                                             times: TreeNode -> (int, int))
    requires WellFormed(ns) && p < |ns| && k <= |ns[p].children| && times(ns[p]).0 < treeEnd && kidDepth > 0
    ensures forall i :: 0 <= i < |RenderKids(ns, p, k, kidDepth, treeEnd, times)| ==>
      EmittedFrom(ns, p, kidDepth - 1, treeEnd, times, RenderKids(ns, p, k, kidDepth, treeEnd, times)[i])
    decreases |ns| - p, 0, |ns[p].children| - k
  {
    if k < |ns[p].children| {
      var c := ns[p].children[k];
      RenderEntries(ns, c, kidDepth, treeEnd, times);
      RenderKidsEntries(ns, p, k + 1, kidDepth, treeEnd, times);
      var here := Render(ns, c, kidDepth, treeEnd, times);
      var rest := RenderKids(ns, p, k + 1, kidDepth, treeEnd, times);
      forall i | 0 <= i < |here + rest|
        ensures EmittedFrom(ns, p, kidDepth - 1, treeEnd, times, (here + rest)[i])
      {
        if i < |here| {
          LiftEntry(ns, p, k, kidDepth - 1, treeEnd, times, here[i]);
        } else {
          assert (here + rest)[i] == rest[i - |here|];
        }
      }
    }
  }

  /** Ancestors of a node of `p`'s subtree begin with those of `p`, followed by `p` unless it is `p`. */
  lemma {:induction false} PreorderAncestors(ns: seq<TreeNode>, p: nat, x: nat)
    requires WellFormed(ns) && p < |ns| && x in Preorder(ns, p)
    ensures ns[p].parentNodes <= ns[x].parentNodes
    ensures x != p ==> |ns[x].parentNodes| > |ns[p].parentNodes| && ns[x].parentNodes[|ns[p].parentNodes|] == p
    ensures forall j :: |ns[p].parentNodes| <= j < |ns[x].parentNodes| ==> ns[x].parentNodes[j] < |ns|
    decreases |ns| - p, 1
  {
    if x != p {
      var k := KidHolding(ns, p, 0, x);
      var c := ns[p].children[k];
      PreorderAncestors(ns, c, x);
    }
  }

  /** The child of `p` whose subtree holds `x`, for `x` in `PreorderKids(ns, p, k)`. */
  lemma {:induction false} KidHolding(ns: seq<TreeNode>, p: nat, k: nat, x: nat) returns (j: nat)
    requires ChildrenAfter(ns) && p < |ns| && k <= |ns[p].children|
    requires x in PreorderKids(ns, p, k) || (k == 0 && x in Preorder(ns, p) && x != p)
    ensures k <= j < |ns[p].children| && x in Preorder(ns, ns[p].children[j])
    decreases |ns[p].children| - k
  {
    assert x in PreorderKids(ns, p, k);
    if k == |ns[p].children| {
      assert false;
    } else if x in Preorder(ns, ns[p].children[k]) {
      j := k;
    } else {
      j := KidHolding(ns, p, k + 1, x);
    }
  }

  /**
   * Conversely, every node of `p`'s subtree that starts before the end and
   * has nothing pruned on its way down from `p` is emitted.
   */
  lemma {:induction false} RenderComplete(ns: seq<TreeNode>, p: nat, depth: nat, treeEnd: int, times: TreeNode -> (int, int), x: nat)
    requires WellFormed(ns) && p < |ns| && x in Preorder(ns, p)
    requires x < |ns| && times(ns[x]).0 < treeEnd && Unpruned(ns, p, x, treeEnd, times)
    ensures x in Nodes(Render(ns, p, depth, treeEnd, times))
    decreases |ns| - p, 1
  {
    PreorderAncestors(ns, p, x);
    if x == p {
      assert Nodes(Render(ns, p, depth, treeEnd, times))[0] == p;
    } else {
      assert times(ns[p]).0 < treeEnd by {
        assert ns[x].parentNodes[|ns[p].parentNodes|] == p;
      }
      var k := KidHolding(ns, p, 0, x);
      var c := ns[p].children[k];
      assert ns[c].parentNodes == ns[p].parentNodes + [p];
      PreorderAncestors(ns, c, x);
      RenderComplete(ns, c, depth + 1, treeEnd, times, x);
      RenderKidsHold(ns, p, 0, k, depth + 1, treeEnd, times, x);
      NodesConcat([Entry(p, depth)], RenderKids(ns, p, 0, depth + 1, treeEnd, times));
    }
  }

  /** What the `j`-th child emits is part of what the loop from `k <= j` emits. */
  lemma {:induction false} RenderKidsHold(ns: seq<TreeNode>, p: nat, k: nat, j: nat, depth: nat, treeEnd: int,
                                          times: TreeNode -> (int, int), x: nat)
    requires ChildrenAfter(ns) && p < |ns| && k <= j < |ns[p].children|
    requires x in Nodes(Render(ns, ns[p].children[j], depth, treeEnd, times))
    ensures x in Nodes(RenderKids(ns, p, k, depth, treeEnd, times))
    decreases j - k
  {
    var here := Render(ns, ns[p].children[k], depth, treeEnd, times);
    var rest := RenderKids(ns, p, k + 1, depth, treeEnd, times);
    NodesConcat(here, rest);
    if k < j {
      RenderKidsHold(ns, p, k + 1, j, depth, treeEnd, times, x);
    }
  }

  /**
   * The output is no longer than the tree, is empty when the root itself
   * starts at or after its end, and otherwise starts with the root at depth 0.
   */
  lemma RenderBounds(ns: seq<TreeNode>, root: nat, times: TreeNode -> (int, int))
    requires ChildrenAfter(ns) && root < |ns|
    ensures var r := Render(ns, root, 0, times(ns[root]).1, times);
      && |r| <= |Preorder(ns, root)|
      && (times(ns[root]).0 >= times(ns[root]).1 ==> r == [])
      && (times(ns[root]).0 < times(ns[root]).1 ==> r[0] == Entry(root, 0))
  {
    RenderIsPreorderSubsequence(ns, root, 0, times(ns[root]).1, times);
    SubsequenceLength(Nodes(Render(ns, root, 0, times(ns[root]).1, times)), Preorder(ns, root));
  }

  /** The shared `children` array the walk pushes into. */
  class RenderList {
    var entries: seq<Entry>

    constructor ()
      ensures entries == []
    {
      entries := [];
    }

    method Push(e: Entry)
      modifies this
      ensures entries == old(entries) + [e]
    {
      entries := entries + [e];
    }
  }

  /** `recursiveGetChildrenToRender(node, depth)` */
  method RecursiveGetChildrenToRender(ns: seq<TreeNode>, node: nat, depth: nat, treeEnd: int,
                                      times: TreeNode -> (int, int), children: RenderList)
    requires ChildrenAfter(ns) && node < |ns|
    modifies children
    ensures children.entries == old(children.entries) + Render(ns, node, depth, treeEnd, times)
    decreases |ns| - node
  {
    var startTime := times(ns[node]).0;
    if startTime >= treeEnd {
      return;
    }
    children.Push(Entry(node, depth));
    var k := 0;
    while k < |ns[node].children|
      invariant 0 <= k <= |ns[node].children|
      invariant children.entries + RenderKids(ns, node, k, depth + 1, treeEnd, times) ==
        old(children.entries) + Render(ns, node, depth, treeEnd, times)
    {
      var child := ns[node].children[k];
      ghost var before := children.entries;
      RecursiveGetChildrenToRender(ns, child, depth + 1, treeEnd, times, children);
      assert before + (Render(ns, child, depth + 1, treeEnd, times) + RenderKids(ns, node, k + 1, depth + 1, treeEnd, times)) ==
        (before + Render(ns, child, depth + 1, treeEnd, times)) + RenderKids(ns, node, k + 1, depth + 1, treeEnd, times);
      k := k + 1;
    }
  }

  /** `getNodesToRender(root)` */
  method GetNodesToRender(ns: seq<TreeNode>, root: nat, times: TreeNode -> (int, int)) returns (r: seq<Entry>)
    requires ChildrenAfter(ns) && root < |ns|
    ensures r == Render(ns, root, 0, times(ns[root]).1, times)
  {
    var children := new RenderList();
    var treeEnd := times(ns[root]).1;
    RecursiveGetChildrenToRender(ns, root, 0, treeEnd, times, children);
    r := children.entries;
  }
}
