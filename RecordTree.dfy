/**
 * The record viewer's call tree
 * (trulens_eval/trulens_eval/react_components/record_viewer/src/utils/utils.ts).
 *
 * The JavaScript tree of node objects is an arena: `nodes[i]` is node `i`,
 * and the `children` and `parentNodes` of a node hold node indices instead
 * of object references. Node 0 is the root. A node is appended at the end,
 * so every child has a larger index than its parent. Timestamps are
 * milliseconds as `int`; `None` stands for a missing or empty time.
 * `uuid(k)` is the k-th `uuid.v4()` drawn and `iso(t)` is
 * `new Date(t).toISOString()`.
 */
module RecordTree {
  import opened Wrappers
  import opened Text

  const RootNodeId: string := "root-root-root"

  // ---------------------------------------------------------------------
  // Stack cells and their paths

  /** A step of a structured path: `null`, or an object that may carry `item_or_attribute` and `index`. */
  datatype PathStep = NullStep | StepObj(itemOrAttribute: Option<string>, index: Option<int>)

  /** The `path` of a stack cell: a plain string or a lens of steps. */
  datatype Path = PathString(s: string) | PathLens(steps: seq<PathStep>)

  /** What one step contributes: `.name`, `[i]`, or nothing. */
  function StepText(p: PathStep): string
  {
    match p
    case NullStep => ""
    case StepObj(attr, idx) =>
      if attr.Some? then "." + attr.value
      else if idx.Some? then "[" + IntToString(idx.value) + "]"
      else ""
  }

  function RenderSteps(steps: seq<PathStep>): string
    decreases |steps|
  {
    if |steps| == 0 then "" else StepText(steps[0]) + RenderSteps(steps[1..])
  }

  /** `getPathName` */
  function GetPathName(p: Path): string
  {
    match p
    case PathString(s) => s
    case PathLens(steps) => RenderSteps(steps)
  }

  /** Rendering distributes over concatenation of step sequences. */
  lemma {:induction false} RenderStepsAppend(a: seq<PathStep>, b: seq<PathStep>)
    ensures RenderSteps(a + b) == RenderSteps(a) + RenderSteps(b)
    decreases |a|
  {
    if |a| == 0 {
      assert a + b == b;
    } else {
      assert (a + b)[0] == a[0];
      assert (a + b)[1..] == a[1..] + b;
      RenderStepsAppend(a[1..], b);
    }
  }

  /**
   * A string path is returned as is; a structured path is the in-order
   * concatenation of what each step contributes: `.name` for an
   * `item_or_attribute` step, `[i]` for an `index` step, nothing otherwise.
   */
  lemma GetPathNameInOrder(steps: seq<PathStep>, k: nat)
    requires k < |steps|
    ensures GetPathName(PathLens(steps)) ==
      RenderSteps(steps[..k]) + StepText(steps[k]) + RenderSteps(steps[k + 1..])
    ensures steps[k].StepObj? && steps[k].itemOrAttribute.Some? ==>
      StepText(steps[k]) == "." + steps[k].itemOrAttribute.value
    ensures steps[k].StepObj? && steps[k].itemOrAttribute.None? && steps[k].index.Some? ==>
      StepText(steps[k]) == "[" + IntToString(steps[k].index.value) + "]"
    ensures steps[k].NullStep? || (steps[k].itemOrAttribute.None? && steps[k].index.None?) ==> StepText(steps[k]) == ""
    ensures forall s :: GetPathName(PathString(s)) == s
  {
    assert steps == steps[..k] + [steps[k]] + steps[k + 1..];
    RenderStepsAppend(steps[..k] + [steps[k]], steps[k + 1..]);
    RenderStepsAppend(steps[..k], [steps[k]]);
    assert RenderSteps([steps[k]]) == StepText(steps[k]) + RenderSteps([]);
  }

  // ---------------------------------------------------------------------
  // Calls and tree nodes

  /** `perf` of a call: start and end times. */
  datatype Perf = Perf(startTime: Option<int>, endTime: Option<int>)

  /** A stack cell: its path, `method.obj.cls.name`, `method.name` and `method.obj.id`. */
  datatype StackCell = StackCell(path: Path, className: string, methodName: string, objId: int)

  datatype Call = Call(stack: seq<StackCell>, perf: Perf)

  /** A `StackTreeNode`; `methodName` is `""` where the node has none. */
  datatype TreeNode = TreeNode(
    children: seq<nat>,
    name: string,
    path: string,
    methodName: string,
    nodeId: string,
    id: Option<int>,
    startTime: Option<int>,
    endTime: Option<int>,
    raw: Option<Call>,
    parentNodes: seq<nat>)

  /** Every child lies after its parent and inside the arena. */
  predicate ChildrenAfter(ns: seq<TreeNode>)
  {
    forall p, k :: 0 <= p < |ns| && 0 <= k < |ns[p].children| ==> p < ns[p].children[k] < |ns|
  }

  /** The structural invariant of the tree: a root without ancestors, and each child's ancestors are its parent's plus the parent. */
  predicate WellFormed(ns: seq<TreeNode>)
  {
    && |ns| > 0
    && ns[0].parentNodes == []
    && ChildrenAfter(ns)
    && forall p, k :: 0 <= p < |ns| && 0 <= k < |ns[p].children| ==>
         ns[ns[p].children[k]].parentNodes == ns[p].parentNodes + [p]
  }

  /**
   * The predicate of `tree.children.find`: same class name, and the node's
   * interval (0 and infinity where a bound is missing) contains the call's.
   * A missing call time is an invalid date, with which every comparison is false.
   */
  predicate Matches(n: TreeNode, cell: StackCell, perf: Perf)
  {
    && n.name == cell.className
    && perf.startTime.Some? && perf.endTime.Some?
    && (if n.startTime.Some? then n.startTime.value else 0) <= perf.startTime.value
    && (n.endTime.None? || n.endTime.value >= perf.endTime.value)
  }

  function FindMatchFrom(ns: seq<TreeNode>, t: nat, cell: StackCell, perf: Perf, k: nat): (r: Option<nat>)
    requires ChildrenAfter(ns) && t < |ns| && k <= |ns[t].children|
    ensures r.Some? ==> k <= r.value < |ns[t].children| && Matches(ns[ns[t].children[r.value]], cell, perf)
    ensures r.Some? ==> forall j :: k <= j < r.value ==> !Matches(ns[ns[t].children[j]], cell, perf)
    ensures r.None? <==> forall j :: k <= j < |ns[t].children| ==> !Matches(ns[ns[t].children[j]], cell, perf)
    decreases |ns[t].children| - k
  {
    if k == |ns[t].children| then None
    else if Matches(ns[ns[t].children[k]], cell, perf) then Some(k)
    else FindMatchFrom(ns, t, cell, perf, k + 1)
  }

  /** The position among `t`'s children of the first matching child, if any. */
  function FindMatch(ns: seq<TreeNode>, t: nat, cell: StackCell, perf: Perf): (r: Option<nat>)
    requires ChildrenAfter(ns) && t < |ns|
    ensures r.Some? ==> r.value < |ns[t].children| && Matches(ns[ns[t].children[r.value]], cell, perf)
    ensures r.Some? ==> forall j :: 0 <= j < r.value ==> !Matches(ns[ns[t].children[j]], cell, perf)
    ensures r.None? <==> forall j :: 0 <= j < |ns[t].children| ==> !Matches(ns[ns[t].children[j]], cell, perf)
  {
    FindMatchFrom(ns, t, cell, perf, 0)
  }

  function IsoOrEmpty(iso: int -> string, time: Option<int>): string
  {
    if time.Some? then iso(time.value) else ""
  }

  /** The matching node after the top stack cell overwrote it (lines 94-102). */
  function Overwritten(n: TreeNode, call: Call, cell: StackCell, iso: int -> string): TreeNode
  {
    n.(startTime := call.perf.startTime,
       endTime := call.perf.endTime,
       id := Some(cell.objId),
       nodeId := IntToString(cell.objId) + "-" + cell.methodName + "-" + cell.className + "-" +
                 IsoOrEmpty(iso, call.perf.startTime) + "-" + IsoOrEmpty(iso, call.perf.endTime),
       raw := Some(call))
  }

  /** The leaf appended for the top stack cell when nothing matches (lines 107-118). */
  function Leaf(ns: seq<TreeNode>, t: nat, call: Call, cell: StackCell): TreeNode
    requires t < |ns|
  {
    TreeNode([], cell.className, GetPathName(cell.path), cell.methodName,
             IntToString(cell.objId) + "-" + cell.methodName + "-" + cell.className,
             Some(cell.objId), call.perf.startTime, call.perf.endTime, Some(call), ns[t].parentNodes + [t])
  }

  /** The node appended for an intermediate stack cell when nothing matches (lines 124-131). */
  function Intermediate(ns: seq<TreeNode>, t: nat, cell: StackCell, newId: string): TreeNode
    requires t < |ns|
  {
    TreeNode([], cell.className, GetPathName(cell.path), cell.methodName,
             newId + "-" + cell.methodName + "-" + GetPathName(cell.path),
             None, None, None, None, ns[t].parentNodes + [t])
  }

  /** `ns[t].children.push(n)`, with `n` stored at the end of the arena. */
  function PushChild(ns: seq<TreeNode>, t: nat, n: TreeNode): seq<TreeNode>
    requires t < |ns|
  {
    ns[t := ns[t].(children := ns[t].children + [|ns|])] + [n]
  }

  lemma PushChildKeepsOrder(ns: seq<TreeNode>, t: nat, n: TreeNode)
    requires ChildrenAfter(ns) && t < |ns| && n.children == []
    ensures ChildrenAfter(PushChild(ns, t, n))
  {
    var ns' := PushChild(ns, t, n);
    forall p, k | 0 <= p < |ns'| && 0 <= k < |ns'[p].children|
      ensures p < ns'[p].children[k] < |ns'|
    {
      if p == t && k == |ns[t].children| {
        assert ns'[p].children[k] == |ns|;
      }
    }
  }

  lemma PushChildKeepsWellFormed(ns: seq<TreeNode>, t: nat, n: TreeNode)
    requires WellFormed(ns) && t < |ns| && n.children == [] && n.parentNodes == ns[t].parentNodes + [t]
    ensures WellFormed(PushChild(ns, t, n))
  {
    PushChildKeepsOrder(ns, t, n);
    var ns' := PushChild(ns, t, n);
    forall p, k | 0 <= p < |ns'| && 0 <= k < |ns'[p].children|
      ensures ns'[ns'[p].children[k]].parentNodes == ns'[p].parentNodes + [p]
    {
      if p == t && k == |ns[t].children| {
        assert ns'[p].children[k] == |ns|;
      } else {
        assert ns'[p].children[k] == ns[p].children[k];
      }
    }
  }

  /** The state after one `addCallToTree` and, for the lemmas, the node it wrote last. */
  datatype Insertion = Insertion(nodes: seq<TreeNode>, drawn: nat, threw: bool, touched: nat)

  /** `addCallToTree(tree, call, call.stack, index)` on node `t`, with `drawn` uuids drawn so far. */
  function AddCall(ns: seq<TreeNode>, drawn: nat, uuid: nat -> string, iso: int -> string,
                   t: nat, call: Call, index: nat): (r: Insertion)
    requires ChildrenAfter(ns) && t < |ns|
    ensures ChildrenAfter(r.nodes) && |ns| <= |r.nodes| && r.touched < |r.nodes|
    decreases |call.stack| - index
  {
    if index >= |call.stack| then Insertion(ns, drawn, true, t)
    else
      var cell := call.stack[index];
      var m := FindMatch(ns, t, cell, call.perf);
      if index == |call.stack| - 1 then
        if m.Some? then
          var c := ns[t].children[m.value];
          Insertion(ns[c := Overwritten(ns[c], call, cell, iso)], drawn, false, c)
        else
          PushChildKeepsOrder(ns, t, Leaf(ns, t, call, cell));
          Insertion(PushChild(ns, t, Leaf(ns, t, call, cell)), drawn, false, |ns|)
      else if m.Some? then
        AddCall(ns, drawn, uuid, iso, ns[t].children[m.value], call, index + 1)
      else
        var created := Intermediate(ns, t, cell, uuid(drawn));
        PushChildKeepsOrder(ns, t, created);
        AddCall(PushChild(ns, t, created), drawn + 1, uuid, iso, |ns|, call, index + 1)
  }

  // ---------------------------------------------------------------------
  // Properties of one insertion

  /** The walk throws exactly when it runs off the stack (an empty stack at the top call), and then changes nothing. */
  lemma {:induction false} AddCallThrowsOnlyPastTheStack(ns: seq<TreeNode>, drawn: nat, uuid: nat -> string, iso: int -> string,
                                                         t: nat, call: Call, index: nat)
    requires ChildrenAfter(ns) && t < |ns|
    ensures AddCall(ns, drawn, uuid, iso, t, call, index).threw <==> index >= |call.stack|
    ensures AddCall(ns, drawn, uuid, iso, t, call, index).threw ==>
      AddCall(ns, drawn, uuid, iso, t, call, index).nodes == ns && AddCall(ns, drawn, uuid, iso, t, call, index).drawn == drawn
    decreases |call.stack| - index
  {
    if index < |call.stack| - 1 {
      var cell := call.stack[index];
      var m := FindMatch(ns, t, cell, call.perf);
      if m.Some? {
        AddCallThrowsOnlyPastTheStack(ns, drawn, uuid, iso, ns[t].children[m.value], call, index + 1);
      } else {
        var created := Intermediate(ns, t, cell, uuid(drawn));
        PushChildKeepsOrder(ns, t, created);
        AddCallThrowsOnlyPastTheStack(PushChild(ns, t, created), drawn + 1, uuid, iso, |ns|, call, index + 1);
      }
    }
  }

  /**
   * At the top stack cell with a match, no node is added; only the match's
   * times, `id`, `nodeId` and `raw` change, and every other node is as it was.
   */
  lemma AddCallOverwritesMatch(ns: seq<TreeNode>, drawn: nat, uuid: nat -> string, iso: int -> string,
                               t: nat, call: Call, index: nat)
    requires ChildrenAfter(ns) && t < |ns|
    requires index == |call.stack| - 1
    requires FindMatch(ns, t, call.stack[index], call.perf).Some?
    ensures var r := AddCall(ns, drawn, uuid, iso, t, call, index);
      var c := ns[t].children[FindMatch(ns, t, call.stack[index], call.perf).value];
      && !r.threw && r.drawn == drawn && r.touched == c
      && |r.nodes| == |ns|
      && (forall i :: 0 <= i < |ns| && i != c ==> r.nodes[i] == ns[i])
      && r.nodes[c].children == ns[c].children && r.nodes[c].name == ns[c].name
      && r.nodes[c].path == ns[c].path && r.nodes[c].methodName == ns[c].methodName
      && r.nodes[c].parentNodes == ns[c].parentNodes
      && r.nodes[c].startTime == call.perf.startTime && r.nodes[c].endTime == call.perf.endTime
      && r.nodes[c].id == Some(call.stack[index].objId) && r.nodes[c].raw == Some(call)
  {
  }

  /**
   * At the top stack cell without a match, exactly one leaf is appended as
   * the last child of `t`: no children, `raw` the call, and ancestors those
   * of `t` followed by `t`.
   */
  lemma AddCallAppendsLeaf(ns: seq<TreeNode>, drawn: nat, uuid: nat -> string, iso: int -> string,
                           t: nat, call: Call, index: nat)
    requires ChildrenAfter(ns) && t < |ns|
    requires index == |call.stack| - 1
    requires FindMatch(ns, t, call.stack[index], call.perf).None?
    ensures var r := AddCall(ns, drawn, uuid, iso, t, call, index);
      && !r.threw && r.drawn == drawn && r.touched == |ns|
      && |r.nodes| == |ns| + 1
      && (forall i :: 0 <= i < |ns| && i != t ==> r.nodes[i] == ns[i])
      && r.nodes[t] == ns[t].(children := ns[t].children + [|ns|])
      && r.nodes[|ns|].children == [] && r.nodes[|ns|].raw == Some(call)
      && r.nodes[|ns|].parentNodes == ns[t].parentNodes + [t]
      && r.nodes[|ns|].name == call.stack[index].className
  {
  }

  /** One insertion keeps the tree well formed. */
  lemma {:induction false} AddCallKeepsWellFormed(ns: seq<TreeNode>, drawn: nat, uuid: nat -> string, iso: int -> string,
                                                  t: nat, call: Call, index: nat)
    requires WellFormed(ns) && t < |ns|
    ensures WellFormed(AddCall(ns, drawn, uuid, iso, t, call, index).nodes)
    decreases |call.stack| - index
  {
    if index < |call.stack| {
      var cell := call.stack[index];
      var m := FindMatch(ns, t, cell, call.perf);
      if index == |call.stack| - 1 {
        if m.None? {
          PushChildKeepsWellFormed(ns, t, Leaf(ns, t, call, cell));
        } else {
          var c := ns[t].children[m.value];
          var ns' := ns[c := Overwritten(ns[c], call, cell, iso)];
          assert forall i :: 0 <= i < |ns| ==> ns'[i].children == ns[i].children && ns'[i].parentNodes == ns[i].parentNodes;
        }
      } else if m.Some? {
        AddCallKeepsWellFormed(ns, drawn, uuid, iso, ns[t].children[m.value], call, index + 1);
      } else {
        var created := Intermediate(ns, t, cell, uuid(drawn));
        PushChildKeepsWellFormed(ns, t, created);
        AddCallKeepsWellFormed(PushChild(ns, t, created), drawn + 1, uuid, iso, |ns|, call, index + 1);
      }
    }
  }

  /** `AddCallKeepsWellFormed` for a tree that may or may not be well formed yet. */
  lemma AddCallKeepsValid(ns: seq<TreeNode>, drawn: nat, uuid: nat -> string, iso: int -> string,
                          t: nat, call: Call, index: nat)
    requires ChildrenAfter(ns) && t < |ns|
    ensures WellFormed(ns) ==> WellFormed(AddCall(ns, drawn, uuid, iso, t, call, index).nodes)
  {
    if WellFormed(ns) {
      AddCallKeepsWellFormed(ns, drawn, uuid, iso, t, call, index);
    }
  }

  /**
   * The walk descends one level per stack cell and records the call: the
   * node written for the top cell carries the call as `raw` and the top
   * cell's class name, and lies `|stack| - index` levels below `t`, with `t`
   * among its ancestors.
   */
  lemma {:induction false} AddCallDepth(ns: seq<TreeNode>, drawn: nat, uuid: nat -> string, iso: int -> string,
                                        t: nat, call: Call, index: nat)
    requires WellFormed(ns) && t < |ns|
    requires index < |call.stack|
    ensures var r := AddCall(ns, drawn, uuid, iso, t, call, index);
      && !r.threw
      && r.nodes[r.touched].raw == Some(call)
      && r.nodes[r.touched].name == call.stack[|call.stack| - 1].className
      && |r.nodes[r.touched].parentNodes| == |ns[t].parentNodes| + |call.stack| - index
      && ns[t].parentNodes + [t] <= r.nodes[r.touched].parentNodes
    decreases |call.stack| - index
  {
    var cell := call.stack[index];
    var m := FindMatch(ns, t, cell, call.perf);
    if index < |call.stack| - 1 {
      if m.Some? {
        var c := ns[t].children[m.value];
        AddCallDepth(ns, drawn, uuid, iso, c, call, index + 1);
      } else {
        var created := Intermediate(ns, t, cell, uuid(drawn));
        PushChildKeepsWellFormed(ns, t, created);
        AddCallDepth(PushChild(ns, t, created), drawn + 1, uuid, iso, |ns|, call, index + 1);
      }
    }
  }

  /** The root keeps every field but its children, which only grow. */
  lemma {:induction false} AddCallKeepsRoot(ns: seq<TreeNode>, drawn: nat, uuid: nat -> string, iso: int -> string,
                                            t: nat, call: Call, index: nat)
    requires ChildrenAfter(ns) && |ns| > 0 && t < |ns|
    ensures var r := AddCall(ns, drawn, uuid, iso, t, call, index);
      r.nodes[0] == ns[0].(children := r.nodes[0].children) && ns[0].children <= r.nodes[0].children
    decreases |call.stack| - index
  {
    if index < |call.stack| {
      var cell := call.stack[index];
      var m := FindMatch(ns, t, cell, call.perf);
      if index == |call.stack| - 1 {
      } else if m.Some? {
        AddCallKeepsRoot(ns, drawn, uuid, iso, ns[t].children[m.value], call, index + 1);
      } else {
        var created := Intermediate(ns, t, cell, uuid(drawn));
        PushChildKeepsOrder(ns, t, created);
        AddCallKeepsRoot(PushChild(ns, t, created), drawn + 1, uuid, iso, |ns|, call, index + 1);
      }
    }
  }

  // ---------------------------------------------------------------------
  // Building the tree from a record

  /** `createTreeFromCalls`' root: the whole record's times, `id` 0, no ancestors, a raw call without stack. */
  function Root(appName: string, recordPerf: Perf): (r: TreeNode)
    ensures r.nodeId == RootNodeId && r.id == Some(0) && r.parentNodes == [] && r.children == []
  {
    TreeNode([], appName, "", "", RootNodeId, Some(0), recordPerf.startTime, recordPerf.endTime,
             Some(Call([], recordPerf)), [])
  }

  datatype Built = Built(nodes: seq<TreeNode>, drawn: nat, threw: bool)

  /** `calls.forEach(call => addCallToTree(tree, call, call.stack, 0))` from call `k` on; a throw ends it. */
  function BuildFrom(ns: seq<TreeNode>, drawn: nat, uuid: nat -> string, iso: int -> string,
                     calls: seq<Call>, k: nat): (b: Built)
    requires ChildrenAfter(ns) && |ns| > 0
    ensures ChildrenAfter(b.nodes) && |ns| <= |b.nodes|
    decreases |calls| - k
  {
    if k >= |calls| then Built(ns, drawn, false)
    else
      var r := AddCall(ns, drawn, uuid, iso, 0, calls[k], 0);
      if r.threw then Built(r.nodes, r.drawn, true)
      else BuildFrom(r.nodes, r.drawn, uuid, iso, calls, k + 1)
  }

  /** Some call from the `k`-th on has an empty stack. */
  predicate EmptyStackFrom(calls: seq<Call>, k: nat)
    decreases |calls| - k
  {
    k < |calls| && (|calls[k].stack| == 0 || EmptyStackFrom(calls, k + 1))
  }

  lemma {:induction false} EmptyStackFromIsSome(calls: seq<Call>, k: nat)
    ensures EmptyStackFrom(calls, k) <==> exists j :: k <= j < |calls| && |calls[j].stack| == 0
    decreases |calls| - k
  {
    if k < |calls| {
      EmptyStackFromIsSome(calls, k + 1);
      if |calls[k].stack| != 0 {
        assert forall j :: k <= j < |calls| && |calls[j].stack| == 0 ==> k + 1 <= j;
      }
    }
  }

  lemma {:induction false} BuildFromThrowsAt(ns: seq<TreeNode>, drawn: nat, uuid: nat -> string, iso: int -> string,
                                             calls: seq<Call>, k: nat)
    requires ChildrenAfter(ns) && |ns| > 0
    ensures BuildFrom(ns, drawn, uuid, iso, calls, k).threw <==> EmptyStackFrom(calls, k)
    decreases |calls| - k
  {
    if k < |calls| {
      AddCallThrowsOnlyPastTheStack(ns, drawn, uuid, iso, 0, calls[k], 0);
      var r := AddCall(ns, drawn, uuid, iso, 0, calls[k], 0);
      if !r.threw {
        BuildFromThrowsAt(r.nodes, r.drawn, uuid, iso, calls, k + 1);
      }
    }
  }

  /** Building throws iff some call has an empty stack. */
  lemma BuildFromThrows(ns: seq<TreeNode>, drawn: nat, uuid: nat -> string, iso: int -> string,
                        calls: seq<Call>, k: nat)
    requires ChildrenAfter(ns) && |ns| > 0
    ensures BuildFrom(ns, drawn, uuid, iso, calls, k).threw <==> exists j :: k <= j < |calls| && |calls[j].stack| == 0
  {
    BuildFromThrowsAt(ns, drawn, uuid, iso, calls, k);
    EmptyStackFromIsSome(calls, k);
  }

  /** Building keeps the tree well formed. */
  lemma {:induction false} BuildFromKeepsWellFormed(ns: seq<TreeNode>, drawn: nat, uuid: nat -> string, iso: int -> string,
                                                    calls: seq<Call>, k: nat)
    requires WellFormed(ns)
    ensures WellFormed(BuildFrom(ns, drawn, uuid, iso, calls, k).nodes)
    decreases |calls| - k
  {
    if k < |calls| {
      AddCallKeepsWellFormed(ns, drawn, uuid, iso, 0, calls[k], 0);
      var r := AddCall(ns, drawn, uuid, iso, 0, calls[k], 0);
      if !r.threw {
        BuildFromKeepsWellFormed(r.nodes, r.drawn, uuid, iso, calls, k + 1);
      }
    }
  }

  /** Building keeps every field of the root but its children, which only grow. */
  lemma {:induction false} BuildFromKeepsRoot(ns: seq<TreeNode>, drawn: nat, uuid: nat -> string, iso: int -> string,
                                              calls: seq<Call>, k: nat)
    requires ChildrenAfter(ns) && |ns| > 0
    ensures var b := BuildFrom(ns, drawn, uuid, iso, calls, k);
      b.nodes[0] == ns[0].(children := b.nodes[0].children) && ns[0].children <= b.nodes[0].children
    decreases |calls| - k
  {
    if k < |calls| {
      AddCallKeepsRoot(ns, drawn, uuid, iso, 0, calls[k], 0);
      var r := AddCall(ns, drawn, uuid, iso, 0, calls[k], 0);
      if !r.threw {
        BuildFromKeepsRoot(r.nodes, r.drawn, uuid, iso, calls, k + 1);
      }
    }
  }

  /** A tree built from a record has the root `createTreeFromCalls` promises. */
  lemma BuiltTreeRoot(appName: string, recordPerf: Perf, uuid: nat -> string, iso: int -> string, calls: seq<Call>)
    ensures var b := BuildFrom([Root(appName, recordPerf)], 0, uuid, iso, calls, 0);
      && WellFormed(b.nodes)
      && b.nodes[0].nodeId == RootNodeId && b.nodes[0].id == Some(0) && b.nodes[0].parentNodes == []
      && b.nodes[0].name == appName
      && (b.threw <==> exists j :: 0 <= j < |calls| && |calls[j].stack| == 0)
  {
    BuildFromThrows([Root(appName, recordPerf)], 0, uuid, iso, calls, 0);
    BuildFromKeepsWellFormed([Root(appName, recordPerf)], 0, uuid, iso, calls, 0);
    BuildFromKeepsRoot([Root(appName, recordPerf)], 0, uuid, iso, calls, 0);
  }

  // ---------------------------------------------------------------------
  // Selectors and the node map

  /** The non-empty strings of `parts`, in order (`.filter(Boolean)`). */
  function NonEmpty(parts: seq<string>): (r: seq<string>)
    ensures forall i :: 0 <= i < |r| ==> r[i] != ""
    ensures forall s :: s in r <==> s in parts && s != ""
    ensures |r| <= |parts|
    decreases |parts|
  {
    if |parts| == 0 then []
    else if parts[0] == "" then NonEmpty(parts[1..])
    else [parts[0]] + NonEmpty(parts[1..])
  }

  /** `getSelector`; `None` is the null node. */
  function GetSelector(node: Option<TreeNode>): string
  {
    if node.None? then ""
    else Join(".", NonEmpty(["Select.Record", node.value.path, node.value.methodName]))
  }

  /** The selector drops an empty path or method name and joins the rest with dots after `Select.Record`. */
  lemma GetSelectorParts(node: TreeNode)
    ensures GetSelector(None) == ""
    ensures node.path == "" && node.methodName == "" ==> GetSelector(Some(node)) == "Select.Record"
    ensures node.path != "" && node.methodName == "" ==> GetSelector(Some(node)) == "Select.Record." + node.path
    ensures node.path == "" && node.methodName != "" ==> GetSelector(Some(node)) == "Select.Record." + node.methodName
    ensures node.path != "" && node.methodName != "" ==>
      GetSelector(Some(node)) == "Select.Record." + node.path + "." + node.methodName
  {
    var parts := ["Select.Record", node.path, node.methodName];
    assert parts[1..] == [node.path, node.methodName];
    assert parts[1..][1..] == [node.methodName];
    assert parts[1..][1..][1..] == [];
    var tail := if node.methodName == "" then [] else [node.methodName];
    assert NonEmpty([node.methodName]) == tail;
    var middle := if node.path == "" then tail else [node.path] + tail;
    assert NonEmpty([node.path, node.methodName]) == middle;
    assert NonEmpty(parts) == ["Select.Record"] + middle;
    if node.path != "" && node.methodName != "" {
      assert ["Select.Record"] + middle == ["Select.Record", node.path, node.methodName];
      assert Join(".", [node.path, node.methodName]) == node.path + "." + Join(".", [node.methodName]);
    } else if node.path != "" || node.methodName != "" {
      var only := if node.path != "" then node.path else node.methodName;
      assert ["Select.Record"] + middle == ["Select.Record", only];
      assert Join(".", ["Select.Record", only]) == "Select.Record" + "." + Join(".", [only]);
    }
  }

  /** The nodes reachable from `p`, parent before children, children in order. */
  function Preorder(ns: seq<TreeNode>, p: nat): (r: seq<nat>)
    requires ChildrenAfter(ns) && p < |ns|
    ensures |r| > 0 && r[0] == p
    ensures forall x :: x in r ==> p <= x < |ns|
    decreases |ns| - p, 1
  {
    [p] + PreorderKids(ns, p, 0)
  }

  function PreorderKids(ns: seq<TreeNode>, p: nat, k: nat): (r: seq<nat>)
    requires ChildrenAfter(ns) && p < |ns| && k <= |ns[p].children|
    ensures forall x :: x in r ==> p < x < |ns|
    decreases |ns| - p, 0, |ns[p].children| - k
  {
    if k == |ns[p].children| then []
    else Preorder(ns, ns[p].children[k]) + PreorderKids(ns, p, k + 1)
  }

  /** Every index of `q` names a node. */
  predicate InArena(ns: seq<TreeNode>, q: seq<nat>)
  {
    forall i :: 0 <= i < |q| ==> q[i] < |ns|
  }

  /** The preorders of the nodes of `queue`, one after another. */
  function QueueOrder(ns: seq<TreeNode>, queue: seq<nat>): (r: seq<nat>)
    requires ChildrenAfter(ns) && InArena(ns, queue)
    ensures forall x :: x in r ==> x < |ns|
    decreases |queue|
  {
    if |queue| == 0 then [] else Preorder(ns, queue[0]) + QueueOrder(ns, queue[1..])
  }

  lemma {:induction false} QueueOrderAppend(ns: seq<TreeNode>, a: seq<nat>, b: seq<nat>)
    requires ChildrenAfter(ns) && InArena(ns, a) && InArena(ns, b)
    ensures QueueOrder(ns, a + b) == QueueOrder(ns, a) + QueueOrder(ns, b)
    decreases |a|
  {
    if |a| == 0 {
      assert a + b == b;
    } else {
      assert (a + b)[0] == a[0];
      assert (a + b)[1..] == a[1..] + b;
      QueueOrderAppend(ns, a[1..], b);
    }
  }

  lemma {:induction false} QueueOrderOfChildren(ns: seq<TreeNode>, p: nat, k: nat)
    requires ChildrenAfter(ns) && p < |ns| && k <= |ns[p].children|
    ensures QueueOrder(ns, ns[p].children[k..]) == PreorderKids(ns, p, k)
    decreases |ns[p].children| - k
  {
    if k < |ns[p].children| {
      assert ns[p].children[k..][0] == ns[p].children[k];
      assert ns[p].children[k..][1..] == ns[p].children[k + 1..];
      QueueOrderOfChildren(ns, p, k + 1);
    }
  }

  /** The indices occurring in `s`. */
  function Elems(s: seq<nat>): set<nat>
  {
    set i | i in s
  }

  /** Popping `curr` off the queue and pushing its children removes exactly `curr` from what is left to visit. */
  lemma QueuePop(ns: seq<TreeNode>, q: seq<nat>, curr: nat)
    requires ChildrenAfter(ns) && InArena(ns, q) && curr < |ns|
    ensures InArena(ns, q + ns[curr].children)
    ensures Elems(QueueOrder(ns, q + [curr])) == {curr} + Elems(QueueOrder(ns, q + ns[curr].children))
    ensures |QueueOrder(ns, q + [curr])| == 1 + |QueueOrder(ns, q + ns[curr].children)|
  {
    var kids := ns[curr].children;
    QueueOrderAppend(ns, q, [curr]);
    QueueOrderAppend(ns, q, kids);
    QueueOrderOfChildren(ns, curr, 0);
    assert kids[0..] == kids;
    assert QueueOrder(ns, [curr]) == Preorder(ns, curr) + QueueOrder(ns, []);
    var before := QueueOrder(ns, q + [curr]);
    var after := QueueOrder(ns, q + kids);
    assert before == QueueOrder(ns, q) + ([curr] + PreorderKids(ns, curr, 0));
    assert after == QueueOrder(ns, q) + PreorderKids(ns, curr, 0);
  }

  /** `result` maps the `nodeId` of each visited node to a visited node carrying it. */
  ghost predicate NodeMapOf(ns: seq<TreeNode>, result: map<string, TreeNode>, visited: set<nat>)
  {
    && (forall x :: x in visited ==> x < |ns|)
    && result.Keys == (set i | i in visited && i < |ns| :: ns[i].nodeId)
    && forall key :: key in result ==> result[key].nodeId == key && exists i :: i in visited && i < |ns| && result[key] == ns[i]
  }

  lemma NodeMapAdd(ns: seq<TreeNode>, result: map<string, TreeNode>, visited: set<nat>, curr: nat)
    requires NodeMapOf(ns, result, visited) && curr < |ns|
    ensures NodeMapOf(ns, result[ns[curr].nodeId := ns[curr]], visited + {curr})
  {
    var result' := result[ns[curr].nodeId := ns[curr]];
    var visited' := visited + {curr};
    assert (set i | i in visited' && i < |ns| :: ns[i].nodeId) == (set i | i in visited && i < |ns| :: ns[i].nodeId) + {ns[curr].nodeId};
    forall key | key in result'
      ensures result'[key].nodeId == key && exists i :: i in visited' && i < |ns| && result'[key] == ns[i]
    {
      if key == ns[curr].nodeId {
        assert curr in visited' && result'[key] == ns[curr];
      } else {
        var i :| i in visited && i < |ns| && result[key] == ns[i];
        assert i in visited';
      }
    }
  }

  // ---------------------------------------------------------------------
  // The tree object

  class CallTree {
    var nodes: seq<TreeNode>
    var drawn: nat
    const uuid: nat -> string
    const iso: int -> string

    ghost predicate Valid()
      reads this
    {
      WellFormed(nodes)
    }

    /** The tree `createTreeFromCalls` starts from: the root alone. */
    constructor (appName: string, recordPerf: Perf, uuid: nat -> string, iso: int -> string)
      ensures nodes == [Root(appName, recordPerf)] && drawn == 0
      ensures this.uuid == uuid && this.iso == iso
      ensures Valid()
    {
      nodes := [Root(appName, recordPerf)];
      drawn := 0;
      this.uuid := uuid;
      this.iso := iso;
    }

    /** `addCallToTree(nodes[t], call, call.stack, index)`; `threw` is the `TypeError` of reading past the stack. */
    method AddCallToTree(t: nat, call: Call, index: nat) returns (threw: bool)
      requires ChildrenAfter(nodes) && t < |nodes|
      modifies this
      ensures nodes == AddCall(old(nodes), old(drawn), uuid, iso, t, call, index).nodes
      ensures drawn == AddCall(old(nodes), old(drawn), uuid, iso, t, call, index).drawn
      ensures threw == AddCall(old(nodes), old(drawn), uuid, iso, t, call, index).threw
      ensures old(Valid()) ==> Valid()
      decreases |call.stack| - index
    {
      if index >= |call.stack| {
        // `stackCell` is undefined, and reading its `path` throws
        return true;
      }
      var stackCell := call.stack[index];
      var matching := FindMatch(nodes, t, stackCell, call.perf);
      var path := GetPathName(stackCell.path);
      var name := stackCell.className;
      var methodName := stackCell.methodName;
      var id := stackCell.objId;
      var nodeId := IntToString(id) + "-" + methodName + "-" + name;

      if index == |call.stack| - 1 {
        var startTime, endTime := call.perf.startTime, call.perf.endTime;
        if matching.Some? {
          var m := nodes[t].children[matching.value];
          var matchingNodeId := call.stack[index].objId;
          nodes := nodes[m := nodes[m].(
            startTime := startTime,
            endTime := endTime,
            id := Some(matchingNodeId),
            nodeId := IntToString(matchingNodeId) + "-" + methodName + "-" + name + "-" +
                      IsoOrEmpty(iso, startTime) + "-" + IsoOrEmpty(iso, endTime),
            raw := Some(call))];
          AddCallKeepsValid(old(nodes), old(drawn), uuid, iso, t, call, index);
          return false;
        }
        var leaf := TreeNode([], name, path, methodName, nodeId, Some(id), startTime, endTime, Some(call),
                             nodes[t].parentNodes + [t]);
        nodes := nodes[t := nodes[t].(children := nodes[t].children + [|nodes|])] + [leaf];
        AddCallKeepsValid(old(nodes), old(drawn), uuid, iso, t, call, index);
        return false;
      }

      var next: nat;
      if matching.None? {
        var newNode := TreeNode([], name, path, methodName, uuid(drawn) + "-" + methodName + "-" + path,
                                None, None, None, None, nodes[t].parentNodes + [t]);
        PushChildKeepsOrder(nodes, t, newNode);
        drawn := drawn + 1;
        next := |nodes|;
        nodes := nodes[t := nodes[t].(children := nodes[t].children + [|nodes|])] + [newNode];
      } else {
        next := nodes[t].children[matching.value];
      }
      threw := AddCallToTree(next, call, index + 1);
      AddCallKeepsValid(old(nodes), old(drawn), uuid, iso, t, call, index);
    }

    /** The `forEach` of `createTreeFromCalls`: each call from the root at stack index 0, in order. */
    method AddCalls(calls: seq<Call>) returns (threw: bool)
      requires ChildrenAfter(nodes) && |nodes| > 0
      modifies this
      ensures nodes == BuildFrom(old(nodes), old(drawn), uuid, iso, calls, 0).nodes
      ensures drawn == BuildFrom(old(nodes), old(drawn), uuid, iso, calls, 0).drawn
      ensures threw == BuildFrom(old(nodes), old(drawn), uuid, iso, calls, 0).threw
      ensures old(Valid()) ==> Valid()
    {
      if Valid() {
        BuildFromKeepsWellFormed(nodes, drawn, uuid, iso, calls, 0);
      }
      var k := 0;
      while k < |calls|
        invariant 0 <= k <= |calls|
        invariant ChildrenAfter(nodes) && |nodes| > 0
        invariant BuildFrom(old(nodes), old(drawn), uuid, iso, calls, 0) == BuildFrom(nodes, drawn, uuid, iso, calls, k)
      {
        threw := AddCallToTree(0, calls[k], 0);
        if threw {
          return;
        }
        k := k + 1;
      }
      return false;
    }

    /** `createNodeMap(nodes[start])`: every reachable node under its `nodeId`. */
    method CreateNodeMap(start: nat) returns (result: map<string, TreeNode>)
      requires ChildrenAfter(nodes) && start < |nodes|
      ensures result.Keys == set i | i in Preorder(nodes, start) :: nodes[i].nodeId
      ensures forall key :: key in result ==>
        result[key].nodeId == key && exists i :: i in Preorder(nodes, start) && result[key] == nodes[i]
    {
      result := map[];
      var queue: seq<nat> := [start];
      ghost var visited: set<nat> := {};
      ghost var reach := Elems(Preorder(nodes, start));
      assert QueueOrder(nodes, queue) == Preorder(nodes, start) + QueueOrder(nodes, []);
      while |queue| != 0
        invariant InArena(nodes, queue)
        invariant reach == visited + Elems(QueueOrder(nodes, queue))
        invariant NodeMapOf(nodes, result, visited)
        decreases |QueueOrder(nodes, queue)|
      {
        var currNode := queue[|queue| - 1];
        ghost var before: seq<nat> := queue;
        queue := queue[..|queue| - 1];
        assert before == queue + [currNode];
        QueuePop(nodes, queue, currNode);
        NodeMapAdd(nodes, result, visited, currNode);
        result := result[nodes[currNode].nodeId := nodes[currNode]];
        ghost var rest := queue;
        visited := visited + {currNode};
        queue := queue + nodes[currNode].children;
        assert Elems(QueueOrder(nodes, before)) == {currNode} + Elems(QueueOrder(nodes, queue)) by {
          assert before == rest + [currNode];
        }
      }
      assert reach == visited;
      assert (set i | i in Preorder(nodes, start) :: nodes[i].nodeId) == (set i | i in visited && i < |nodes| :: nodes[i].nodeId);
    }
  }

  /** `createTreeFromCalls`: the tree of a record's calls, or `None` when one of them throws. */
  method CreateTreeFromCalls(calls: seq<Call>, recordPerf: Perf, appName: string,
                             uuid: nat -> string, iso: int -> string) returns (tree: Option<CallTree>)
    ensures tree.None? <==> exists j :: 0 <= j < |calls| && |calls[j].stack| == 0
    ensures tree.Some? ==>
      && fresh(tree.value) && tree.value.Valid()
      && tree.value.nodes == BuildFrom([Root(appName, recordPerf)], 0, uuid, iso, calls, 0).nodes
      && tree.value.nodes[0].nodeId == RootNodeId && tree.value.nodes[0].id == Some(0)
      && tree.value.nodes[0].parentNodes == []
  {
    var t := new CallTree(appName, recordPerf, uuid, iso);
    var threw := t.AddCalls(calls);
    BuiltTreeRoot(appName, recordPerf, uuid, iso, calls);
    if threw {
      return None;
    }
    return Some(t);
  }
}
