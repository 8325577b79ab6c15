/** The index-addressed topology tree (tree.go): a sequence of nodes, each an element with
    the ordered ids of its children, and the structural queries over it. A nil `*Tree`
    receiver is `None`. Queries take the tree by value, so none of them changes it. */
module Trees {

  import opened Wrappers
  import opened Errors
  import opened Elements

  type NodeID = nat

  datatype TreeNode = TreeNode(data: Element, children: seq<NodeID>)

  datatype Tree = Tree(nodes: seq<TreeNode>)

  // ---------------------------------------------------------------------------------------
  // Shape of a valid tree
  // ---------------------------------------------------------------------------------------

  /** A witness that a node list forms a tree: the depth and the parent of every node. */
  datatype Shape = Shape(depth: seq<nat>, parent: seq<NodeID>)

  /** The tree invariant, stated against a witness `w`. Every child id is in range and not
      the root; every listing of a child points at its witnessed parent, so every non-root
      node has exactly one parent; no child list repeats an id; depth grows by one along each
      link from the root at depth 0, so the links form no cycle. */
  ghost predicate WellFormed(nodes: seq<TreeNode>, w: Shape) {
    && |nodes| > 0 && |w.depth| == |nodes| && |w.parent| == |nodes|
    && w.depth[0] == 0
    && (forall i :: 0 <= i < |nodes| ==> w.depth[i] < |nodes|)
    && (forall p, j :: 0 <= p < |nodes| && 0 <= j < |nodes[p].children| ==>
          0 < nodes[p].children[j] < |nodes| && w.parent[nodes[p].children[j]] == p)
    && (forall c :: 0 < c < |nodes| ==>
          w.parent[c] < |nodes| && c in nodes[w.parent[c]].children && w.depth[c] == w.depth[w.parent[c]] + 1)
    && (forall p :: 0 <= p < |nodes| ==> NoDup(nodes[p].children))
  }

  predicate NoDup(s: seq<NodeID>) {
    forall i, j :: 0 <= i < j < |s| ==> s[i] != s[j]
  }

  lemma ChildFacts(nodes: seq<TreeNode>, w: Shape, p: NodeID, c: NodeID)
    requires WellFormed(nodes, w) && p < |nodes| && c in nodes[p].children
    ensures 0 < c < |nodes| && ParentOf(nodes, w, c) == p && w.depth[c] == w.depth[p] + 1
  {
    var j :| 0 <= j < |nodes[p].children| && nodes[p].children[j] == c;
  }

  /** The nodes of `s` are in range and at depth `k` or deeper. */
  ghost predicate Below(nodes: seq<TreeNode>, w: Shape, s: seq<NodeID>, k: nat)
    requires |w.depth| == |nodes|
  {
    forall i :: 0 <= i < |s| ==> s[i] < |nodes| && w.depth[s[i]] >= k
  }

  lemma ChildrenBelow(nodes: seq<TreeNode>, w: Shape, x: NodeID)
    requires WellFormed(nodes, w) && x < |nodes|
    ensures w.depth[x] + 1 <= |nodes|
    ensures Below(nodes, w, nodes[x].children, w.depth[x] + 1)
    ensures forall i :: 0 <= i < |nodes[x].children| ==>
              w.depth[nodes[x].children[i]] == w.depth[x] + 1 && ParentOf(nodes, w, nodes[x].children[i]) == x
  {
    if nodes[x].children != [] {
      ChildFacts(nodes, w, x, nodes[x].children[0]);
    }
  }

  /** The parent of a non-root node: the one node whose child list holds it. */
  ghost function ParentOf(nodes: seq<TreeNode>, w: Shape, c: NodeID): (p: NodeID)
    requires WellFormed(nodes, w) && 0 < c < |nodes|
    ensures p < |nodes| && c in nodes[p].children && w.depth[c] == w.depth[p] + 1
  {
    w.parent[c]
  }

  /** The ancestors of `c` from its parent up to the root. */
  ghost function AncestorsSpec(nodes: seq<TreeNode>, w: Shape, c: NodeID): (r: seq<NodeID>)
    requires WellFormed(nodes, w) && c < |nodes|
    ensures forall i :: 0 <= i < |r| ==> r[i] < |nodes| && w.depth[r[i]] < w.depth[c]
    decreases w.depth[c]
  {
    if c == 0 then [] else
      var p := ParentOf(nodes, w, c);
      [p] + AncestorsSpec(nodes, w, p)
  }

  /** `x` is `y` or one of its ancestors: `y` lies in the subtree of `x`. */
  ghost predicate InSubtree(nodes: seq<TreeNode>, w: Shape, x: NodeID, y: NodeID)
    requires WellFormed(nodes, w) && y < |nodes|
  {
    y == x || x in AncestorsSpec(nodes, w, y)
  }

  predicate IsLeaf(nodes: seq<TreeNode>, y: NodeID) {
    y < |nodes| && nodes[y].children == []
  }

  // ---------------------------------------------------------------------------------------
  // The leaves of a subtree, in the order the explicit-stack traversal finds them
  // ---------------------------------------------------------------------------------------

  /** The leaves under `x`. The traversal pops the last child first, so the children's
      subtrees are listed from the last child to the first. */
  ghost function LeafSpec(nodes: seq<TreeNode>, w: Shape, x: NodeID): (r: seq<NodeID>)
    requires WellFormed(nodes, w) && x < |nodes|
    ensures forall i :: 0 <= i < |r| ==> IsLeaf(nodes, r[i])
    decreases |nodes| - w.depth[x], 0, 0
  {
    if nodes[x].children == [] then [x]
    else
      ChildrenBelow(nodes, w, x);
      Forest(nodes, w, nodes[x].children, w.depth[x] + 1)
  }

  /** The leaves under the nodes of `s`, taken from the last of `s` to the first, as a stack
      holding `s` yields them. `k` bounds the depths in `s` from below. */
  ghost function Forest(nodes: seq<TreeNode>, w: Shape, s: seq<NodeID>, k: nat): (r: seq<NodeID>)
    requires WellFormed(nodes, w) && k <= |nodes|
    requires Below(nodes, w, s, k)
    ensures forall i :: 0 <= i < |r| ==> IsLeaf(nodes, r[i])
    decreases |nodes| - k, 1, |s|
  {
    if s == [] then []
    else LeafSpec(nodes, w, s[|s| - 1]) + Forest(nodes, w, s[..|s| - 1], k)
  }

  /** The number of nodes in the subtree of `x`: the traversal's termination measure. */
  ghost function Weight(nodes: seq<TreeNode>, w: Shape, x: NodeID): nat
    requires WellFormed(nodes, w) && x < |nodes|
    decreases |nodes| - w.depth[x], 0, 0
  {
    ChildrenBelow(nodes, w, x);
    1 + ForestWeight(nodes, w, nodes[x].children, w.depth[x] + 1)
  }

  ghost function ForestWeight(nodes: seq<TreeNode>, w: Shape, s: seq<NodeID>, k: nat): nat
    requires WellFormed(nodes, w) && k <= |nodes|
    requires Below(nodes, w, s, k)
    decreases |nodes| - k, 1, |s|
  {
    if s == [] then 0
    else Weight(nodes, w, s[|s| - 1]) + ForestWeight(nodes, w, s[..|s| - 1], k)
  }

  /** The depth bound `k` only serves termination; it does not change the result. */
  lemma {:induction false} ForestAnyBound(nodes: seq<TreeNode>, w: Shape, s: seq<NodeID>, k: nat, k': nat)
    requires WellFormed(nodes, w) && k <= |nodes| && k' <= |nodes|
    requires Below(nodes, w, s, k) && Below(nodes, w, s, k')
    ensures Forest(nodes, w, s, k) == Forest(nodes, w, s, k')
    ensures ForestWeight(nodes, w, s, k) == ForestWeight(nodes, w, s, k')
    decreases |s|
  {
    if s != [] {
      ForestAnyBound(nodes, w, s[..|s| - 1], k, k');
    }
  }

  /** Pushing `t` onto a stack `s` puts the leaves under `t` first. */
  lemma {:induction false} ForestAppend(nodes: seq<TreeNode>, w: Shape, s: seq<NodeID>, t: seq<NodeID>, k: nat)
    requires WellFormed(nodes, w) && k <= |nodes|
    requires Below(nodes, w, s, k) && Below(nodes, w, t, k)
    ensures Forest(nodes, w, s + t, k) == Forest(nodes, w, t, k) + Forest(nodes, w, s, k)
    ensures ForestWeight(nodes, w, s + t, k) == ForestWeight(nodes, w, t, k) + ForestWeight(nodes, w, s, k)
    decreases |t|
  {
    if t == [] {
      assert s + t == s;
    } else {
      var u := s + t;
      assert u[..|u| - 1] == s + t[..|t| - 1];
      assert u[|u| - 1] == t[|t| - 1];
      ForestAppend(nodes, w, s, t[..|t| - 1], k);
    }
  }

  /** A leaf belongs to the forest exactly when it belongs to the subtree of one member. */
  lemma {:induction false} ForestMembers(nodes: seq<TreeNode>, w: Shape, s: seq<NodeID>, k: nat, y: NodeID)
    requires WellFormed(nodes, w) && k <= |nodes|
    requires Below(nodes, w, s, k)
    ensures y in Forest(nodes, w, s, k) <==> exists i :: 0 <= i < |s| && y in LeafSpec(nodes, w, s[i])
    decreases |s|
  {
    if s != [] {
      var s' := s[..|s| - 1];
      ForestMembers(nodes, w, s', k, y);
      if y in Forest(nodes, w, s, k) {
        if y in LeafSpec(nodes, w, s[|s| - 1]) {
        } else {
          var i :| 0 <= i < |s'| && y in LeafSpec(nodes, w, s'[i]);
          assert s[i] == s'[i];
        }
      }
      if exists i :: 0 <= i < |s| && y in LeafSpec(nodes, w, s[i]) {
        var i :| 0 <= i < |s| && y in LeafSpec(nodes, w, s[i]);
        if i < |s| - 1 { assert s'[i] == s[i]; }
      }
    }
  }

  /** An ancestor other than the root has its own parent among the ancestors. */
  lemma {:induction false} AncestorsClosed(nodes: seq<TreeNode>, w: Shape, y: NodeID, c: NodeID)
    requires WellFormed(nodes, w) && y < |nodes| && c in AncestorsSpec(nodes, w, y) && c != 0
    ensures c < |nodes| && ParentOf(nodes, w, c) in AncestorsSpec(nodes, w, y)
    decreases w.depth[y]
  {
    var p := ParentOf(nodes, w, y);
    if c != p {
      AncestorsClosed(nodes, w, p, c);
    } else {
      assert AncestorsSpec(nodes, w, p)[0] == ParentOf(nodes, w, c);
    }
  }

  /** Every leaf the traversal lists lies in the subtree of `x`. */
  lemma {:induction false} LeafSpecSound(nodes: seq<TreeNode>, w: Shape, x: NodeID, y: NodeID)
    requires WellFormed(nodes, w) && x < |nodes| && y in LeafSpec(nodes, w, x)
    ensures IsLeaf(nodes, y) && InSubtree(nodes, w, x, y)
    decreases |nodes| - w.depth[x]
  {
    if nodes[x].children != [] {
      var c := LeafUnderChild(nodes, w, x, y);
      LeafSpecSound(nodes, w, c, y);
      SubtreeOfChild(nodes, w, x, c, y);
    }
  }

  /** A leaf listed under an inner node is listed under one of its children. */
  lemma LeafUnderChild(nodes: seq<TreeNode>, w: Shape, x: NodeID, y: NodeID) returns (c: NodeID)
    requires WellFormed(nodes, w) && x < |nodes| && nodes[x].children != [] && y in LeafSpec(nodes, w, x)
    ensures c in nodes[x].children && c < |nodes| && w.depth[c] > w.depth[x] && y in LeafSpec(nodes, w, c)
  {
    var cs := nodes[x].children;
    ForestAnyBound(nodes, w, cs, w.depth[x] + 1, 0) by {
      ChildrenBelow(nodes, w, x);
    }
    ForestMembers(nodes, w, cs, 0, y);
    var i :| 0 <= i < |cs| && y in LeafSpec(nodes, w, cs[i]);
    c := cs[i];
    ChildFacts(nodes, w, x, c);
  }

  /** A node in the subtree of a child of `x` is in the subtree of `x`. */
  lemma SubtreeOfChild(nodes: seq<TreeNode>, w: Shape, x: NodeID, c: NodeID, y: NodeID)
    requires WellFormed(nodes, w) && x < |nodes| && c in nodes[x].children && y < |nodes|
    requires c < |nodes| && InSubtree(nodes, w, c, y)
    ensures InSubtree(nodes, w, x, y)
  {
    ChildFacts(nodes, w, x, c);
    if y == c {
      assert AncestorsSpec(nodes, w, y)[0] == x;
    } else {
      AncestorsClosed(nodes, w, y, c);
    }
  }

  /** The leaves under a child are among the leaves under its parent. */
  lemma ChildLeavesIncluded(nodes: seq<TreeNode>, w: Shape, x: NodeID, c: NodeID, y: NodeID)
    requires WellFormed(nodes, w) && x < |nodes| && c in nodes[x].children
    requires y in LeafSpec(nodes, w, c)
    ensures y in LeafSpec(nodes, w, x)
  {
    var cs := nodes[x].children;
    ForestAnyBound(nodes, w, cs, w.depth[x] + 1, 0) by {
      ChildrenBelow(nodes, w, x);
    }
    var i :| 0 <= i < |cs| && cs[i] == c;
    ForestMembers(nodes, w, cs, 0, y);
  }

  /** The subtree of a node reached through its ancestor chain is nested in the subtree of
      that ancestor. */
  lemma {:induction false} SubtreeNested(nodes: seq<TreeNode>, w: Shape, x: NodeID, z: NodeID, y: NodeID)
    requires WellFormed(nodes, w) && x < |nodes| && z < |nodes| && InSubtree(nodes, w, x, z)
    requires y in LeafSpec(nodes, w, z)
    ensures y in LeafSpec(nodes, w, x)
    decreases w.depth[z]
  {
    if z != x {
      var p := ParentOf(nodes, w, z);
      ChildLeavesIncluded(nodes, w, p, z, y);
      SubtreeNested(nodes, w, x, p, y);
    }
  }

  /** Every leaf of the subtree of `x` is listed. */
  lemma LeafSpecComplete(nodes: seq<TreeNode>, w: Shape, x: NodeID, y: NodeID)
    requires WellFormed(nodes, w) && x < |nodes| && IsLeaf(nodes, y) && InSubtree(nodes, w, x, y)
    ensures y in LeafSpec(nodes, w, x)
  {
    SubtreeNested(nodes, w, x, y, y);
  }

  /** A node and its ancestors have pairwise different depths, so two of them at the same
      depth are the same node. */
  lemma {:induction false} ChainDepthsDistinct(nodes: seq<TreeNode>, w: Shape, y: NodeID, a: NodeID, b: NodeID)
    requires WellFormed(nodes, w) && y < |nodes|
    requires InSubtree(nodes, w, a, y) && InSubtree(nodes, w, b, y)
    requires a < |nodes| && b < |nodes| && w.depth[a] == w.depth[b]
    ensures a == b
    decreases w.depth[y]
  {
    if a != y && b != y {
      var p := ParentOf(nodes, w, y);
      ChainDepthsDistinct(nodes, w, p, a, b);
    }
  }

  /** The traversal lists no leaf twice. */
  lemma {:induction false} LeafSpecDistinct(nodes: seq<TreeNode>, w: Shape, x: NodeID)
    requires WellFormed(nodes, w) && x < |nodes|
    ensures NoDup(LeafSpec(nodes, w, x))
    decreases |nodes| - w.depth[x], 0, 0
  {
    if nodes[x].children != [] {
      var cs := nodes[x].children;
      ChildrenBelow(nodes, w, x);

      ForestDistinct(nodes, w, cs, w.depth[x] + 1);
    }
  }

  lemma {:induction false} ForestDistinct(nodes: seq<TreeNode>, w: Shape, s: seq<NodeID>, k: nat)
    requires WellFormed(nodes, w) && k <= |nodes|
    requires Below(nodes, w, s, k) && forall i :: 0 <= i < |s| ==> w.depth[s[i]] == k
    requires NoDup(s)
    ensures NoDup(Forest(nodes, w, s, k))
    decreases |nodes| - k, 1, |s|
  {
    if s != [] {
      var last := s[|s| - 1];
      var s' := s[..|s| - 1];
      LeafSpecDistinct(nodes, w, last);
      assert Below(nodes, w, s', k) && NoDup(s') by {
        forall i, j | 0 <= i < j < |s'| ensures s'[i] != s'[j] { assert s'[i] == s[i] && s'[j] == s[j]; }
      }
      ForestDistinct(nodes, w, s', k);
      var a := LeafSpec(nodes, w, last);
      var b := Forest(nodes, w, s', k);
      forall y | y in a && y in b ensures false {
        ForestMembers(nodes, w, s', k, y);
        var i :| 0 <= i < |s'| && y in LeafSpec(nodes, w, s'[i]);
        LeafSpecSound(nodes, w, last, y);
        LeafSpecSound(nodes, w, s'[i], y);
        assert s[i] == s'[i];
        ChainDepthsDistinct(nodes, w, y, last, s'[i]);
      }
      NoDupConcat(a, b);
      assert Forest(nodes, w, s, k) == a + b;
    }
  }

  /** The traversal's result: each leaf of the subtree of `x` exactly once and nothing else;
      a leaf yields itself alone. */
  lemma LeafSpecExact(nodes: seq<TreeNode>, w: Shape, x: NodeID)
    requires WellFormed(nodes, w) && x < |nodes|
    ensures forall y: NodeID :: y in LeafSpec(nodes, w, x) <==> y < |nodes| && IsLeaf(nodes, y) && InSubtree(nodes, w, x, y)
    ensures NoDup(LeafSpec(nodes, w, x))
    ensures IsLeaf(nodes, x) ==> LeafSpec(nodes, w, x) == [x]
  {
    forall y | y in LeafSpec(nodes, w, x)
      ensures y < |nodes| && IsLeaf(nodes, y) && InSubtree(nodes, w, x, y)
    {
      LeafSpecSound(nodes, w, x, y);
    }
    forall y: NodeID | y < |nodes| && IsLeaf(nodes, y) && InSubtree(nodes, w, x, y)
      ensures y in LeafSpec(nodes, w, x)
    {
      LeafSpecComplete(nodes, w, x, y);
    }
    LeafSpecDistinct(nodes, w, x);
  }

  // ---------------------------------------------------------------------------------------
  // Ancestor chains
  // ---------------------------------------------------------------------------------------

  /** The ancestor list of `c`: not `c` itself, its parent first, each entry followed by its
      own parent, the root last, and as long as the depth of `c`. */
  lemma {:induction false} AncestorsShape(nodes: seq<TreeNode>, w: Shape, c: NodeID)
    requires WellFormed(nodes, w) && c < |nodes|
    ensures c !in AncestorsSpec(nodes, w, c)
    ensures |AncestorsSpec(nodes, w, c)| == w.depth[c]
    ensures c == 0 ==> AncestorsSpec(nodes, w, c) == []
    ensures c > 0 ==> AncestorsSpec(nodes, w, c)[0] == ParentOf(nodes, w, c)
    ensures c > 0 ==> AncestorsSpec(nodes, w, c)[|AncestorsSpec(nodes, w, c)| - 1] == 0
    ensures forall i :: 0 <= i < |AncestorsSpec(nodes, w, c)| - 1 ==>
              0 < AncestorsSpec(nodes, w, c)[i] &&
              AncestorsSpec(nodes, w, c)[i + 1] == ParentOf(nodes, w, AncestorsSpec(nodes, w, c)[i])
    decreases w.depth[c]
  {
    if c > 0 {
      var p := ParentOf(nodes, w, c);
      AncestorsShape(nodes, w, p);
      var a := AncestorsSpec(nodes, w, p);
      if p == 0 {
        assert AncestorsSpec(nodes, w, c) == [0];
      } else {
        assert a[0] == ParentOf(nodes, w, p);
      }
    } else {
      assert w.depth[c] == 0;
    }
  }

  // ---------------------------------------------------------------------------------------
  // Queries
  // ---------------------------------------------------------------------------------------

  /** `Tree.Size`: zero for a nil tree. */
  function Size(t: Option<Tree>): nat {
    if t.None? then 0 else |t.value.nodes|
  }

  /** `Tree.IsEmpty`: true for a nil tree. */
  predicate IsEmpty(t: Option<Tree>) {
    if t.None? then true else |t.value.nodes| == 0
  }

  lemma EmptyIffSizeZero(t: Option<Tree>)
    ensures IsEmpty(t) <==> Size(t) == 0
    ensures t.None? ==> IsEmpty(t) && Size(t) == 0
  {
  }

  /** The id-taking queries succeed exactly on a non-nil tree and an id below its size. */
  predicate Addressable(t: Option<Tree>, id: NodeID) {
    t.Some? && id < |t.value.nodes|
  }

  /** The error an id-taking query reports when `id` is not addressable. */
  function AddressError(t: Option<Tree>, id: NodeID): Error {
    if t.None? then TreeNil else InvalidNodeID(id)
  }

  /** `Tree.Root`: fails on a nil or node-less tree, and otherwise gives node 0's element. */
  function Root(t: Option<Tree>): (r: Result<Element, Error>)
    ensures r.Failure? <==> IsEmpty(t)
    ensures r.Failure? ==> r.error == (if t.None? then TreeNil else TreeEmpty)
    ensures r.Success? ==> r.value == t.value.nodes[0].data
  {
    if t.None? then Failure(TreeNil)
    else if |t.value.nodes| == 0 then Failure(TreeEmpty)
    else Success(t.value.nodes[0].data)
  }

  /** `Tree.Get`. */
  function Get(t: Option<Tree>, id: NodeID): (r: Result<Element, Error>)
    ensures r.Failure? <==> !Addressable(t, id)
    ensures r.Failure? ==> r.error == AddressError(t, id)
    ensures r.Success? ==> r.value == t.value.nodes[id].data
  {
    if t.None? then Failure(TreeNil)
    else if id >= |t.value.nodes| then Failure(InvalidNodeID(id))
    else Success(t.value.nodes[id].data)
  }

  /** `Tree.ImmediateDescendantIDs`: the stored child list, unchanged. */
  function ImmediateDescendantIDs(t: Option<Tree>, id: NodeID): (r: Result<seq<NodeID>, Error>)
    ensures r.Failure? <==> !Addressable(t, id)
    ensures r.Failure? ==> r.error == AddressError(t, id)
    ensures r.Success? ==> r.value == t.value.nodes[id].children
  {
    if t.None? then Failure(TreeNil)
    else if id >= |t.value.nodes| then Failure(InvalidNodeID(id))
    else Success(t.value.nodes[id].children)
  }

  /** The elements of the nodes `ids`, in the same order. */
  function ElementsOf(nodes: seq<TreeNode>, ids: seq<NodeID>): (r: seq<Element>)
    requires forall i :: 0 <= i < |ids| ==> ids[i] < |nodes|
    ensures |r| == |ids|
  {
    seq(|ids|, i requires 0 <= i < |ids| => nodes[ids[i]].data)
  }

  /** The children of `id` are in range, as indexing them demands (a valid tree has this). */
  predicate ChildrenAddressable(t: Option<Tree>, id: NodeID) {
    Addressable(t, id) ==>
      forall j :: 0 <= j < |t.value.nodes[id].children| ==> t.value.nodes[id].children[j] < |t.value.nodes|
  }

  /** `Tree.ImmediateDescendants`: the children's elements, in the stored child order. */
  method ImmediateDescendants(t: Option<Tree>, id: NodeID) returns (r: Result<seq<Element>, Error>)
    requires ChildrenAddressable(t, id)
    ensures r.Failure? <==> !Addressable(t, id)
    ensures r.Failure? ==> r.error == AddressError(t, id)
    ensures r.Success? ==> r.value == ElementsOf(t.value.nodes, t.value.nodes[id].children)
  {
    if t.None? {
      return Failure(TreeNil);
    }
    var nodes := t.value.nodes;
    if id >= |nodes| {
      return Failure(InvalidNodeID(id));
    }
    var cs := nodes[id].children;
    var children: seq<Element> := [];
    for i := 0 to |cs|
      invariant children == ElementsOf(nodes, cs[..i])
    {
      children := children + [nodes[cs[i]].data];
    }
    assert cs[..|cs|] == cs;
    return Success(children);
  }

  /** One step of the traversal: popping `last` and pushing its children `cs` keeps the
      leaves still to come equal, and lowers the weight of the stack by one. */
  lemma ExpandStep(nodes: seq<TreeNode>, w: Shape, rest: seq<NodeID>, last: NodeID)
    requires WellFormed(nodes, w) && last < |nodes| && nodes[last].children != []
    requires Below(nodes, w, rest, 0)
    ensures Below(nodes, w, rest + nodes[last].children, 0)
    ensures Forest(nodes, w, rest + nodes[last].children, 0) == Forest(nodes, w, rest + [last], 0)
    ensures ForestWeight(nodes, w, rest + nodes[last].children, 0) < ForestWeight(nodes, w, rest + [last], 0)
  {
    var cs := nodes[last].children;
    InnerNode(nodes, w, last);
    BelowAppend(nodes, w, rest, cs, 0);
    ForestAppend(nodes, w, rest, cs, 0);
    PopStep(nodes, w, rest, last);
  }

  /** An inner node's leaves and weight are those of its children's forest. */
  lemma InnerNode(nodes: seq<TreeNode>, w: Shape, x: NodeID)
    requires WellFormed(nodes, w) && x < |nodes| && nodes[x].children != []
    ensures Below(nodes, w, nodes[x].children, 0)
    ensures LeafSpec(nodes, w, x) == Forest(nodes, w, nodes[x].children, 0)
    ensures Weight(nodes, w, x) == 1 + ForestWeight(nodes, w, nodes[x].children, 0)
  {
    ChildrenBelow(nodes, w, x);
    ForestAnyBound(nodes, w, nodes[x].children, w.depth[x] + 1, 0);
  }

  lemma BelowAppend(nodes: seq<TreeNode>, w: Shape, s: seq<NodeID>, t: seq<NodeID>, k: nat)
    requires |w.depth| == |nodes| && Below(nodes, w, s, k) && Below(nodes, w, t, k)
    ensures Below(nodes, w, s + t, k)
  {
    forall i | 0 <= i < |s + t| ensures (s + t)[i] < |nodes| && w.depth[(s + t)[i]] >= k {
      if i >= |s| { assert (s + t)[i] == t[i - |s|]; }
    }
  }

  /** Two duplicate-free lists with no common member concatenate to a duplicate-free list. */
  lemma NoDupConcat(a: seq<NodeID>, b: seq<NodeID>)
    requires NoDup(a) && NoDup(b) && forall y :: y in a ==> y !in b
    ensures NoDup(a + b)
  {
    forall i, j | 0 <= i < j < |a + b| ensures (a + b)[i] != (a + b)[j] {
      if j < |a| {
        assert (a + b)[i] == a[i] && (a + b)[j] == a[j];
      } else if i >= |a| {
        assert (a + b)[i] == b[i - |a|] && (a + b)[j] == b[j - |a|];
      } else {
        assert (a + b)[i] == a[i] && (a + b)[j] == b[j - |a|];
        assert a[i] in a && b[j - |a|] in b;
      }
    }
  }

  lemma PopStep(nodes: seq<TreeNode>, w: Shape, rest: seq<NodeID>, last: NodeID)
    requires WellFormed(nodes, w) && last < |nodes|
    requires Below(nodes, w, rest, 0)
    ensures Forest(nodes, w, rest + [last], 0) == LeafSpec(nodes, w, last) + Forest(nodes, w, rest, 0)
    ensures ForestWeight(nodes, w, rest + [last], 0) == Weight(nodes, w, last) + ForestWeight(nodes, w, rest, 0)
  {
    var s := rest + [last];
    assert s[..|s| - 1] == rest;
  }

  /** The walk's inner loop: push the children onto the stack one by one, first child first. */
  method PushAll(stack: seq<NodeID>, cs: seq<NodeID>) returns (s: seq<NodeID>)
    ensures s == stack + cs
  {
    s := stack;
    for j := 0 to |cs|
      invariant s == stack + cs[..j]
    {
      s := s + [cs[j]];
    }
    assert cs[..|cs|] == cs;
  }

  lemma ElementsOfAppend(nodes: seq<TreeNode>, ids: seq<NodeID>, last: NodeID)
    requires forall i :: 0 <= i < |ids| ==> ids[i] < |nodes|
    requires last < |nodes|
    ensures ElementsOf(nodes, ids + [last]) == ElementsOf(nodes, ids) + [nodes[last].data]
  {
  }

  /** `Tree.LeafDescendantIDs`: a depth-first walk over an explicit stack of ids. */
  method LeafDescendantIDs(t: Option<Tree>, id: NodeID, ghost w: Shape) returns (r: Result<seq<NodeID>, Error>)
    requires Addressable(t, id) ==> WellFormed(t.value.nodes, w)
    ensures r.Failure? <==> !Addressable(t, id)
    ensures r.Failure? ==> r.error == AddressError(t, id)
    ensures r.Success? ==> r.value == LeafSpec(t.value.nodes, w, id)
  {
    if t.None? {
      return Failure(TreeNil);
    }
    var nodes := t.value.nodes;
    if id >= |nodes| {
      return Failure(InvalidNodeID(id));
    }
    var leafIDs: seq<NodeID> := [];
    var stack: seq<NodeID> := [id];
    assert Forest(nodes, w, stack, 0) == LeafSpec(nodes, w, id) by { PopStep(nodes, w, [], id); }
    while |stack| > 0
      invariant Below(nodes, w, stack, 0)
      invariant leafIDs + Forest(nodes, w, stack, 0) == LeafSpec(nodes, w, id)
      decreases ForestWeight(nodes, w, stack, 0)
    {
      ghost var before := stack;
      var last := stack[|stack| - 1];
      stack := stack[..|stack| - 1];
      assert before == stack + [last];
      if |nodes[last].children| > 0 {
        var cs := nodes[last].children;
        ExpandStep(nodes, w, stack, last);
        stack := PushAll(stack, cs);
      } else {
        PopStep(nodes, w, stack, last);
        leafIDs := leafIDs + [last];
      }
    }
    return Success(leafIDs);
  }

  /** `Tree.LeafDescendants`: the same walk over a stack of nodes, collecting their elements.
      A pointer into the node list is represented by the node's index. */
  method LeafDescendants(t: Option<Tree>, id: NodeID, ghost w: Shape) returns (r: Result<seq<Element>, Error>)
    requires Addressable(t, id) ==> WellFormed(t.value.nodes, w)
    ensures r.Failure? <==> !Addressable(t, id)
    ensures r.Failure? ==> r.error == AddressError(t, id)
    ensures r.Success? ==> r.value == ElementsOf(t.value.nodes, LeafSpec(t.value.nodes, w, id))
  {
    if t.None? {
      return Failure(TreeNil);
    }
    var nodes := t.value.nodes;
    if id >= |nodes| {
      return Failure(InvalidNodeID(id));
    }
    var leaves: seq<Element> := [];
    ghost var leafIDs: seq<NodeID> := [];
    var stack: seq<NodeID> := [id];
    assert Forest(nodes, w, stack, 0) == LeafSpec(nodes, w, id) by { PopStep(nodes, w, [], id); }
    while |stack| > 0
      invariant Below(nodes, w, stack, 0)
      invariant leafIDs + Forest(nodes, w, stack, 0) == LeafSpec(nodes, w, id)
      invariant forall i :: 0 <= i < |leafIDs| ==> leafIDs[i] < |nodes|
      invariant leaves == ElementsOf(nodes, leafIDs)
      decreases ForestWeight(nodes, w, stack, 0)
    {
      ghost var before := stack;
      var last := stack[|stack| - 1];
      stack := stack[..|stack| - 1];
      assert before == stack + [last];
      if |nodes[last].children| > 0 {
        var cs := nodes[last].children;
        ExpandStep(nodes, w, stack, last);
        stack := PushAll(stack, cs);
      } else {
        PopStep(nodes, w, stack, last);
        ElementsOfAppend(nodes, leafIDs, last);
        leafIDs := leafIDs + [last];
        leaves := leaves + [nodes[last].data];
      }
    }
    return Success(leaves);
  }

  // ---------------------------------------------------------------------------------------
  // Parent search
  // ---------------------------------------------------------------------------------------

  /** Some node lists `id` as a child. */
  predicate HasParent(nodes: seq<TreeNode>, id: NodeID) {
    exists p :: 0 <= p < |nodes| && id in nodes[p].children
  }

  /** The lowest-index node from `from` on that lists `id` among its children: the node a scan
      of the node list in index order meets first. */
  function FirstParent(nodes: seq<TreeNode>, id: NodeID, from: nat): (q: NodeID)
    requires exists p :: from <= p < |nodes| && id in nodes[p].children
    ensures from <= q < |nodes| && id in nodes[q].children
    ensures forall p :: from <= p < q ==> id !in nodes[p].children
    decreases |nodes| - from
  {
    if id in nodes[from].children then from else FirstParent(nodes, id, from + 1)
  }

  /** In a valid tree the first node listing `c` is its one parent. */
  lemma FirstParentIsParent(nodes: seq<TreeNode>, w: Shape, c: NodeID)
    requires WellFormed(nodes, w) && 0 < c < |nodes|
    ensures HasParent(nodes, c)
    ensures FirstParent(nodes, c, 0) == ParentOf(nodes, w, c)
  {
    assert ParentOf(nodes, w, c) < |nodes| && c in nodes[ParentOf(nodes, w, c)].children;
    var q := FirstParent(nodes, c, 0);
    ChildFacts(nodes, w, q, c);
  }

  /** The id-taking queries that need a parent: `id` addressable and not the root. */
  predicate NonRoot(t: Option<Tree>, id: NodeID) {
    Addressable(t, id) && id != 0
  }

  /** The error of the parent queries when `id` has no parent to look for. */
  function ParentError(t: Option<Tree>, id: NodeID): Error
    requires !NonRoot(t, id)
  {
    if !Addressable(t, id) then AddressError(t, id) else NoParent
  }

  /** `Tree.ParentID`: scans the nodes in index order for the first one listing `id`. */
  method ParentID(t: Option<Tree>, id: NodeID) returns (r: Result<NodeID, Error>)
    requires NonRoot(t, id) ==> HasParent(t.value.nodes, id)
    ensures r.Failure? <==> !NonRoot(t, id)
    ensures r.Failure? ==> r.error == ParentError(t, id)
    ensures r.Success? ==> r.value == FirstParent(t.value.nodes, id, 0)
  {
    if t.None? {
      return Failure(TreeNil);
    }
    var nodes := t.value.nodes;
    if id >= |nodes| {
      return Failure(InvalidNodeID(id));
    }
    if id == 0 {
      return Failure(NoParent);
    }
    for p := 0 to |nodes|
      invariant forall q :: 0 <= q < p ==> id !in nodes[q].children
    {
      var cs := nodes[p].children;
      for j := 0 to |cs|
        invariant forall k :: 0 <= k < j ==> cs[k] != id
      {
        if id == cs[j] {
          return Success(p);
        }
      }
    }
    assert false;
    return Failure(NoParent);
  }

  /** `Tree.Parent`: the element of the node `ParentID` finds. */
  method Parent(t: Option<Tree>, id: NodeID) returns (r: Result<Element, Error>)
    requires NonRoot(t, id) ==> HasParent(t.value.nodes, id)
    ensures r.Failure? <==> !NonRoot(t, id)
    ensures r.Failure? ==> r.error == ParentError(t, id)
    ensures r.Success? ==> r.value == t.value.nodes[FirstParent(t.value.nodes, id, 0)].data
  {
    if t.None? {
      return Failure(TreeNil);
    }
    var nodes := t.value.nodes;
    if id >= |nodes| {
      return Failure(InvalidNodeID(id));
    }
    if id == 0 {
      return Failure(NoParent);
    }
    for p := 0 to |nodes|
      invariant forall q :: 0 <= q < p ==> id !in nodes[q].children
    {
      var cs := nodes[p].children;
      for j := 0 to |cs|
        invariant forall k :: 0 <= k < j ==> cs[k] != id
      {
        if id == cs[j] {
          return Success(nodes[p].data);
        }
      }
    }
    assert false;
    return Failure(NoParent);
  }

  // ---------------------------------------------------------------------------------------
  // Ancestor walk
  // ---------------------------------------------------------------------------------------

  /** The parent table both ancestor queries rebuild: every child listing writes the listing
      node's id into the child's slot; the root's slot keeps its zero. */
  method ParentTable(nodes: seq<TreeNode>, ghost w: Shape) returns (table: seq<NodeID>)
    requires WellFormed(nodes, w)
    ensures |table| == |nodes| && table[0] == 0
    ensures forall c :: 0 < c < |nodes| ==> table[c] == ParentOf(nodes, w, c)
  {
    var all := new NodeID[|nodes|](_ => 0);
    for p := 0 to |nodes|
      invariant forall c :: 0 <= c < |nodes| ==>
                  all[c] == (if 0 < c && w.parent[c] < p then w.parent[c] else 0)
    {
      var cs := nodes[p].children;
      for j := 0 to |cs|
        invariant forall c :: 0 <= c < |nodes| ==>
                    all[c] == (if 0 < c && (w.parent[c] < p || (w.parent[c] == p && c in cs[..j])) then w.parent[c] else 0)
      {
        ChildFacts(nodes, w, p, cs[j]);
        assert cs[..j + 1] == cs[..j] + [cs[j]];
        all[cs[j]] := p;
      }
      assert cs[..|cs|] == cs;
    }
    table := all[..];
  }

  /** `Tree.AncestorIDs`: the parent chain of `id` read off the parent table. */
  method AncestorIDs(t: Option<Tree>, id: NodeID, ghost w: Shape) returns (r: Result<seq<NodeID>, Error>)
    requires Addressable(t, id) ==> WellFormed(t.value.nodes, w)
    ensures r.Failure? <==> !Addressable(t, id)
    ensures r.Failure? ==> r.error == AddressError(t, id)
    ensures r.Success? ==> r.value == AncestorsSpec(t.value.nodes, w, id)
  {
    if t.None? {
      return Failure(TreeNil);
    }
    var nodes := t.value.nodes;
    if id >= |nodes| {
      return Failure(InvalidNodeID(id));
    }
    var table := ParentTable(nodes, w);
    var ancestorIDs: seq<NodeID> := [];
    var cur: NodeID := id;
    while cur != 0
      invariant cur < |nodes|
      invariant ancestorIDs + AncestorsSpec(nodes, w, cur) == AncestorsSpec(nodes, w, id)
      decreases w.depth[cur]
    {
      ancestorIDs := ancestorIDs + [table[cur]];
      cur := table[cur];
    }
    return Success(ancestorIDs);
  }

  /** `Tree.Ancestors`: the elements along the same chain. */
  method Ancestors(t: Option<Tree>, id: NodeID, ghost w: Shape) returns (r: Result<seq<Element>, Error>)
    requires Addressable(t, id) ==> WellFormed(t.value.nodes, w)
    ensures r.Failure? <==> !Addressable(t, id)
    ensures r.Failure? ==> r.error == AddressError(t, id)
    ensures r.Success? ==> r.value == ElementsOf(t.value.nodes, AncestorsSpec(t.value.nodes, w, id))
  {
    if t.None? {
      return Failure(TreeNil);
    }
    var nodes := t.value.nodes;
    if id >= |nodes| {
      return Failure(InvalidNodeID(id));
    }
    var table := ParentTable(nodes, w);
    var ancestors: seq<Element> := [];
    ghost var ids: seq<NodeID> := [];
    var cur: NodeID := id;
    while cur != 0
      invariant cur < |nodes|
      invariant ids + AncestorsSpec(nodes, w, cur) == AncestorsSpec(nodes, w, id)
      invariant forall i :: 0 <= i < |ids| ==> ids[i] < |nodes|
      invariant ancestors == ElementsOf(nodes, ids)
      decreases w.depth[cur]
    {
      ancestors := ancestors + [nodes[table[cur]].data];
      ids := ids + [table[cur]];
      cur := table[cur];
    }
    return Success(ancestors);
  }
}
