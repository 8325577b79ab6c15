/** The topology of one machine (topology.go): a transparent wrapper around a `*Tree` with
    filters that list the ids of the processing elements of one kind or the caches of one
    level, and a JSON form that is the wrapped tree's. The filters read `t.Nodes` through the
    embedded pointer, so they demand a non-nil tree. */
module Topologies {

  import opened Wrappers
  import opened Errors
  import opened JsonValues
  import opened Elements
  import opened Trees
  import opened TreeJson

  datatype Topology = Topology(tree: Option<Tree>)

  /** What a filter keeps: processing elements of one kind, or caches of one level. */
  datatype Selector = ByKind(kind: ProcessingKind) | ByLevel(level: CacheLevel)

  predicate Selects(e: Element, sel: Selector) {
    match sel
    case ByKind(k) => IsProcessing(e) && e.processing.value.kind == k
    case ByLevel(l) => IsCache(e) && e.cache.value.level == l
  }

  /** The ids below `n` whose element the selector keeps, in the order a scan meets them. */
  function Selected(nodes: seq<TreeNode>, sel: Selector, n: nat): seq<NodeID>
    requires n <= |nodes|
  {
    if n == 0 then []
    else Selected(nodes, sel, n - 1) + (if Selects(nodes[n - 1].data, sel) then [n - 1] else [])
  }

  /** The ids a filter returns on the whole node list. */
  function Filter(t: Topology, sel: Selector): seq<NodeID>
    requires t.tree.Some?
  {
    Selected(t.tree.value.nodes, sel, |t.tree.value.nodes|)
  }

  // ---------------------------------------------------------------------------------------
  // What a filter returns
  // ---------------------------------------------------------------------------------------

  /** Exactly the ids below `n` whose element the selector keeps. */
  lemma {:induction false} SelectedExact(nodes: seq<TreeNode>, sel: Selector, n: nat)
    requires n <= |nodes|
    ensures forall id: NodeID :: id in Selected(nodes, sel, n) <==> id < n && Selects(nodes[id].data, sel)
  {
    if n > 0 {
      SelectedExact(nodes, sel, n - 1);
    }
  }

  /** Strictly ascending and below `n`. */
  lemma {:induction false} SelectedAscending(nodes: seq<TreeNode>, sel: Selector, n: nat)
    requires n <= |nodes|
    ensures forall i :: 0 <= i < |Selected(nodes, sel, n)| ==> Selected(nodes, sel, n)[i] < n
    ensures forall i, j :: 0 <= i < j < |Selected(nodes, sel, n)| ==>
              Selected(nodes, sel, n)[i] < Selected(nodes, sel, n)[j]
  {
    if n > 0 {
      SelectedAscending(nodes, sel, n - 1);
    }
  }

  /** Nothing kept means an empty list, not an error. */
  lemma {:induction false} SelectedEmpty(nodes: seq<TreeNode>, sel: Selector, n: nat)
    requires n <= |nodes|
    requires forall id :: 0 <= id < n ==> !Selects(nodes[id].data, sel)
    ensures Selected(nodes, sel, n) == []
  {
    if n > 0 {
      SelectedEmpty(nodes, sel, n - 1);
    }
  }

  /** Two different selectors never keep the same element, and neither keeps a root. */
  lemma SelectorsDisjoint(e: Element, a: Selector, b: Selector)
    requires a != b && Selects(e, a)
    ensures !Selects(e, b) && !IsRoot(e)
  {
  }

  /** So the lists of two different filters share no id, and no filter lists a root. */
  lemma FiltersDisjoint(t: Topology, a: Selector, b: Selector, id: NodeID)
    requires t.tree.Some? && a != b
    ensures !(id in Filter(t, a) && id in Filter(t, b))
    ensures id in Filter(t, a) ==> id < |t.tree.value.nodes| && !IsRoot(t.tree.value.nodes[id].data)
  {
    var nodes := t.tree.value.nodes;
    SelectedExact(nodes, a, |nodes|);
    SelectedExact(nodes, b, |nodes|);
    if id in Filter(t, a) {
      SelectorsDisjoint(nodes[id].data, a, b);
    }
  }

  // ---------------------------------------------------------------------------------------
  // The filters
  // ---------------------------------------------------------------------------------------

  /** `Topology.getAllProcessingKind`. */
  method GetAllProcessingKind(t: Topology, kind: ProcessingKind) returns (ret: seq<NodeID>)
    requires t.tree.Some?
    ensures ret == Filter(t, ByKind(kind))
  {
    var nodes := t.tree.value.nodes;
    ret := [];
    for id := 0 to |nodes|
      invariant ret == Selected(nodes, ByKind(kind), id)
    {
      if IsProcessing(nodes[id].data) && nodes[id].data.processing.value.kind == kind {
        ret := ret + [id];
      }
    }
  }

  /** `Topology.getAllCacheLevel`. */
  method GetAllCacheLevel(t: Topology, level: CacheLevel) returns (ret: seq<NodeID>)
    requires t.tree.Some?
    ensures ret == Filter(t, ByLevel(level))
  {
    var nodes := t.tree.value.nodes;
    ret := [];
    for id := 0 to |nodes|
      invariant ret == Selected(nodes, ByLevel(level), id)
    {
      if IsCache(nodes[id].data) && nodes[id].data.cache.value.level == level {
        ret := ret + [id];
      }
    }
  }

  method Packages(t: Topology) returns (r: seq<NodeID>)
    requires t.tree.Some?
    ensures r == Filter(t, ByKind(Package))
  {
    r := GetAllProcessingKind(t, Package);
  }

  method NUMANodes(t: Topology) returns (r: seq<NodeID>)
    requires t.tree.Some?
    ensures r == Filter(t, ByKind(NUMANode))
  {
    r := GetAllProcessingKind(t, NUMANode);
  }

  method Cores(t: Topology) returns (r: seq<NodeID>)
    requires t.tree.Some?
    ensures r == Filter(t, ByKind(Core))
  {
    r := GetAllProcessingKind(t, Core);
  }

  method Threads(t: Topology) returns (r: seq<NodeID>)
    requires t.tree.Some?
    ensures r == Filter(t, ByKind(Thread))
  {
    r := GetAllProcessingKind(t, Thread);
  }

  method L1Caches(t: Topology) returns (r: seq<NodeID>)
    requires t.tree.Some?
    ensures r == Filter(t, ByLevel(L1))
  {
    r := GetAllCacheLevel(t, L1);
  }

  method L2Caches(t: Topology) returns (r: seq<NodeID>)
    requires t.tree.Some?
    ensures r == Filter(t, ByLevel(L2))
  {
    r := GetAllCacheLevel(t, L2);
  }

  method L3Caches(t: Topology) returns (r: seq<NodeID>)
    requires t.tree.Some?
    ensures r == Filter(t, ByLevel(L3))
  {
    r := GetAllCacheLevel(t, L3);
  }

  method L4Caches(t: Topology) returns (r: seq<NodeID>)
    requires t.tree.Some?
    ensures r == Filter(t, ByLevel(L4))
  {
    r := GetAllCacheLevel(t, L4);
  }

  method L5Caches(t: Topology) returns (r: seq<NodeID>)
    requires t.tree.Some?
    ensures r == Filter(t, ByLevel(L5))
  {
    r := GetAllCacheLevel(t, L5);
  }

  // ---------------------------------------------------------------------------------------
  // JSON form
  // ---------------------------------------------------------------------------------------

  /** `Topology.MarshalJSON`: the encoding of the wrapped tree. */
  function MarshalJSON(t: Topology): (r: Result<Json, Error>)
    ensures t.tree.None? ==> r == Success(JNull)
    ensures r.Failure? <==> t.tree.Some? && exists i :: 0 <= i < |t.tree.value.nodes| && BothSet(t.tree.value.nodes[i].data)
  {
    MarshalTree(t.tree)
  }

  /** `Topology.UnmarshalJSON` as a function of the receiver and the document: on success the
      wrapped tree is the decoded one (nil for `null`); on an error the receiver is kept. */
  function Unmarshal(t: Topology, doc: Option<seq<NodeDoc>>): (r: Outcome<Topology>)
    ensures r.err.None? <==> UnmarshalTree(doc).Success?
    ensures r.err.None? ==> r.value == Topology(UnmarshalTree(doc).value)
    ensures r.err.Some? ==> r.value == t && r.err.value == UnmarshalTree(doc).error
  {
    match UnmarshalTree(doc)
    case Success(tree) => Outcome(Topology(tree), None)
    case Failure(e) => Outcome(t, Some(e))
  }

  /** Round trip: a freshly declared topology (nil tree) decodes a topology with valid
      elements back from any document that reads as its encoding. */
  lemma TopologyRoundTrip(t: Topology, doc: Option<seq<NodeDoc>>)
    requires t.tree.Some? ==> forall i :: 0 <= i < |t.tree.value.nodes| ==> ValidElement(t.tree.value.nodes[i].data)
    requires MarshalJSON(t).Success? && DocumentOf(doc, MarshalJSON(t).value)
    ensures Unmarshal(Topology(None), doc) == Outcome(t, None)
  {
    TreeRoundTrip(t.tree, doc);
  }
}
