/** The JSON form of a tree (the struct tags of `TreeNode` and `Tree` in tree.go): a tree is an
    object whose "nodes" member is the array of its nodes; a node is an object holding its
    element under "data" and, unless it has none, its child ids under "desc". A nil tree is
    `null`. The Go JSON library does the walking; each element goes through the element
    codec. */
module TreeJson {

  import opened Wrappers
  import opened Errors
  import opened JsonValues
  import opened Elements
  import opened Trees

  // ---------------------------------------------------------------------------------------
  // Encoding
  // ---------------------------------------------------------------------------------------

  function IdsJson(ids: seq<NodeID>): (r: seq<Json>)
    ensures |r| == |ids| && forall i :: 0 <= i < |ids| ==> r[i] == JNumber(ids[i])
  {
    seq(|ids|, i requires 0 <= i < |ids| => JNumber(ids[i]))
  }

  /** A node with the already encoded element `data`; `omitempty` drops an empty "desc". */
  function NodeJson(data: Json, children: seq<NodeID>): (r: Json)
    ensures r.JObject? && Lookup(r.members, "data") == Some(data)
    ensures children == [] <==> Lookup(r.members, "desc").None?
    ensures children != [] ==> Lookup(r.members, "desc") == Some(JArray(IdsJson(children)))
  {
    if children == [] then JObject([Member("data", data)])
    else JObject([Member("data", data), Member("desc", JArray(IdsJson(children)))])
  }

  /** The nodes in order; the first element that cannot be encoded stops the encoding with
      its error. */
  function MarshalNodes(nodes: seq<TreeNode>): (r: Result<seq<Json>, Error>)
    ensures r.Failure? <==> exists i :: 0 <= i < |nodes| && BothSet(nodes[i].data)
    ensures r.Failure? ==> r.error == InvalidElement
    ensures r.Success? ==> |r.value| == |nodes|
    ensures r.Success? ==> forall i :: 0 <= i < |nodes| ==>
              r.value[i] == NodeJson(MarshalJSON(nodes[i].data).value, nodes[i].children)
  {
    if nodes == [] then Success([])
    else
      match MarshalJSON(nodes[0].data)
      case Failure(e) => Failure(e)
      case Success(d) =>
        match MarshalNodes(nodes[1..])
        case Failure(e) => Failure(e)
        case Success(rest) => Success([NodeJson(d, nodes[0].children)] + rest)
  }

  /** The encoding of a `*Tree`. */
  function MarshalTree(t: Option<Tree>): (r: Result<Json, Error>)
    ensures t.None? ==> r == Success(JNull)
    ensures t.Some? ==> (r.Failure? <==> exists i :: 0 <= i < |t.value.nodes| && BothSet(t.value.nodes[i].data))
    ensures r.Failure? ==> r.error == InvalidElement
    ensures t.Some? && r.Success? ==>
              r.value == JObject([Member("nodes", JArray(MarshalNodes(t.value.nodes).value))])
  {
    match t
    case None => Success(JNull)
    case Some(tree) =>
      match MarshalNodes(tree.nodes)
      case Failure(e) => Failure(e)
      case Success(items) => Success(JObject([Member("nodes", JArray(items))]))
  }

  // ---------------------------------------------------------------------------------------
  // Decoding
  // ---------------------------------------------------------------------------------------

  /** One node as the JSON library hands it over: the raw text and the decoded value of its
      "data" member (no value on a syntax error), and its "desc" ids (none when absent). */
  datatype NodeDoc = NodeDoc(dataText: string, data: Option<Json>, desc: seq<NodeID>)

  /** The element of one node document, decoded into a freshly allocated (root) element. */
  function DecodeElement(d: NodeDoc): (r: Outcome<Element>)
    ensures r.err.None? ==> ValidElement(r.value)
  {
    Unmarshal(Machine, d.dataText, d.data)
  }

  /** The node list from the decoded elements `outs`, one per document: the first failure
      stops it with its error. */
  function Assemble(outs: seq<Outcome<Element>>, docs: seq<NodeDoc>): (r: Result<seq<TreeNode>, Error>)
    requires |outs| == |docs|
    ensures r.Failure? <==> exists i :: 0 <= i < |outs| && outs[i].err.Some?
    ensures r.Failure? ==> exists i :: 0 <= i < |outs| && Some(r.error) == outs[i].err
                                       && forall k :: 0 <= k < i ==> outs[k].err.None?
    ensures r.Success? ==> |r.value| == |docs|
    ensures r.Success? ==> forall i :: 0 <= i < |docs| ==> r.value[i] == TreeNode(outs[i].value, docs[i].desc)
  {
    if docs == [] then Success([])
    else if outs[0].err.Some? then Failure(outs[0].err.value)
    else
      match Assemble(outs[1..], docs[1..])
      case Failure(e) =>
        assert exists i :: 0 <= i < |outs| && Some(e) == outs[i].err
                           && forall k :: 0 <= k < i ==> outs[k].err.None? by {
          var i :| 0 <= i < |outs[1..]| && Some(e) == outs[1..][i].err
                   && forall k :: 0 <= k < i ==> outs[1..][k].err.None?;
          assert forall k :: 1 <= k < i + 1 ==> outs[k] == outs[1..][k - 1];
        }
        Failure(e)
      case Success(rest) => Success([TreeNode(outs[0].value, docs[0].desc)] + rest)
  }

  /** The nodes in order; the first element that fails to decode stops the decoding with its
      error. */
  function UnmarshalNodes(docs: seq<NodeDoc>): (r: Result<seq<TreeNode>, Error>)
    ensures r.Failure? <==> exists i :: 0 <= i < |docs| && DecodeElement(docs[i]).err.Some?
    ensures r.Failure? ==> exists i :: 0 <= i < |docs| && Some(r.error) == DecodeElement(docs[i]).err
                                       && forall k :: 0 <= k < i ==> DecodeElement(docs[k]).err.None?
    ensures r.Success? ==> |r.value| == |docs|
    ensures r.Success? ==> forall i :: 0 <= i < |docs| ==>
              r.value[i] == TreeNode(DecodeElement(docs[i]).value, docs[i].desc) && ValidElement(r.value[i].data)
  {
    var outs := seq(|docs|, i requires 0 <= i < |docs| => DecodeElement(docs[i]));
    var r := Assemble(outs, docs);
    assert r.Failure? ==> exists i :: 0 <= i < |docs| && Some(r.error) == DecodeElement(docs[i]).err
                                      && forall k :: 0 <= k < i ==> DecodeElement(docs[k]).err.None? by {
      if r.Failure? {
        var i :| 0 <= i < |outs| && Some(r.error) == outs[i].err && forall k :: 0 <= k < i ==> outs[k].err.None?;
        assert outs[i] == DecodeElement(docs[i]);
        forall k | 0 <= k < i
          ensures DecodeElement(docs[k]).err.None?
        {
          assert outs[k] == DecodeElement(docs[k]);
        }
        assert 0 <= i < |docs| && Some(r.error) == DecodeElement(docs[i]).err;
      }
    }
    r
  }

  /** The decoding of a `*Tree`: `null` (no node list) gives a nil tree. */
  function UnmarshalTree(doc: Option<seq<NodeDoc>>): (r: Result<Option<Tree>, Error>)
    ensures doc.None? ==> r == Success(None)
    ensures doc.Some? ==> (r.Failure? <==> UnmarshalNodes(doc.value).Failure?)
    ensures doc.Some? && r.Success? ==> r.value == Some(Tree(UnmarshalNodes(doc.value).value))
    ensures r.Failure? ==> doc.Some? && r.error == UnmarshalNodes(doc.value).error
  {
    match doc
    case None => Success(None)
    case Some(docs) =>
      match UnmarshalNodes(docs)
      case Failure(e) => Failure(e)
      case Success(nodes) => Success(Some(Tree(nodes)))
  }

  // ---------------------------------------------------------------------------------------
  // How the library reads a document
  // ---------------------------------------------------------------------------------------

  /** A JSON array of non-negative numbers read as ids. */
  function Ids(items: seq<Json>): (r: Option<seq<NodeID>>)
    ensures r.Some? ==> |r.value| == |items| && forall i :: 0 <= i < |items| ==> items[i] == JNumber(r.value[i])
  {
    if items == [] then Some([])
    else if items[0].JNumber? && items[0].n >= 0 then
      match Ids(items[1..])
      case None => None
      case Some(rest) => Some([items[0].n as NodeID] + rest)
    else None
  }

  /** The "desc" member read as ids: absent means no children. */
  function DescOf(m: Option<Json>): Option<seq<NodeID>> {
    match m
    case None => Some([])
    case Some(JArray(items)) => Ids(items)
    case Some(_) => None
  }

  /** `d` is how the library reads the node object `item`, one whose "data" member is present
      once and whose "desc" member is present at most once, each spelled exactly. */
  ghost predicate NodeDocOf(d: NodeDoc, item: Json) {
    && item.JObject?
    && SingleKey(item.members, "data") && SingleKey(item.members, "desc")
    && Lookup(item.members, "data").Some?
    && d.data == Lookup(item.members, "data")
    && TextOf(d.dataText, d.data.value)
    && DescOf(Lookup(item.members, "desc")) == Some(d.desc)
  }

  /** `doc` is how the library reads the tree document `j`, one whose "nodes" member is present
      once and spelled exactly. */
  ghost predicate DocumentOf(doc: Option<seq<NodeDoc>>, j: Json) {
    match j
    case JNull => doc.None?
    case JObject(ms) =>
      && SingleKey(ms, "nodes")
      && Lookup(ms, "nodes").Some? && Lookup(ms, "nodes").value.JArray?
      && doc.Some? && |doc.value| == |Lookup(ms, "nodes").value.items|
      && forall i :: 0 <= i < |doc.value| ==> NodeDocOf(doc.value[i], Lookup(ms, "nodes").value.items[i])
    case _ => false
  }

  /** A node whose "data" is `null` holds no element the model can decode: the element decoder
      reports `failed to unmarshal Element`. */
  lemma NullDataRejected(d: NodeDoc)
    requires NodeDocOf(d, JObject([Member("data", JNull)]))
    ensures DecodeElement(d) == Outcome(Machine, Some(ElementFailed))
  {
    NonObjectRejected(Machine, d.dataText, JNull);
  }

  /** A key spelled in another case or repeated is outside the readings: `{"data": "machine",
      "Desc": [1]}` and `{"data": "bogus", "data": "machine"}` have none. */
  lemma OtherSpellingsUnread(d: NodeDoc)
    ensures !NodeDocOf(d, JObject([Member("data", JString("machine")), Member("Desc", JArray([JNumber(1)]))]))
    ensures !NodeDocOf(d, JObject([Member("data", JString("bogus")), Member("data", JString("machine"))]))
  {
    assert FoldKey("Desc") == "desc";
    assert FoldKey("data") == "data";
  }

  lemma {:induction false} IdsOfIdsJson(ids: seq<NodeID>)
    ensures Ids(IdsJson(ids)) == Some(ids)
  {
    if ids != [] {
      assert IdsJson(ids)[1..] == IdsJson(ids[1..]);
      IdsOfIdsJson(ids[1..]);
      assert ids == [ids[0]] + ids[1..];
    }
  }

  /** Reading an encoded node gives back its encoded element and its children. */
  lemma NodeDocOfNodeJson(d: NodeDoc, data: Json, children: seq<NodeID>)
    requires NodeDocOf(d, NodeJson(data, children))
    ensures d.data == Some(data) && d.desc == children && TextOf(d.dataText, data)
  {
    var ms := NodeJson(data, children).members;
    if children == [] {
      assert Lookup(ms, "desc") == Lookup([], "desc");
    } else {
      assert Lookup(ms, "data") == Lookup(ms[..1], "data");
      IdsOfIdsJson(children);
    }
  }

  /** Round trip: decoding any document that reads as the encoding of a tree of valid
      elements gives that tree back, and a nil tree stays nil. */
  lemma TreeRoundTrip(t: Option<Tree>, doc: Option<seq<NodeDoc>>)
    requires t.Some? ==> forall i :: 0 <= i < |t.value.nodes| ==> ValidElement(t.value.nodes[i].data)
    requires MarshalTree(t).Success? && DocumentOf(doc, MarshalTree(t).value)
    ensures UnmarshalTree(doc) == Success(t)
  {
    if t.Some? {
      var nodes := t.value.nodes;
      var items := MarshalNodes(nodes).value;
      var docs := doc.value;
      assert Lookup([Member("nodes", JArray(items))], "nodes") == Some(JArray(items));
      forall i | 0 <= i < |docs|
        ensures DecodeElement(docs[i]) == Outcome(nodes[i].data, None) && docs[i].desc == nodes[i].children
      {
        NodeDocOfNodeJson(docs[i], MarshalJSON(nodes[i].data).value, nodes[i].children);
        RoundTrip(nodes[i].data, Machine, docs[i].dataText);
      }
      var r := UnmarshalNodes(docs);
      assert r.Success?;
      assert r.value == nodes;
    }
  }
}
