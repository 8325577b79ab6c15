# actitopo-go, modelled in Dafny

actitopo-go describes the hardware topology of one machine as a tree. The root is the machine.
The other nodes are processing units (packages, NUMA nodes, cores, hardware threads) and caches
(levels L1 to L5, with size, line size and associativity). The library gives the tree a JSON form
and answers structural queries over it. This project models four parts of it:

- **Elements** (`elements.dfy`, element.go). An `Element` has two nullable fields, `processing`
  and `cache`. All four combinations are representable, including the illegal one with both set.
  The file models:
  - the predicates `IsRoot`, `IsProcessing` and `IsCache`;
  - the two enumerations with their name tables and parsers (the kind parser ignores case, the
    level parser does not);
  - the element encoder;
  - the decoder. The decoder is written twice: once as the spec function `Unmarshal`, and once
    as the step-by-step method `UnmarshalJSON`. The method takes the receiver before the call
    and returns it after the call, so the fields it clears before failing remain visible.
- **Trees** (`trees.dfy`, tree.go). A tree is a sequence of nodes, indexed by `NodeID`. A nil
  `*Tree` is `None`. In the model the queries take the tree by value and
  return values; the pointers Go returns into the tree are listed under "Aliasing" below. The file
  models:
  - the bounds-checked lookups;
  - the explicit-stack depth-first walk that collects leaves;
  - the parent scan;
  - the ancestor walk over a parent table that the walk rebuilds on every call.

  The `WellFormed` predicate comes with a ghost `Shape` witness:
  - each node's depth and parent;
  - every child link points from the witnessed parent;
  - depth grows by one along each link;
  - no child list repeats an id.

  The depth supplies the termination measures of both walks.
- **Tree JSON** (`treejson.dfy`, the struct tags in tree.go). A tree is written as
  `{"nodes":[...]}`. A node is written as `{"data": <element>, "desc": [ids]}`, with `desc`
  dropped when the node has no children. A nil tree is written as `null`. The Go JSON library
  walks the structure; each element goes through the element codec.
- **Topologies** (`topologies.dfy`, topology.go). A wrapper around `*Tree` with these parts:
  - filters that keep the processing units of one kind or the caches of one level;
  - nine one-line public wrappers;
  - a JSON form that is that of the wrapped tree.

JSON values are abstract (`json.dfy`):
- Numbers are integers.
- An object keeps its members in order. A key's value is its last occurrence, as when the
  document is decoded into a Go map (`LookupLast`).

Only the root test looks at raw text. It lower-cases the text (ASCII only) and compares the first
nine characters with `"machine"`, including both quotes.

Edge cases of the code that the model keeps:
- The root test compares nine characters, both quotes included. So the JSON string `"machine_x"`
  is **not** decoded as the root, while `"MACHINE"` is. `MachinePrefixExamples` proves both.
- On a non-nil tree with no nodes, the id-taking queries report `Invalid NodeID`, not a
  nil-or-empty-tree error. Only `Root` reports `Tree is empty`.
- `AncestorIDs(0)` and `Ancestors(0)` return an empty list without an error.
- Nothing checks that node 0 holds the root element. `WellFormed` does not demand it either.

The leaf walk pops the last child it pushed first. So the leaves of sibling subtrees appear from
the last child to the first. `LeafSpec` states exactly that order.

Each filter is stated against `Selected`, the ids a scan keeps, in scan order. Lemmas prove the
following about `Selected`:
- it holds exactly the matching ids;
- it is strictly ascending;
- it is empty when nothing matches;
- filters with different selectors share no id;
- no filter lists a root.

## Model

| member | source | states |
|---|---|---|
| Elements.ParseProcessingKind | element.go:239-252 | succeeds exactly when the lower-cased text is one of `package`, `numa_node`, `numanode`, `core`, `thread`; then it yields the kind whose wire name is that text (`numa_node` as an alternative spelling of the NUMA node); otherwise the unknown kind with the error carrying the input text |
| Elements.ParseCacheLevel | element.go:329-344 | succeeds exactly on `L1`..`L5` (case-sensitive), yielding the level whose name is that text; otherwise the unknown level with the error carrying the input |
| Elements.KindString | element.go:222-235 | the name table: a kind is known exactly when its lower-cased name is one of the accepted spellings |
| Elements.MarshalKind | element.go:256-258 | a kind encodes as a JSON string, one of the accepted spellings exactly when the kind is known |
| Elements.LevelString | element.go:310-325 | the name table: a level is known exactly when its name is one of `L1`..`L5` |
| Elements.MarshalLevel | element.go:348-350 | a level encodes as a JSON string, one of `L1`..`L5` exactly when the level is known |
| Elements.KindRoundTrip | element.go:222-258 | the wire form of every known kind (its lower-cased name) parses back to that kind; the unknown kind's wire form is rejected |
| Elements.LevelRoundTrip | element.go:310-350 | the wire form of every known level parses back to it; the unknown level's is rejected; the lower-cased name (`l1`) is rejected |
| Elements.ParseKindIgnoresCase | element.go:239-240 | two texts equal up to ASCII case parse to the same kind with the same success |
| Elements.IsRoot | element.go:47-49 | neither field is set |
| Elements.IsProcessing | element.go:53-55 | the processing field is set and the cache field is not |
| Elements.IsCache | element.go:58-60 | the cache field is set and the processing field is not |
| Elements.VariantsExclusive | element.go:47-60 | at most one of IsRoot/IsProcessing/IsCache holds, and exactly one unless both fields are set |
| Elements.ProcessingJson | element.go:183-190 | a processing unit is written as an object holding its kind's wire form under `kind` and its id under `id` |
| Elements.AttributesJson | element.go:360-367 | nil attributes (the pointer at element.go:280) are written as `null` and nothing else is; otherwise an object holding the size under `size`, the line size under `line` and the associativity under `ways` |
| Elements.CacheJson | element.go:273-281 | a cache is written as an object holding its level's name under `lvl`, its logical index under `li` and its attributes (or `null`) under `attrs` |
| Elements.MarshalJSON | element.go:78-92 | fails, with `Invalid Element`, exactly when both fields are set; a root becomes the string `machine` and nothing else does; otherwise a one-member object named `processing` or `cache` holding the payload |
| Elements.MachinePrefix | element.go:98 | the text is at least nine characters long and its first nine, lower-cased, are `"machine"` with both quotes |
| Elements.MachinePrefixExamples | element.go:98 | `"MACHINE"` and `"machine"` pass the root test; `"machine_x"` and unquoted `machine` do not |
| Elements.UnmarshalProcessing | element.go:116-136 | succeeds exactly when the payload is an object with a string `kind` that the kind parser accepts and a number `id`; then it stores exactly that kind and id as a valid processing element; otherwise it leaves the receiver as the branch received it and reports the parser's error when both fields are present, `failed to unmarshal Processing` when not |
| Elements.UnmarshalCache | element.go:137-169 | succeeds exactly when the payload has a string `lvl` among `L1`..`L5`, a number `li` and an `attrs` object with numbers `size`, `line` and `ways`; then it stores exactly those values as a valid cache element; otherwise it leaves the receiver as the branch received it and reports the level parser's error when all fields are present, `failed to unmarshal Cache` when not |
| Elements.Unmarshal | element.go:96-174 | text passing the root test yields the root with no error; every success yields a valid element (never both fields set); unparsable or non-object input fails and leaves the receiver unchanged |
| Elements.ProcessingBranch | element.go:116-136 | a `processing` key wins over `cache`; the cache is cleared even when the branch then fails; failure keeps the old processing part |
| Elements.CacheBranch | element.go:137-169 | without `processing`, a `cache` key clears the processing part whatever follows; success yields a cache element; failure keeps the old cache |
| Elements.NeitherKey | element.go:170-172 | an object with neither key fails with `failed to unmarshal Element` and leaves the receiver unchanged |
| Elements.UnknownKindRejected | element.go:123-129 | an unknown kind is reported with the parser's error, and no processing payload is stored |
| Elements.NonObjectRejected | element.go:96-114 | a `null`, boolean, number or array value never passes the root test and fails with `failed to unmarshal Element`, the receiver unchanged |
| Elements.NonPlainStringRejected | element.go:96-114 | a string that is not plain (a quote, a backslash, a control or a non-ASCII character) never passes the root test and fails with `failed to unmarshal Element`, the receiver unchanged |
| Elements.UnknownLevelRejected | element.go:153-157 | a cache payload whose fields are all present but whose level is not `L1`..`L5` fails with the level parser's error; the processing part is cleared and the old cache is kept, with no new cache stored |
| Elements.RoundTrip | element.go:78-174 | decoding the encoding of a valid element, from any receiver, gives back that element with no error |
| Elements.ProcessingRoundTrip | element.go:116-136 | the processing branch decodes the encoding of a processing unit with a known kind back to it |
| Elements.CacheRoundTrip | element.go:137-169 | the cache branch decodes the encoding of a cache with a known level and attributes back to it |
| Elements.NilAttributesRejected | element.go:146-149 | a cache encoded without attributes (`"attrs": null`) is refused on decoding: the round trip needs the attributes |
| Elements.UnmarshalJSON | element.go:96-174 | the imperative decoder, with its in-place clears and early returns, computes exactly `Unmarshal` |
| Trees.Size | tree.go:44-49 | 0 for a nil tree, otherwise the number of nodes |
| Trees.IsEmpty | tree.go:51-57 | true for a nil tree, otherwise whether there are no nodes |
| Trees.EmptyIffSizeZero | tree.go:44-57 | a tree is empty exactly when its size is 0; a nil tree has size 0 and is empty |
| Trees.Root | tree.go:61-69 | fails exactly on a nil tree (`Tree is nil`) or a node-less one (`Tree is empty`); otherwise gives node 0's element |
| Trees.Get | tree.go:73-82 | fails exactly when the tree is nil or the id is not below the size, with the matching error; otherwise gives that node's element |
| Trees.ImmediateDescendantIDs | tree.go:87-96 | same failure condition; on success the stored child list, unchanged |
| Trees.ImmediateDescendants | tree.go:101-114 | same failure condition; on success the children's elements, in child order |
| Trees.LeafSpec | tree.go:139-155 | the leaves the walk lists under a node, each with an empty child list |
| Trees.LeafSpecSound | tree.go:139-155 | every listed id is a leaf in the subtree of the start node |
| Trees.LeafSpecComplete | tree.go:139-155 | every leaf in the subtree of the start node is listed |
| Trees.LeafSpecExact | tree.go:127-156 | the walk lists exactly the leaves of the subtree, each once, and a leaf start node yields only itself |
| Trees.PushAll | tree.go:143-151 | the walk's inner loop leaves the stack followed by the children, first child first, so the last child is popped next |
| Trees.LeafDescendantIDs | tree.go:119-157 | fails exactly on a nil tree or an out-of-range id; otherwise the stack walk returns `LeafSpec` of the id |
| Trees.LeafDescendants | tree.go:161-184 | same failure condition; otherwise the elements of `LeafSpec` of the id, in the same order as the id query |
| Trees.FirstParent | tree.go:202-208 | the node the scan meets first that lists the id as a child: it lists it, and no lower-index node does |
| Trees.FirstParentIsParent | tree.go:202-209 | in a well-formed tree every non-root node has a parent, and the first one found is its one parent |
| Trees.ParentID | tree.go:191-210 | fails exactly on a nil tree, an out-of-range id, or id 0 (`Root element does not have a parent`); otherwise returns `FirstParent` |
| Trees.Parent | tree.go:217-236 | same failures; otherwise the element of `FirstParent` |
| Trees.ParentTable | tree.go:249-254 | the rebuilt table has one slot per node, 0 for the root and the parent for every other node |
| Trees.AncestorsShape | tree.go:249-260 | the ancestor list excludes the node, starts with its parent, lists each entry's parent next, ends with 0, is empty for the root, and is as long as the node's depth |
| Trees.AncestorIDs | tree.go:241-261 | fails exactly on a nil tree or an out-of-range id; otherwise returns the ancestor list (empty for id 0) |
| Trees.Ancestors | tree.go:266-286 | same failures; otherwise the elements of the ancestor list, entry by entry |
| TreeJson.NodeJson | tree.go:27-34 | a node is an object whose `data` is its encoded element; `desc` is present exactly when the child list is non-empty, and then holds the ids in order |
| TreeJson.MarshalNodes | tree.go:27-34 | fails, with `Invalid Element`, exactly when some node's element has both fields set; otherwise one `{"data","desc"}` object per node, in order, with `desc` dropped for a leaf |
| TreeJson.MarshalTree | tree.go:36-41 | a nil tree is `null`; otherwise `{"nodes": [...]}`, failing exactly when a node fails |
| TreeJson.UnmarshalNodes | tree.go:27-34 | fails exactly when some element fails to decode, with the error of the first such node; otherwise each node holds its decoded (valid) element and its `desc` ids |
| TreeJson.UnmarshalTree | tree.go:36-41 | `null` gives a nil tree; otherwise the decoded node list, or the first node's error |
| TreeJson.Ids | tree.go:33 | an id array reads back as ids of the same length, each equal to its number |
| TreeJson.NullDataRejected | tree.go:29 | the model hands a node's `"data": null` to the element decoder, which reports `failed to unmarshal Element`; Go leaves `Data` nil instead, as "## Left out" records |
| TreeJson.OtherSpellingsUnread | tree.go:27-34 | a node with a differently cased `desc` key or a repeated `data` key has no reading |
| TreeJson.TreeRoundTrip | tree.go:27-41 | decoding any reading of the encoding of a tree whose elements are valid gives that tree back; a nil tree stays nil |
| Topologies.SelectedExact | topology.go:57-65 | a filter's list holds exactly the ids whose element matches: a processing unit of the kind or a cache of the level |
| Topologies.SelectedAscending | topology.go:58-64 | the list is strictly ascending and every id is in range |
| Topologies.SelectedEmpty | topology.go:58-64 | when nothing matches, the list is empty (not an error) |
| Topologies.SelectorsDisjoint | topology.go:57-107 | no element matches two different selectors, and no root matches any |
| Topologies.FiltersDisjoint | topology.go:57-107 | two different filters never list the same id, and no filter lists a root |
| Topologies.GetAllProcessingKind | topology.go:57-65 | the scan returns `Selected` for that kind over all nodes |
| Topologies.GetAllCacheLevel | topology.go:99-107 | the scan returns `Selected` for that level over all nodes |
| Topologies.Packages | topology.go:32-34 | the filter for `Package` |
| Topologies.NUMANodes | topology.go:38-40 | the filter for `NUMANode` |
| Topologies.Cores | topology.go:44-46 | the filter for `Core` |
| Topologies.Threads | topology.go:50-52 | the filter for `Thread` |
| Topologies.L1Caches | topology.go:69-71 | the filter for `L1` |
| Topologies.L2Caches | topology.go:75-77 | the filter for `L2` |
| Topologies.L3Caches | topology.go:81-83 | the filter for `L3` |
| Topologies.L4Caches | topology.go:87-89 | the filter for `L4` |
| Topologies.L5Caches | topology.go:93-95 | the filter for `L5` |
| Topologies.MarshalJSON | topology.go:111-113 | the wrapped tree's encoding: `null` for a nil tree, failing exactly when an element has both fields set |
| Topologies.Unmarshal | topology.go:117-119 | success exactly when the tree decodes, and then the wrapped tree is the decoded one (nil for `null`); on failure the tree's error |
| Topologies.TopologyRoundTrip | topology.go:111-119 | a freshly declared topology (nil tree) decodes any reading of the encoding of a topology with valid elements back to that topology |

## Left out

Numbers and text:
- Elements.UnmarshalProcessing: numbers are mathematical integers. The float64-to-`uint32`
  conversion of the id (element.go:132) is not modelled.
- Elements.UnmarshalCache: the float64-to-`uint32`/`uint64`/`int32` conversions of the fields
  (element.go:160-164) are not modelled.
- `NodeID` is `uint32` in Go and a natural number here, as are the sizes that `Size` returns as
  an `int`.
- Numbers are read as float64 by the Go decoder. The round trips assume that every number is
  exact in float64; a size above 2^53 that float64 cannot represent, such as 2^53+1, does not
  come back unchanged.
- JSON text syntax and escaping belong to the Go JSON library. Documents are abstract values.
  `TextOf` states the facts that the root test needs about the text: an object's text opens
  with `{`; a plain string is written between quotes; the text of any other string does not
  start with `"machine"` in any case; the text of any other value does not open with a quote.
- `TextOf` assumes that a plain string is written without escapes. So the model reads
  `{"data":"m\u0061chine"}` as the root, where Go's root test sees the escaped text and
  reports `failed to unmarshal Element`.
- Lower-casing is ASCII-only. `strings.ToLower` and `bytes.ToLower` also fold non-ASCII letters.

The enumerations:
- `ProcessingKind.UnmarshalJSON` and `CacheLevel.UnmarshalJSON` (element.go:262-264, 354-356)
  are left out. Each calls the JSON decoder on its own receiver, and the element decoder never
  uses them.
- The `fmt`-based `String` methods of `Element`, `Processing`, `Cache` and `CacheAttributes` are
  formatting output and are left out. The name tables of the two enumerations are modelled, as
  `KindString` and `LevelString`.
- Enumeration bytes above the last constant are not representable. So the `%d` branch of
  `CacheLevel.String` is modelled only for the unknown level, as `Unknown cache level 0`.

Panics and preconditions:
- The `panic("UNREACHABLE")` paths become preconditions:
  - `Element.String` (element.go:72) is not modelled;
  - the parent scans (tree.go:209, 235) require a parent to exist (`HasParent`).
- Trees.ImmediateDescendants: a child id out of range panics in Go. It becomes the requirement
  `ChildrenAddressable`.
- Trees.LeafDescendantIDs, Trees.LeafDescendants, Trees.AncestorIDs, Trees.Ancestors: these
  require `WellFormed` when the id is addressable. `WellFormed` excludes every malformed node
  list, and the behaviour on one is not modelled:
  - a cycle in the child lists makes the leaf walk run forever, and a parent cycle that avoids
    node 0 (nodes 1 and 2 each listing the other) makes the ancestor walk (tree.go:252-257) run
    forever;
  - a child id out of range panics;
  - a child listed by two parents, or twice in one list, makes the leaf walk return a leaf
    twice, and the ancestor walk takes the last node that lists it (tree.go:252).
  - A pointer to a node on the walk's stack is represented by the node's index.
- Topologies.GetAllProcessingKind, Topologies.GetAllCacheLevel and the nine public filters:
  these require a non-nil tree. Go dereferences the nil embedded pointer (topology.go:59, 101)
  and panics.

Aliasing:
- Trees.Root, Trees.Get, Trees.Parent, Trees.ImmediateDescendantIDs and the other queries: in
  Go they return `*Element` pointers into the tree, and `ImmediateDescendantIDs` returns the
  node's own `Children` slice, so a caller can change the tree through a result. The model
  returns values, so it does not capture this aliasing.

Nil values the model cannot represent:
- A nil `TreeNode.Data` is not representable. Every node holds an element.
- Nil and empty slices are not distinguished. So a non-nil tree with a nil node list encodes as
  `[]` here, where Go writes `null`.

Encoding and decoding trees:
- TreeJson.MarshalTree: the Go encoder wraps an element's error in its own marshaler error. The
  model reports the element's `Invalid Element` directly.
- TreeJson.UnmarshalTree: decoding starts from the library's per-node reading (`NodeDoc`: the raw
  text and the value of `data`, and the ids of `desc`).
  - How the library rejects a malformed tree document (wrong member types, negative or
    oversized ids) is not modelled.
  - A missing `nodes` member, or `"nodes": null`, is not an error in Go: it leaves a non-nil
    tree with a nil node list. `DocumentOf` does not read such a document, so the model does not
    decode it.
  - The Go JSON library matches a member's key to a struct field ignoring case, and decodes
    every member that matches, in order; for `data` it calls the element decoder once per
    member and stops at the first error. `NodeDocOf` and `DocumentOf` read only documents in
    which `nodes` and `data` appear once and `desc` at most once, each spelled exactly
    (`SingleKey`); a document with a repeated or differently cased key is not decoded by the
    model (`OtherSpellingsUnread`).
- TreeJson.UnmarshalNodes: a `"data": null` member, or a missing `data`, leaves Go's `Data` nil
  with no error. The model hands `null` to the element decoder, which reports
  `failed to unmarshal Element` (`NullDataRejected`); `NodeDocOf` reads no node without
  `data`.
  - Decoding into a freshly allocated element is modelled. Reuse of elements that are already
    allocated is not.
- Topologies.Unmarshal: on an error the model keeps the previous tree. The Go decoder may leave
  a partly filled tree behind, and when the receiver already holds a tree it decodes into that
  tree's existing nodes. Both cases are not modelled.

Outside the model:
- Concurrent use (the package has no synchronisation) is not modelled.
- The test files (tree_test.go, topology_test.go) only read and write files and print. doc.go is
  documentation. None of the three is modelled.
