/** The node payload of the topology tree (element.go): the `Element` tagged union of two
    nullable fields, the `ProcessingKind` and `CacheLevel` enumerations, and their JSON codec. */
module Elements {

  import opened Wrappers
  import opened Errors
  import opened JsonValues

  // ---------------------------------------------------------------------------------------
  // Enumerations
  // ---------------------------------------------------------------------------------------

  /** `UnknownProcessingKind` is the value a failed parse returns beside its error. */
  datatype ProcessingKind = UnknownProcessingKind | Package | NUMANode | Core | Thread

  /** `UnknownCacheLevel` is the value a failed parse returns beside its error. */
  datatype CacheLevel = UnknownCacheLevel | L1 | L2 | L3 | L4 | L5

  /** A Go `(value, error)` pair: `err` is `None` for a nil error. */
  datatype Outcome<+T> = Outcome(value: T, err: Option<Error>)

  /** The name table of `ProcessingKind.String`: every real kind's name lower-cases to a
      spelling the parser accepts, and the sentinel's does not. */
  function KindString(k: ProcessingKind): (r: string)
    ensures k != UnknownProcessingKind <==> Lower(r) in KindSpellings
  {
    LowerKindNames();
    match k
    case Package => "Package"
    case NUMANode => "NUMANode"
    case Core => "Core"
    case Thread => "Thread"
    case UnknownProcessingKind => "UnknownProcessingKind"
  }

  /** The spellings `ParseProcessingKind` accepts once its input is lower-cased. */
  const KindSpellings: set<string> := {"package", "numa_node", "numanode", "core", "thread"}

  /** Case-insensitive; both "numa_node" and "numanode" name a NUMA node. */
  function ParseProcessingKind(s: string): (r: Outcome<ProcessingKind>)
    ensures r.err.None? <==> Lower(s) in KindSpellings
    ensures r.err.None? ==> r.value != UnknownProcessingKind
    ensures r.err.None? ==> Lower(s) == MarshalKind(r.value).s || (r.value == NUMANode && Lower(s) == "numa_node")
    ensures r.err.Some? ==> r == Outcome(UnknownProcessingKind, Some(UnknownKind(s)))
  {
    LowerKindNames();
    var l := Lower(s);
    if l == "package" then Outcome(Package, None)
    else if l == "numa_node" || l == "numanode" then Outcome(NUMANode, None)
    else if l == "core" then Outcome(Core, None)
    else if l == "thread" then Outcome(Thread, None)
    else Outcome(UnknownProcessingKind, Some(UnknownKind(s)))
  }

  /** The wire form of a kind: its lower-cased name, as a JSON string. */
  function MarshalKind(k: ProcessingKind): (r: Json)
    ensures r.JString? && (k != UnknownProcessingKind <==> r.s in KindSpellings)
  {
    JString(Lower(KindString(k)))
  }

  /** The name table of `CacheLevel.String`: exactly the real levels have a name the parser
      accepts. */
  function LevelString(l: CacheLevel): (r: string)
    ensures l != UnknownCacheLevel <==> r in LevelSpellings
  {
    match l
    case L1 => "L1"
    case L2 => "L2"
    case L3 => "L3"
    case L4 => "L4"
    case L5 => "L5"
    // the `%d` in `CacheLevel.String` prints the byte value of the sentinel, which is 0
    case UnknownCacheLevel => "Unknown cache level 0"
  }

  /** The spellings `ParseCacheLevel` accepts, compared exactly. */
  const LevelSpellings: set<string> := {"L1", "L2", "L3", "L4", "L5"}

  /** Case-sensitive, unlike `ParseProcessingKind`. */
  function ParseCacheLevel(s: string): (r: Outcome<CacheLevel>)
    ensures r.err.None? <==> s in LevelSpellings
    ensures r.err.None? ==> r.value != UnknownCacheLevel && LevelString(r.value) == s
    ensures r.err.Some? ==> r == Outcome(UnknownCacheLevel, Some(UnknownLevel(s)))
  {
    if s == "L1" then Outcome(L1, None)
    else if s == "L2" then Outcome(L2, None)
    else if s == "L3" then Outcome(L3, None)
    else if s == "L4" then Outcome(L4, None)
    else if s == "L5" then Outcome(L5, None)
    else Outcome(UnknownCacheLevel, Some(UnknownLevel(s)))
  }

  /** The wire form of a level: its name, as a JSON string. */
  function MarshalLevel(l: CacheLevel): (r: Json)
    ensures r.JString? && (l != UnknownCacheLevel <==> r.s in LevelSpellings)
  {
    JString(LevelString(l))
  }

  lemma LowerKindNames()
    ensures Lower("Package") == "package" && Lower("NUMANode") == "numanode"
    ensures Lower("Core") == "core" && Lower("Thread") == "thread"
    ensures Lower("UnknownProcessingKind") == "unknownprocessingkind"
  {
    assert Lower("Package") == "package" by { LowerEach("Package", "package"); }
    assert Lower("NUMANode") == "numanode" by { LowerEach("NUMANode", "numanode"); }
    assert Lower("Core") == "core" by { LowerEach("Core", "core"); }
    assert Lower("Thread") == "thread" by { LowerEach("Thread", "thread"); }
    assert Lower("UnknownProcessingKind") == "unknownprocessingkind" by {
      LowerEach("UnknownProcessingKind", "unknownprocessingkind");
    }
  }

  lemma LowerEach(s: string, t: string)
    requires |s| == |t| && forall i :: 0 <= i < |s| ==> LowerChar(s[i]) == t[i]
    ensures Lower(s) == t
  {
  }

  /** The name a kind is written under parses back to that kind, for every real kind;
      the sentinel's name does not parse. */
  lemma KindRoundTrip(k: ProcessingKind)
    ensures MarshalKind(k).JString?
    ensures k != UnknownProcessingKind ==> ParseProcessingKind(MarshalKind(k).s) == Outcome(k, None)
    ensures k == UnknownProcessingKind ==> ParseProcessingKind(MarshalKind(k).s).err.Some?
  {
    LowerKindNames();
    LowerIdempotent(KindString(k));
  }

  lemma LowerIdempotent(s: string)
    ensures Lower(Lower(s)) == Lower(s)
  {
  }

  /** The level parser reads back what the level writer emits; a real level spelt in lower
      case (such as "l1") is rejected, because matching is exact. */
  lemma LevelRoundTrip(l: CacheLevel)
    ensures MarshalLevel(l).JString?
    ensures l != UnknownCacheLevel ==> ParseCacheLevel(MarshalLevel(l).s) == Outcome(l, None)
    ensures l == UnknownCacheLevel ==> ParseCacheLevel(MarshalLevel(l).s).err.Some?
    ensures l != UnknownCacheLevel ==> ParseCacheLevel(Lower(LevelString(l))).err.Some?
  {
    if l != UnknownCacheLevel {
      var t := LevelString(l);
      var lt := Lower(t);
      assert lt[0] == 'l';
      assert lt !in LevelSpellings by {
        forall w | w in LevelSpellings ensures lt != w { assert w[0] == 'L'; }
      }
    }
  }

  /** Kind parsing ignores case: texts that lower-case alike parse to the same kind, with
      an error for both or for neither. */
  lemma ParseKindIgnoresCase(s: string, t: string)
    requires Lower(s) == Lower(t)
    ensures ParseProcessingKind(s).value == ParseProcessingKind(t).value
    ensures ParseProcessingKind(s).err.None? == ParseProcessingKind(t).err.None?
  {
  }

  // ---------------------------------------------------------------------------------------
  // Element
  // ---------------------------------------------------------------------------------------

  datatype Processing = Processing(kind: ProcessingKind, id: int)

  datatype CacheAttributes = CacheAttributes(size: int, linesize: int, associativity: int)

  /** `attributes` is a pointer in the Go code, so it may be nil. */
  datatype Cache = Cache(level: CacheLevel, logicalIndex: int, attributes: Option<CacheAttributes>)

  /** Two nullable co-fields; all four combinations are representable, both-set included. */
  datatype Element = Element(processing: Option<Processing>, cache: Option<Cache>)

  /** The root element, the machine itself: neither field set. */
  const Machine: Element := Element(None, None)

  predicate IsRoot(e: Element) {
    e.processing.None? && e.cache.None?
  }

  predicate IsProcessing(e: Element) {
    e.cache.None? && e.processing.Some?
  }

  predicate IsCache(e: Element) {
    e.processing.None? && e.cache.Some?
  }

  predicate BothSet(e: Element) {
    e.processing.Some? && e.cache.Some?
  }

  /** At most one variant predicate holds, and exactly one does unless both fields are set. */
  lemma VariantsExclusive(e: Element)
    ensures (if IsRoot(e) then 1 else 0) + (if IsProcessing(e) then 1 else 0) + (if IsCache(e) then 1 else 0)
            == (if BothSet(e) then 0 else 1)
  {
  }

  /** An element the codec reproduces: one variant, no sentinel enumeration value, and the
      attributes of a cache present. */
  predicate ValidElement(e: Element) {
    && !BothSet(e)
    && (e.processing.Some? ==> e.processing.value.kind != UnknownProcessingKind)
    && (e.cache.Some? ==> e.cache.value.level != UnknownCacheLevel && e.cache.value.attributes.Some?)
  }

  /** The struct tags of `Processing`: the kind under "kind", the id under "id". */
  function ProcessingJson(p: Processing): (r: Json)
    ensures r.JObject? && Lookup(r.members, "kind") == Some(MarshalKind(p.kind))
    ensures Lookup(r.members, "id") == Some(JNumber(p.id))
  {
    JObject([Member("kind", MarshalKind(p.kind)), Member("id", JNumber(p.id))])
  }

  /** The struct tags of `CacheAttributes`, and `null` for a nil pointer. */
  function AttributesJson(a: Option<CacheAttributes>): (r: Json)
    ensures a.None? <==> r == JNull
    ensures a.Some? ==> r.JObject? && Lookup(r.members, "size") == Some(JNumber(a.value.size))
                        && Lookup(r.members, "line") == Some(JNumber(a.value.linesize))
                        && Lookup(r.members, "ways") == Some(JNumber(a.value.associativity))
  {
    match a
    case None => JNull
    case Some(a) =>
      var ms := [Member("size", JNumber(a.size)), Member("line", JNumber(a.linesize)),
                 Member("ways", JNumber(a.associativity))];
      assert Lookup(ms, "size") == Lookup(ms[..2], "size") == Lookup(ms[..1], "size");
      JObject(ms)
  }

  /** The struct tags of `Cache`: "lvl", "li" and "attrs", the last `null` when nil. */
  function CacheJson(c: Cache): (r: Json)
    ensures r.JObject? && Lookup(r.members, "lvl") == Some(MarshalLevel(c.level))
    ensures Lookup(r.members, "li") == Some(JNumber(c.logicalIndex))
    ensures Lookup(r.members, "attrs") == Some(AttributesJson(c.attributes))
  {
    var ms := [Member("lvl", MarshalLevel(c.level)), Member("li", JNumber(c.logicalIndex)),
               Member("attrs", AttributesJson(c.attributes))];
    assert Lookup(ms, "lvl") == Lookup(ms[..2], "lvl") == Lookup(ms[..1], "lvl");
    JObject(ms)
  }

  /** The quoted token a root is written as. */
  const MachineToken: string := "\"machine\""

  /** `Element.MarshalJSON`: the bare string "machine" for a root, a one-member object named
      after the variant otherwise, and an error exactly when both fields are set. */
  function MarshalJSON(e: Element): (r: Result<Json, Error>)
    ensures r.Failure? <==> BothSet(e)
    ensures r.Failure? ==> r.error == InvalidElement
    ensures r.Success? ==> (IsRoot(e) <==> r.value == JString("machine"))
    ensures r.Success? && !IsRoot(e) ==> r.value.JObject? && |r.value.members| == 1
    ensures IsProcessing(e) ==> r.value.members[0] == Member("processing", ProcessingJson(e.processing.value))
    ensures IsCache(e) ==> r.value.members[0] == Member("cache", CacheJson(e.cache.value))
  {
    if IsRoot(e) then Success(JString("machine"))
    else if IsCache(e) then Success(JObject([Member("cache", CacheJson(e.cache.value))]))
    else if IsProcessing(e) then Success(JObject([Member("processing", ProcessingJson(e.processing.value))]))
    else Failure(InvalidElement)
  }

  /** The root test: the ASCII-lower-cased text starts with the nine characters `"machine"`,
      quotes included. */
  predicate MachinePrefix(data: string) {
    |data| >= |MachineToken| && Lower(data[..|MachineToken|]) == MachineToken
  }

  lemma MachinePrefixExamples()
    ensures MachinePrefix("\"MACHINE\"")
    ensures MachinePrefix("\"machine\"")
    ensures !MachinePrefix("\"machine_x\"")
    ensures !MachinePrefix("machine")
  {
    LowerEach("\"MACHINE\"", MachineToken);
    LowerEach("\"machine\"", MachineToken);
    assert Lower("\"machine_x\""[..9])[8] == '_';
    assert Lower("machine"[..]) != MachineToken by { assert |"machine"| < 9; }
  }

  // Go's type assertions on a decoded `map[string]interface{}`.

  function StringAt(members: seq<Member>, key: string): Option<string> {
    match Lookup(members, key)
    case Some(JString(s)) => Some(s)
    case _ => None
  }

  function NumberAt(members: seq<Member>, key: string): Option<int> {
    match Lookup(members, key)
    case Some(JNumber(n)) => Some(n)
    case _ => None
  }

  function ObjectAt(members: seq<Member>, key: string): Option<seq<Member>> {
    match Lookup(members, key)
    case Some(JObject(ms)) => Some(ms)
    case _ => None
  }

  /** The processing payload is an object with a string "kind" and a number "id". */
  predicate ProcessingFields(content: Json) {
    content.JObject? && StringAt(content.members, "kind").Some? && NumberAt(content.members, "id").Some?
  }

  /** The processing branch of `Element.UnmarshalJSON`, from the receiver whose cache it has
      already cleared. It succeeds exactly on a well-typed payload whose kind is accepted, and
      then stores that kind and id; a missing or mistyped field fails as a whole, an unknown
      kind with the parser's error. */
  function UnmarshalProcessing(e: Element, content: Json): (r: Outcome<Element>)
    requires e.cache.None?
    ensures r.err.None? <==> ProcessingFields(content) && Lower(StringAt(content.members, "kind").value) in KindSpellings
    ensures r.err.None? ==>
              r.value == Element(Some(Processing(ParseProcessingKind(StringAt(content.members, "kind").value).value,
                                                 NumberAt(content.members, "id").value)), None)
    ensures r.err.None? ==> IsProcessing(r.value) && ValidElement(r.value)
    ensures r.err.Some? ==> r.value == e
    ensures r.err.Some? ==> r.err.value == (if ProcessingFields(content)
                                            then ProcessingKindFailed(UnknownKind(StringAt(content.members, "kind").value))
                                            else ProcessingFailed)
  {
    if !content.JObject? then Outcome(e, Some(ProcessingFailed))
    else
      var kind := StringAt(content.members, "kind");
      var id := NumberAt(content.members, "id");
      if kind.Some? && id.Some? then
        var pk := ParseProcessingKind(kind.value);
        if pk.err.Some? then Outcome(e, Some(ProcessingKindFailed(pk.err.value)))
        else Outcome(e.(processing := Some(Processing(pk.value, id.value))), None)
      else Outcome(e, Some(ProcessingFailed))
  }

  /** The cache payload is an object with a string "lvl", a number "li" and an object "attrs"
      holding the numbers "size", "line" and "ways". */
  predicate CacheFields(content: Json) {
    && content.JObject?
    && ObjectAt(content.members, "attrs").Some?
    && StringAt(content.members, "lvl").Some? && NumberAt(content.members, "li").Some?
    && NumberAt(ObjectAt(content.members, "attrs").value, "size").Some?
    && NumberAt(ObjectAt(content.members, "attrs").value, "line").Some?
    && NumberAt(ObjectAt(content.members, "attrs").value, "ways").Some?
  }

  /** The cache the branch stores for a well-typed payload. */
  function CacheOf(content: Json): Cache
    requires CacheFields(content)
  {
    var ms := content.members;
    var attrs := ObjectAt(ms, "attrs").value;
    Cache(ParseCacheLevel(StringAt(ms, "lvl").value).value, NumberAt(ms, "li").value,
          Some(CacheAttributes(NumberAt(attrs, "size").value, NumberAt(attrs, "line").value,
                               NumberAt(attrs, "ways").value)))
  }

  /** The cache branch of `Element.UnmarshalJSON`, from the receiver whose processing part
      it has already cleared. It succeeds exactly on a well-typed payload whose level is
      accepted, and then stores the level, index and attributes read from it; a missing or
      mistyped field fails as a whole, an unknown level with the parser's error. */
  function UnmarshalCache(e: Element, content: Json): (r: Outcome<Element>)
    requires e.processing.None?
    ensures r.err.None? <==> CacheFields(content) && StringAt(content.members, "lvl").value in LevelSpellings
    ensures r.err.None? ==> r.value == Element(None, Some(CacheOf(content)))
    ensures r.err.None? ==> IsCache(r.value) && ValidElement(r.value)
    ensures r.err.Some? ==> r.value == e
    ensures r.err.Some? ==> r.err.value == (if CacheFields(content)
                                            then CacheLevelFailed(UnknownLevel(StringAt(content.members, "lvl").value))
                                            else CacheFailed)
  {
    if !content.JObject? then Outcome(e, Some(CacheFailed))
    else
      var ms := content.members;
      var attrs := ObjectAt(ms, "attrs");
      if attrs.None? then Outcome(e, Some(CacheFailed))
      else
        var lvl := StringAt(ms, "lvl");
        var li := NumberAt(ms, "li");
        var size := NumberAt(attrs.value, "size");
        var line := NumberAt(attrs.value, "line");
        var ways := NumberAt(attrs.value, "ways");
        if lvl.Some? && li.Some? && size.Some? && line.Some? && ways.Some? then
          var cl := ParseCacheLevel(lvl.value);
          if cl.err.Some? then Outcome(e, Some(CacheLevelFailed(cl.err.value)))
          else
            Outcome(e.(cache := Some(Cache(cl.value, li.value,
                                           Some(CacheAttributes(size.value, line.value, ways.value))))), None)
        else Outcome(e, Some(CacheFailed))
  }

  /** `Element.UnmarshalJSON` as a function of the receiver `e`, the raw text `data` and the
      JSON library's parse of it (`None` when the text is not JSON). The result is the
      receiver after the call, with the error returned. */
  function Unmarshal(e: Element, data: string, parsed: Option<Json>): (r: Outcome<Element>)
    ensures MachinePrefix(data) ==> r == Outcome(Machine, None)
    ensures r.err.None? ==> ValidElement(r.value)
    ensures !MachinePrefix(data) && (parsed.None? || !parsed.value.JObject?) ==> r.value == e && r.err.Some?
  {
    if MachinePrefix(data) then Outcome(Machine, None)
    else if parsed.None? then Outcome(e, Some(Syntax))
    else if !parsed.value.JObject? then Outcome(e, Some(ElementFailed))
    else
      var root := parsed.value.members;
      match Lookup(root, "processing")
      case Some(content) => UnmarshalProcessing(e.(cache := None), content)
      case None =>
        match Lookup(root, "cache")
        case Some(content) => UnmarshalCache(e.(processing := None), content)
        case None => Outcome(e, Some(ElementFailed))
  }

  /** A `null`, a boolean, a number or an array never passes the root test and fails with
      `failed to unmarshal Element`, leaving the receiver unchanged. */
  lemma NonObjectRejected(e: Element, data: string, j: Json)
    requires TextOf(data, j) && !j.JObject? && !j.JString?
    ensures Unmarshal(e, data, Some(j)) == Outcome(e, Some(ElementFailed))
  {
    assert !MachinePrefix(data) by {
      if |data| >= |MachineToken| {
        assert Lower(data[..|MachineToken|])[0] == LowerChar(data[0]) != MachineToken[0];
      }
    }
  }

  /** A string that is not plain (it holds a quote, a backslash, a control or a non-ASCII
      character) is never the root and fails with `failed to unmarshal Element`, leaving the
      receiver unchanged. */
  lemma NonPlainStringRejected(e: Element, data: string, s: string)
    requires TextOf(data, JString(s)) && !PlainString(s)
    ensures Unmarshal(e, data, Some(JString(s))) == Outcome(e, Some(ElementFailed))
  {
    assert MachineToken == "\"machine\"";
  }

  /** When both keys are present, `processing` wins; the cache is cleared whatever happens
      next, and a kind outside the accepted spellings is rejected before the payload is set. */
  lemma ProcessingBranch(e: Element, data: string, members: seq<Member>)
    requires !MachinePrefix(data) && Lookup(members, "processing").Some?
    ensures Unmarshal(e, data, Some(JObject(members))).value.cache.None?
    ensures Unmarshal(e, data, Some(JObject(members))).err.None? ==>
              IsProcessing(Unmarshal(e, data, Some(JObject(members))).value)
    ensures Unmarshal(e, data, Some(JObject(members))).err.Some? ==>
              Unmarshal(e, data, Some(JObject(members))).value.processing == e.processing
  {
  }

  /** Without a `processing` key, a `cache` key selects the cache branch, which clears the
      processing part whatever happens next. */
  lemma CacheBranch(e: Element, data: string, members: seq<Member>)
    requires !MachinePrefix(data) && Lookup(members, "processing").None? && Lookup(members, "cache").Some?
    ensures Unmarshal(e, data, Some(JObject(members))).value.processing.None?
    ensures Unmarshal(e, data, Some(JObject(members))).err.None? ==>
              IsCache(Unmarshal(e, data, Some(JObject(members))).value)
    ensures Unmarshal(e, data, Some(JObject(members))).err.Some? ==>
              Unmarshal(e, data, Some(JObject(members))).value.cache == e.cache
  {
    var r := Unmarshal(e, data, Some(JObject(members)));
    assert r == UnmarshalCache(e.(processing := None), Lookup(members, "cache").value);
  }

  /** An object with neither key fails and leaves the receiver as it was. */
  lemma NeitherKey(e: Element, data: string, members: seq<Member>)
    requires !MachinePrefix(data) && Lookup(members, "processing").None? && Lookup(members, "cache").None?
    ensures Unmarshal(e, data, Some(JObject(members))) == Outcome(e, Some(ElementFailed))
  {
  }

  /** An unknown kind is reported with the parser's error and no processing payload is stored. */
  lemma UnknownKindRejected(e: Element, data: string, kind: string, id: int)
    requires !MachinePrefix(data) && Lower(kind) !in KindSpellings
    ensures Unmarshal(e, data, Some(JObject([Member("processing", JObject([Member("kind", JString(kind)),
                                                                          Member("id", JNumber(id))]))])))
            == Outcome(e.(cache := None), Some(ProcessingKindFailed(UnknownKind(kind))))
  {
    var content := JObject([Member("kind", JString(kind)), Member("id", JNumber(id))]);
    assert Lookup(content.members, "kind") == Some(JString(kind));
  }

  /** The members of a cache payload with every field present. */
  function CacheLiteral(lvl: string, li: int, size: int, line: int, ways: int): seq<Member> {
    [Member("lvl", JString(lvl)), Member("li", JNumber(li)),
     Member("attrs", JObject([Member("size", JNumber(size)), Member("line", JNumber(line)),
                              Member("ways", JNumber(ways))]))]
  }

  lemma CacheLiteralFields(lvl: string, li: int, size: int, line: int, ways: int)
    ensures CacheFields(JObject(CacheLiteral(lvl, li, size, line, ways)))
    ensures StringAt(CacheLiteral(lvl, li, size, line, ways), "lvl") == Some(lvl)
  {
    var sz, ln, wy := Member("size", JNumber(size)), Member("line", JNumber(line)), Member("ways", JNumber(ways));
    var lv, ix, at := Member("lvl", JString(lvl)), Member("li", JNumber(li)), Member("attrs", JObject([sz, ln, wy]));
    LookupThree(lv, ix, at, "lvl");
    LookupThree(lv, ix, at, "li");
    LookupThree(lv, ix, at, "attrs");
    LookupThree(sz, ln, wy, "size");
    LookupThree(sz, ln, wy, "line");
    LookupThree(sz, ln, wy, "ways");
  }

  /** An unknown level is reported with the parser's error: the processing part is cleared, the
      old cache is kept and no new cache payload is stored. */
  lemma UnknownLevelRejected(e: Element, data: string, lvl: string, li: int, size: int, line: int, ways: int)
    requires !MachinePrefix(data) && lvl !in LevelSpellings
    ensures Unmarshal(e, data, Some(JObject([Member("cache", JObject(CacheLiteral(lvl, li, size, line, ways)))])))
            == Outcome(e.(processing := None), Some(CacheLevelFailed(UnknownLevel(lvl))))
  {
    CacheLiteralFields(lvl, li, size, line, ways);
  }

  /** Decoding the encoding of a valid element gives that element back, whatever the receiver
      held before, for any text the JSON writer can have produced for the encoding. */
  lemma RoundTrip(e: Element, init: Element, data: string)
    requires ValidElement(e)
    requires TextOf(data, MarshalJSON(e).value)
    ensures Unmarshal(init, data, Some(MarshalJSON(e).value)) == Outcome(e, None)
  {
    if IsRoot(e) {
      assert PlainString("machine");
      LowerEach(data[..9], MachineToken);
    } else {
      assert !MachinePrefix(data) by {
        if |data| >= 9 { assert Lower(data[..9])[0] == '{'; }
      }
      if IsProcessing(e) {
        ProcessingRoundTrip(e.processing.value, init.(cache := None));
      } else {
        CacheRoundTrip(e.cache.value, init.(processing := None));
        assert Lookup(MarshalJSON(e).value.members, "processing").None?;
      }
    }
  }

  /** The round trip needs the attributes: a cache without them is written with a `null`
      "attrs" member, which the decoder refuses with the receiver's processing part cleared. */
  lemma NilAttributesRejected(c: Cache, init: Element, data: string)
    requires c.attributes.None?
    requires TextOf(data, MarshalJSON(Element(None, Some(c))).value)
    ensures Unmarshal(init, data, Some(MarshalJSON(Element(None, Some(c))).value))
            == Outcome(init.(processing := None), Some(CacheFailed))
  {
    var j := MarshalJSON(Element(None, Some(c))).value;
    assert !MachinePrefix(data) by {
      if |data| >= 9 { assert Lower(data[..9])[0] == '{'; }
    }
    assert Lookup(j.members, "processing").None?;
    assert ObjectAt(CacheJson(c).members, "attrs").None?;
  }

  lemma ProcessingRoundTrip(p: Processing, init: Element)
    requires p.kind != UnknownProcessingKind && init.cache.None?
    ensures UnmarshalProcessing(init, ProcessingJson(p)) == Outcome(Element(Some(p), None), None)
  {
    KindRoundTrip(p.kind);
    var ms := ProcessingJson(p).members;
    assert Lookup(ms, "kind") == Some(MarshalKind(p.kind)) by { assert ms[..1][0].key == "kind"; }
  }

  lemma CacheRoundTrip(c: Cache, init: Element)
    requires c.level != UnknownCacheLevel && c.attributes.Some? && init.processing.None?
    ensures UnmarshalCache(init, CacheJson(c)) == Outcome(Element(None, Some(c)), None)
  {
    LevelRoundTrip(c.level);
    assert CacheFields(CacheJson(c));
  }

  /** `Element.UnmarshalJSON` as element.go writes it: it clears and assigns the receiver's
      fields step by step and returns early on each error. `e` is the receiver before the
      call and `r` the receiver after it. */
  method UnmarshalJSON(e: Element, data: string, parsed: Option<Json>) returns (r: Element, err: Option<Error>)
    ensures Outcome(r, err) == Unmarshal(e, data, parsed)
  {
    r, err := e, None;
    if MachinePrefix(data) {
      r := r.(processing := None);
      r := r.(cache := None);
      return;
    }
    if parsed.None? {
      err := Some(Syntax);
      return;
    }
    var raw := parsed.value;
    if !raw.JObject? {
      err := Some(ElementFailed);
      return;
    }
    var processing := Lookup(raw.members, "processing");
    var cache := Lookup(raw.members, "cache");
    if processing.Some? {
      r := r.(cache := None);
      var content := processing.value;
      if !content.JObject? {
        err := Some(ProcessingFailed);
        return;
      }
      var kindStr := StringAt(content.members, "kind");
      var id := NumberAt(content.members, "id");
      if kindStr.Some? && id.Some? {
        var kind := ParseProcessingKind(kindStr.value);
        if kind.err.Some? {
          err := Some(ProcessingKindFailed(kind.err.value));
          return;
        }
        r := r.(processing := Some(Processing(kind.value, id.value)));
      } else {
        err := Some(ProcessingFailed);
      }
    } else if cache.Some? {
      r := r.(processing := None);
      var content := cache.value;
      if !content.JObject? {
        err := Some(CacheFailed);
        return;
      }
      var levelStr := StringAt(content.members, "lvl");
      var li := NumberAt(content.members, "li");
      var attrs := ObjectAt(content.members, "attrs");
      if attrs.None? {
        err := Some(CacheFailed);
        return;
      }
      var size := NumberAt(attrs.value, "size");
      var line := NumberAt(attrs.value, "line");
      var ways := NumberAt(attrs.value, "ways");
      if levelStr.Some? && li.Some? && size.Some? && line.Some? && ways.Some? {
        var level := ParseCacheLevel(levelStr.value);
        if level.err.Some? {
          err := Some(CacheLevelFailed(level.err.value));
          return;
        }
        r := r.(cache := Some(Cache(level.value, li.value,
                                    Some(CacheAttributes(size.value, line.value, ways.value)))));
      } else {
        err := Some(CacheFailed);
      }
    } else {
      err := Some(ElementFailed);
    }
  }
}
