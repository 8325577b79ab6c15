/** An abstract JSON value, as the Go JSON library decodes it into `interface{}`, with the
    few facts about JSON text that the element decoder depends on. */
module JsonValues {

  import opened Wrappers

  /** Numbers are mathematical integers; objects keep their members in document order. */
  datatype Json =
    | JNull
    | JBool(b: bool)
    | JNumber(n: int)
    | JString(s: string)
    | JArray(items: seq<Json>)
    | JObject(members: seq<Member>)

  datatype Member = Member(key: string, value: Json)

  /** The value stored under `key` once the object is decoded into a Go map: when a key
      repeats, the later member overwrites the earlier one. */
  function Lookup(members: seq<Member>, key: string): (r: Option<Json>)
    ensures r.Some? <==> exists i :: 0 <= i < |members| && members[i].key == key
  {
    if members == [] then None
    else
      var n := |members| - 1;
      if members[n].key == key then Some(members[n].value)
      else
        var front := members[..n];
        assert forall i :: 0 <= i < n ==> front[i] == members[i];
        Lookup(front, key)
  }

  /** When a key repeats, `Lookup` finds the value of its last member. */
  lemma {:induction false} LookupLast(members: seq<Member>, key: string)
    requires Lookup(members, key).Some?
    ensures exists i :: 0 <= i < |members| && members[i].key == key && members[i].value == Lookup(members, key).value
                        && forall j :: i < j < |members| ==> members[j].key != key
  {
    var n := |members| - 1;
    if members[n].key != key {
      var front := members[..n];
      LookupLast(front, key);
      var i :| 0 <= i < |front| && front[i].key == key && front[i].value == Lookup(front, key).value
               && forall j :: i < j < |front| ==> front[j].key != key;
      assert members[i] == front[i];
      assert forall j :: i < j < n ==> members[j] == front[j];
    }
  }

  /** `Lookup` on an object of three members. */
  lemma LookupThree(a: Member, b: Member, c: Member, key: string)
    ensures Lookup([a, b, c], key) ==
              if c.key == key then Some(c.value)
              else if b.key == key then Some(b.value)
              else if a.key == key then Some(a.value)
              else None
  {
    assert [a, b, c][..2] == [a, b];
    assert [a, b][..1] == [a];
    assert [a][..0] == [];
    assert Lookup([a, b, c], key) == if c.key == key then Some(c.value) else Lookup([a, b], key);
    assert Lookup([a, b], key) == if b.key == key then Some(b.value) else Lookup([a], key);
    assert Lookup([a], key) == if a.key == key then Some(a.value) else None;
  }

  /** ASCII lower-casing, as `strings.ToLower` and `bytes.ToLower` do on ASCII text. */
  function LowerChar(c: char): char {
    if 'A' <= c <= 'Z' then (c as int + 32) as char else c
  }

  function Lower(s: string): string {
    seq(|s|, i requires 0 <= i < |s| => LowerChar(s[i]))
  }

  /** A string the JSON writer copies between quotes without escaping anything. */
  predicate PlainString(s: string) {
    forall i :: 0 <= i < |s| ==> s[i] != '"' && s[i] != '\\' && ' ' <= s[i] <= '~'
  }

  /** What the model relies on about the JSON text `data` of a value `j`: the text of an
      object opens with a brace; the text of a plain string is that string in quotes, and the
      text of any other string does not start with the quoted token `"machine"` in any case;
      the text of any other value (`null`, a boolean, a number, an array) does not open with a
      quote. */
  predicate TextOf(data: string, j: Json) {
    match j
    case JObject(_) => |data| > 0 && data[0] == '{'
    case JString(s) =>
      && (PlainString(s) ==> data == ['"'] + s + ['"'])
      && (!PlainString(s) ==> !(|data| >= 9 && Lower(data[..9]) == "\"machine\""))
    case _ => |data| > 0 && data[0] != '"'
  }

  /** The case folding the Go JSON library applies when it matches an object key against a
      struct field name: simple Unicode folding, which on the field names of this library
      (lower-case ASCII) also folds the long s and the Kelvin sign. */
  function FoldChar(c: char): char {
    if c == '\U{17F}' then 's' else if c == '\U{212A}' then 'k' else LowerChar(c)
  }

  function FoldKey(k: string): string {
    seq(|k|, i requires 0 <= i < |k| => FoldChar(k[i]))
  }

  /** No member but possibly one has a key that folds to `name`, and that one is spelled
      exactly `name`: the object is matched against the field `name` at most once, and
      exactly. */
  predicate SingleKey(members: seq<Member>, name: string) {
    forall i, j ::
      (0 <= i < |members| && 0 <= j < |members| && FoldKey(members[i].key) == name && FoldKey(members[j].key) == name)
      ==> i == j && members[i].key == name
  }
}
