/**
 * The slice of Jackson's tree model (`JsonNode`) that the deploy helper reads:
 * `get(name)`, `fields()`, `asText()` and `findValue(name)`. Parsing text into a
 * tree is not part of this model; trees are taken as already parsed.
 */
module Json {
  import opened Wrappers

  /**
   * A parsed JSON value. An object keeps its members in document order, as
   * Jackson's `ObjectNode` does; a number keeps the text `asText()` gives for it.
   */
  datatype Json =
    | JNull
    | JBool(b: bool)
    | JNumber(text: string)
    | JString(s: string)
    | JArray(items: seq<Json>)
    | JObject(fields: seq<(string, Json)>)

  /** `asText()`: the text of a scalar; container nodes give the empty string. */
  function AsText(j: Json): string {
    match j
    case JNull => "null"
    case JBool(b) => if b then "true" else "false"
    case JNumber(t) => t
    case JString(s) => s
    case JArray(_) => ""
    case JObject(_) => ""
  }

  /**
   * The first member of `fs` named `name`. A tree Jackson builds has distinct
   * names within one object, so the first is the only one.
   */
  function Lookup(fs: seq<(string, Json)>, name: string): (r: Option<Json>)
    ensures r.None? <==> forall i :: 0 <= i < |fs| ==> fs[i].0 != name
    ensures r.Some? ==> exists i :: 0 <= i < |fs| && fs[i] == (name, r.value) &&
                                    forall k :: 0 <= k < i ==> fs[k].0 != name
    decreases |fs|
  {
    if fs == [] then None
    else if fs[0].0 == name then Some(fs[0].1)
    else
      var r := Lookup(fs[1..], name);
      assert r.Some? ==> exists i :: 0 <= i < |fs[1..]| && fs[1..][i] == (name, r.value) &&
                                     forall k :: 0 <= k < i ==> fs[1..][k].0 != name;
      assert r.Some? ==> exists i :: 0 < i < |fs| && fs[i] == (name, r.value) &&
                                     forall k :: 0 < k < i ==> fs[k].0 != name;
      r
  }

  /** `get(name)`: the member's value on an object, null (None) on any other node or a missing member. */
  function Get(j: Json, name: string): Option<Json> {
    if j.JObject? then Lookup(j.fields, name) else None
  }

  /** `fields()`: an object's members in order; every other node iterates nothing. */
  function FieldsOf(j: Json): seq<(string, Json)> {
    if j.JObject? then j.fields else []
  }

  /**
   * `findValue(name)`: on an object, for each member in order, the member's
   * value if it has that name, else the first match inside the value; on an
   * array, the first match inside its elements in order; None on a scalar.
   */
  function FindValue(j: Json, name: string): Option<Json>
    decreases j, 1
  {
    match j
    case JArray(items) => FindInItems(items, name)
    case JObject(fs) => FindInFields(fs, name)
    case _ => None
  }

  function FindInFields(fs: seq<(string, Json)>, name: string): Option<Json>
    decreases fs, 0
  {
    if fs == [] then None
    else if fs[0].0 == name then Some(fs[0].1)
    else
      assert fs[0].1 < fs[0];
      match FindValue(fs[0].1, name)
      case Some(v) => Some(v)
      case None => FindInFields(fs[1..], name)
  }

  function FindInItems(items: seq<Json>, name: string): Option<Json>
    decreases items, 0
  {
    if items == [] then None
    else match FindValue(items[0], name)
      case Some(v) => Some(v)
      case None => FindInItems(items[1..], name)
  }

  /**
   * Reference definition: the values of ALL members named `name` anywhere in
   * `j`, in document order (a member's value comes before what is nested in it).
   */
  function Matches(j: Json, name: string): seq<Json>
    decreases j, 1
  {
    match j
    case JArray(items) => MatchesInItems(items, name)
    case JObject(fs) => MatchesInFields(fs, name)
    case _ => []
  }

  function MatchesInFields(fs: seq<(string, Json)>, name: string): seq<Json>
    decreases fs, 0
  {
    if fs == [] then []
    else
      assert fs[0].1 < fs[0];
      (if fs[0].0 == name then [fs[0].1] else []) + Matches(fs[0].1, name) + MatchesInFields(fs[1..], name)
  }

  function MatchesInItems(items: seq<Json>, name: string): seq<Json>
    decreases items, 0
  {
    if items == [] then [] else Matches(items[0], name) + MatchesInItems(items[1..], name)
  }

  function First<T>(s: seq<T>): Option<T> {
    if s == [] then None else Some(s[0])
  }

  /** `findValue` is the first of all the matches in document order, and null exactly when there are none. */
  lemma {:induction false} FindValueIsFirstMatch(j: Json, name: string)
    ensures FindValue(j, name) == First(Matches(j, name))
    decreases j, 1
  {
    match j
    case JArray(items) => FindInItemsIsFirstMatch(items, name);
    case JObject(fs) => FindInFieldsIsFirstMatch(fs, name);
    case _ =>
  }

  lemma {:induction false} FindInFieldsIsFirstMatch(fs: seq<(string, Json)>, name: string)
    ensures FindInFields(fs, name) == First(MatchesInFields(fs, name))
    decreases fs, 0
  {
    if fs != [] && fs[0].0 != name {
      assert fs[0].1 < fs[0];
      FindValueIsFirstMatch(fs[0].1, name);
      FindInFieldsIsFirstMatch(fs[1..], name);
    }
  }

  lemma {:induction false} FindInItemsIsFirstMatch(items: seq<Json>, name: string)
    ensures FindInItems(items, name) == First(MatchesInItems(items, name))
    decreases items, 0
  {
    if items != [] {
      FindValueIsFirstMatch(items[0], name);
      FindInItemsIsFirstMatch(items[1..], name);
    }
  }

  /** A value found is the value of some member with that name inside the tree. */
  lemma FindValueFindsMember(j: Json, name: string)
    ensures FindValue(j, name).Some? <==> |Matches(j, name)| > 0
    ensures FindValue(j, name).Some? ==> FindValue(j, name).value in Matches(j, name)
  {
    FindValueIsFirstMatch(j, name);
  }
}
