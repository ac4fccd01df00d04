/**
 * JSON values as `json.loads` produces them, and the Python operations the
 * receiver applies to them: truthiness (`if actions:`, `if not signing_key`),
 * `dict.get` and iteration (`for action in actions`).
 */
module Json {
  import opened Wrappers

  /**
   * An object is the list of members in document order. A key may repeat in
   * the text; the dict `json.loads` builds from it holds the key once, at its
   * first position, with its last value (see `Get` and `DictKeys`).
   */
  datatype Json =
    | JNull
    | JBool(b: bool)
    | JInt(i: int)
    | JFloat(r: real)
    | JStr(s: string)
    | JArr(items: seq<Json>)
    | JObj(fields: seq<(string, Json)>)

  /** Python truthiness: `None`, `False`, zero and empty containers are false. */
  predicate Truthy(j: Json)
    ensures !Truthy(j) <==> j in {JNull, JBool(false), JInt(0), JFloat(0.0), JStr(""), JArr([]), JObj([])}
  {
    match j
    case JNull => false
    case JBool(b) => b
    case JInt(i) => i != 0
    case JFloat(r) => r != 0.0
    case JStr(s) => s != ""
    case JArr(items) => items != []
    case JObj(fields) => fields != []
  }

  /** The truthiness of a string read with `.get`, which may be `None`. */
  predicate TruthyText(v: Option<string>)
    ensures TruthyText(v) <==> v.Some? && |v.value| > 0
  {
    v.Some? && Truthy(JStr(v.value))
  }

  /** Whether some member of `fields` is named `key`. */
  predicate HasKey<V>(fields: seq<(string, V)>, key: string) {
    exists i | 0 <= i < |fields| :: fields[i].0 == key
  }

  lemma HasKeyAppend<V>(a: seq<(string, V)>, b: seq<(string, V)>, key: string)
    ensures HasKey(a + b, key) <==> HasKey(a, key) || HasKey(b, key)
  {
    if HasKey(a + b, key) {
      var i :| 0 <= i < |a + b| && (a + b)[i].0 == key;
      if i >= |a| { assert b[i - |a|].0 == key; }
    }
    if HasKey(a, key) {
      var i :| 0 <= i < |a| && a[i].0 == key;
      assert (a + b)[i].0 == key;
    }
    if HasKey(b, key) {
      var i :| 0 <= i < |b| && b[i].0 == key;
      assert (a + b)[|a| + i].0 == key;
    }
  }

  /**
   * `d.get(key)` on an object: the value of the last member named `key`
   * (a repeated key keeps its last value under `json.loads`), or `None`.
   */
  function Get(fields: seq<(string, Json)>, key: string): (r: Option<Json>)
    ensures r.None? <==> forall i | 0 <= i < |fields| :: fields[i].0 != key
    ensures r.Some? ==> exists i | 0 <= i < |fields| :: fields[i] == (key, r.value)
                          && forall j | i < j < |fields| :: fields[j].0 != key
  {
    if fields == [] then None
    else if fields[|fields| - 1].0 == key then Some(fields[|fields| - 1].1)
    else
      Get(fields[..|fields| - 1], key)
  }

  /** The keys of the dict `json.loads` builds: each key once, in first-occurrence order. */
  function DictKeys(fields: seq<(string, Json)>): (keys: seq<string>)
    ensures forall a, b | 0 <= a < b < |keys| :: keys[a] != keys[b]
    ensures forall k :: k in keys <==> HasKey(fields, k)
    ensures |keys| <= |fields|
  {
    if fields == [] then []
    else
      var n := |fields| - 1;
      var front := DictKeys(fields[..n]);
      HasKeyAppend(fields[..n], [fields[n]], fields[n].0);
      assert fields == fields[..n] + [fields[n]];
      forall k ensures HasKey(fields, k) <==> HasKey(fields[..n], k) || k == fields[n].0 {
        HasKeyAppend(fields[..n], [fields[n]], k);
        if k == fields[n].0 { assert [fields[n]][0].0 == k; }
      }
      if fields[n].0 in front then front else front + [fields[n].0]
  }

  /** Member `i` has key `key`, and only the keys in `earlier` appear before it. */
  predicate FirstOccurrence(fields: seq<(string, Json)>, earlier: seq<string>, key: string, i: int)
    requires 0 <= i < |fields|
  {
    fields[i].0 == key && forall j | 0 <= j < i :: fields[j].0 in earlier
  }

  /**
   * `DictKeys` lists each key at the place of its first occurrence: the
   * `a`-th key first appears after exactly the keys listed before it.
   */
  lemma {:induction false} DictKeysFirstOccurrenceOrder(fields: seq<(string, Json)>, a: int)
    requires 0 <= a < |DictKeys(fields)|
    ensures exists i | 0 <= i < |fields| :: FirstOccurrence(fields, DictKeys(fields)[..a], DictKeys(fields)[a], i)
    decreases |fields|
  {
    var n := |fields| - 1;
    var front := fields[..n];
    var keys, fkeys := DictKeys(fields), DictKeys(front);
    assert keys == if fields[n].0 in fkeys then fkeys else fkeys + [fields[n].0];
    if a < |fkeys| {
      DictKeysFirstOccurrenceOrder(front, a);
      assert keys[..a] == fkeys[..a];
      var i :| 0 <= i < |front| && FirstOccurrence(front, fkeys[..a], fkeys[a], i);
      forall j | 0 <= j <= i ensures fields[j] == front[j] { }
      assert FirstOccurrence(fields, keys[..a], keys[a], i);
    } else {
      assert keys[..a] == fkeys;
      forall j | 0 <= j < n ensures fields[j].0 in keys[..a] {
        assert front[j].0 == fields[j].0;
        assert HasKey(front, fields[j].0);
      }
      assert FirstOccurrence(fields, keys[..a], keys[a], n);
    }
  }

  /**
   * The items `for x in j` visits: an array's elements, a string's characters
   * (each a one-character string) and a dict's keys, each once. Any other
   * value raises `TypeError` when iterated, which is `None` here.
   */
  function Iterate(j: Json): (r: Option<seq<Json>>)
    ensures r.Some? <==> j.JArr? || j.JStr? || j.JObj?
    ensures j.JArr? ==> r == Some(j.items)
    ensures j.JStr? ==> r.Some? && |r.value| == |j.s|
                        && forall k | 0 <= k < |j.s| :: r.value[k] == JStr([j.s[k]])
    ensures j.JObj? ==> r.Some? && |r.value| == |DictKeys(j.fields)| <= |j.fields|
                        && forall k | 0 <= k < |r.value| :: r.value[k] == JStr(DictKeys(j.fields)[k])
  {
    match j
    case JArr(items) => Some(items)
    case JStr(s) => Some(seq(|s|, k requires 0 <= k < |s| => JStr([s[k]])))
    case JObj(fields) =>
      var keys := DictKeys(fields);
      Some(seq(|keys|, k requires 0 <= k < |keys| => JStr(keys[k])))
    case _ => None
  }

  /** A key repeated in the text is visited once, as the dict holds it once. */
  lemma RepeatedKeyVisitedOnce(key: string, first: Json, second: Json)
    ensures Iterate(JObj([(key, first), (key, second)])) == Some([JStr(key)])
  {
    var fields := [(key, first), (key, second)];
    assert fields[..1] == [(key, first)];
    assert [(key, first)][..0] == [];
    assert DictKeys([(key, first)]) == [key];
    assert DictKeys(fields) == [key];
    var r := Iterate(JObj(fields));
    assert |r.value| == 1 && r.value[0] == JStr(key);
    assert r.value == [JStr(key)];
  }
}
