/**
  The Python values a decoded listing record is made of, and the few
  built-in operations the extraction rules apply to them: truthiness,
  subscripting, iteration, `float`, `int`, `str` and substring search.
  A JSON object becomes `Dict`, an association list in insertion order.
  The type admits repeated keys, which no Python dict has; `DistinctKeys`
  singles out the lists a decoded JSON object can be, and the lemmas that
  need it say so.
*/
module PyValues {
  import opened Wrappers

  datatype Value =
    | Null                                 // Python None / JSON null
    | Bool(b: bool)
    | Int(i: int)
    | Float(x: real)
    | Str(s: string)
    | List(items: seq<Value>)
    | Dict(entries: seq<(string, Value)>)

  /** What calling a rule produced: an exception, or a returned value. */
  datatype Outcome = Raised | Returned(value: Value)

  /**
    The conversions the model does not define itself: parsing a string with
    `float(...)` or `int(...)` (None when Python raises ValueError) and `str(...)`
    of a value that is not already a string (used by an f-string).
  */
  datatype Conversions = Conversions(
    parseFloat: string -> Option<real>,
    parseInt: string -> Option<int>,
    render: Value -> string)

  /** Python's `bool(v)`. */
  predicate Truthy(v: Value) {
    match v
    case Null => false
    case Bool(b) => b
    case Int(i) => i != 0
    case Float(x) => x != 0.0
    case Str(s) => s != []
    case List(xs) => xs != []
    case Dict(es) => es != []
  }

  /** The value stored under `key` in an association list. */
  function Lookup(es: seq<(string, Value)>, key: string): Option<Value>
    decreases |es|
  {
    if es == [] then None
    else if es[0].0 == key then Some(es[0].1)
    else Lookup(es[1..], key)
  }

  /** The lookup fails exactly for an absent key, and otherwise finds the first entry with that key. */
  lemma {:induction false} LookupSpec(es: seq<(string, Value)>, key: string)
    ensures Lookup(es, key).None? <==> forall i :: 0 <= i < |es| ==> es[i].0 != key
    ensures Lookup(es, key).Some? ==> exists i :: (0 <= i < |es| && es[i] == (key, Lookup(es, key).value) &&
      forall j :: 0 <= j < i ==> es[j].0 != key)
    decreases |es|
  {
    if es != [] && es[0].0 != key {
      LookupSpec(es[1..], key);
      assert forall i :: 1 <= i < |es| ==> es[i] == es[1..][i - 1];
      if Lookup(es, key).Some? {
        var i :| 0 <= i < |es[1..]| && es[1..][i] == (key, Lookup(es, key).value) &&
          forall j :: 0 <= j < i ==> es[1..][j].0 != key;
        assert es[i + 1] == (key, Lookup(es, key).value);
      }
    } else if es != [] {
      assert es[0] == (key, Lookup(es, key).value);
    }
  }

  /** No key occurs twice, as in every Python dict. */
  predicate DistinctKeys(es: seq<(string, Value)>) {
    forall i, j :: 0 <= i < j < |es| ==> es[i].0 != es[j].0
  }

  /** In a dict, looking up the key of an entry finds that entry's value. */
  lemma LookupDistinct(es: seq<(string, Value)>, i: int)
    requires 0 <= i < |es|
    ensures DistinctKeys(es) ==> Lookup(es, es[i].0) == Some(es[i].1)
  {
    LookupSpec(es, es[i].0);
  }

  /** The keys of a dict, as `for k in d` visits them. */
  function KeysOf(es: seq<(string, Value)>): seq<Value> {
    seq(|es|, i requires 0 <= i < |es| => Str(es[i].0))
  }

  /** `v[key]` with a string key: only a dict supports it, and only for a present key. */
  function Subscript(v: Value, key: string): Outcome {
    match v
    case Dict(es) =>
      (match Lookup(es, key)
       case Some(x) => Returned(x)
       case None => Raised)                               // KeyError
    case _ => Raised                                      // TypeError
  }

  /** The elements `for x in v` visits, or None when `v` is not iterable. */
  function Iterate(v: Value): Option<seq<Value>> {
    match v
    case List(xs) => Some(xs)
    case Str(s) => Some(seq(|s|, i requires 0 <= i < |s| => Str([s[i]])))
    case Dict(es) => Some(KeysOf(es))
    case _ => None
  }

  /** The mapping a dict literal or `**` unpacking denotes: a later entry overrides an earlier one. */
  function ToMap(es: seq<(string, Value)>): (m: map<string, Value>)
    ensures forall k :: k in m <==> exists i :: 0 <= i < |es| && es[i].0 == k
    ensures forall i :: 0 <= i < |es| && (forall j :: i < j < |es| ==> es[j].0 != es[i].0) ==>
      es[i].0 in m && m[es[i].0] == es[i].1
  {
    if es == [] then map[]
    else
      var init, last := es[..|es| - 1], es[|es| - 1];
      var m0 := ToMap(init);
      assert forall i :: 0 <= i < |init| ==> init[i] == es[i];
      m0[last.0 := last.1]
  }

  /** Python's `int(x)` of a float: truncation toward zero. */
  function Trunc(x: real): (r: int)
    ensures 0.0 <= x ==> r as real <= x < r as real + 1.0
    ensures x < 0.0 ==> r as real - 1.0 < x <= r as real
  {
    if x >= 0.0 then x.Floor else -((-x).Floor)
  }

  /** Python's `float(v)`; None when it raises. */
  function PyFloat(v: Value, conv: Conversions): (r: Option<real>)
    ensures r.Some? ==> v.Bool? || v.Int? || v.Float? || v.Str?
    ensures v.Bool? ==> r == Some(if v.b then 1.0 else 0.0)
    ensures v.Int? ==> r == Some(v.i as real)
    ensures v.Float? ==> r == Some(v.x)
  {
    match v
    case Bool(b) => Some(if b then 1.0 else 0.0)
    case Int(i) => Some(i as real)
    case Float(x) => Some(x)
    case Str(s) => conv.parseFloat(s)
    case _ => None                                        // TypeError
  }

  /** Python's `int(v)`; None when it raises. */
  function PyInt(v: Value, conv: Conversions): (r: Option<int>)
    ensures r.Some? ==> v.Bool? || v.Int? || v.Float? || v.Str?
    ensures v.Bool? ==> r == Some(if v.b then 1 else 0)
    ensures v.Int? ==> r == Some(v.i)
    ensures v.Float? ==> r == Some(Trunc(v.x))
  {
    match v
    case Bool(b) => Some(if b then 1 else 0)
    case Int(i) => Some(i)
    case Float(x) => Some(Trunc(x))
    case Str(s) => conv.parseInt(s)
    case _ => None                                        // TypeError
  }

  /** What `{v}` inserts into an f-string. */
  function Render(v: Value, conv: Conversions): string {
    if v.Str? then v.s else conv.render(v)
  }

  /** `s.startswith(prefix)`. */
  predicate StartsWith(s: string, prefix: string) {
    |prefix| <= |s| && s[..|prefix|] == prefix
  }

  /** `needle` occurs somewhere in `s`: what `re.search` decides for a literal pattern. */
  predicate Contains(s: string, needle: string) {
    exists i :: 0 <= i <= |s| - |needle| && OccursAt(s, needle, i)
  }

  /** `needle` occurs in `s` starting at index `i`. */
  predicate OccursAt(s: string, needle: string, i: int) {
    0 <= i <= |s| - |needle| && s[i..i + |needle|] == needle
  }
}
