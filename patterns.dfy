/**
  `ConstructorBase._fetch_value_by_regular`: the first-match lookup of a raw
  free-text value against an insertion-ordered `{token: pattern}` dict.
  Every pattern the rules use is a literal or an alternation `a|b|c` of
  literals, so a pattern is the list of its alternatives and `re.search`
  succeeds when the text contains one of them.
*/
module Patterns {
  import opened Wrappers
  import opened PyValues

  /** The alternatives of a regular expression `a|b|c` made of literals. */
  type Pattern = seq<string>

  /** A `{token: pattern}` dict literal, in insertion order. */
  type Table = seq<(string, Pattern)>

  /** `re.search(p, s)` finds a match. */
  predicate Matches(p: Pattern, s: string) {
    exists a :: a in p && Contains(s, a)
  }

  /** The token of the first entry whose pattern matches `raw`, in insertion order. */
  function FirstMatchKey(table: Table, raw: string): Option<string>
    decreases |table|
  {
    if table == [] then None
    else if Matches(table[0].1, raw) then Some(table[0].0)
    else FirstMatchKey(table[1..], raw)
  }

  /** Entry `i` matches and no entry before it does. */
  predicate IsFirstMatch(table: Table, raw: string, i: int) {
    0 <= i < |table| && Matches(table[i].1, raw) &&
    forall j :: 0 <= j < i ==> !Matches(table[j].1, raw)
  }

  /** The lookup yields None exactly when no pattern matches, and otherwise the token of the first matching entry. */
  lemma {:induction false} FirstMatchKeyIsFirst(table: Table, raw: string)
    ensures FirstMatchKey(table, raw).None? <==> forall j :: 0 <= j < |table| ==> !Matches(table[j].1, raw)
    ensures FirstMatchKey(table, raw).Some? ==>
      exists i :: IsFirstMatch(table, raw, i) && table[i].0 == FirstMatchKey(table, raw).value
    decreases |table|
  {
    if table != [] && !Matches(table[0].1, raw) {
      FirstMatchKeyIsFirst(table[1..], raw);
      var r := FirstMatchKey(table[1..], raw);
      assert forall j :: 1 <= j < |table| ==> table[j] == table[1..][j - 1];
      if r.Some? {
        var i :| IsFirstMatch(table[1..], raw, i) && table[1..][i].0 == r.value;
        assert IsFirstMatch(table, raw, i + 1);
      }
    } else if table != [] {
      assert IsFirstMatch(table, raw, 0);
    }
  }

  /** The loop of `_fetch_value_by_regular`, with its early return. */
  method FetchValueByRegular(table: Table, raw: string) returns (r: Option<string>)
    ensures r == FirstMatchKey(table, raw)
    ensures r.None? <==> forall j :: 0 <= j < |table| ==> !Matches(table[j].1, raw)
    ensures r.Some? ==> exists i :: IsFirstMatch(table, raw, i) && table[i].0 == r.value
  {
    var i := 0;
    while i < |table|
      invariant 0 <= i <= |table|
      invariant forall j :: 0 <= j < i ==> !Matches(table[j].1, raw)
      invariant FirstMatchKey(table[i..], raw) == FirstMatchKey(table, raw)
    {
      var (key, pattern) := table[i];
      if Matches(pattern, raw) {
        assert IsFirstMatch(table, raw, i);
        return Some(key);
      }
      assert table[i..][1..] == table[i + 1..];
      i := i + 1;
    }
    r := None;
  }
}
