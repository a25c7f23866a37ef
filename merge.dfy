/**
  The merge step of `ConstructorBase.construct`: `output_data = {**data, **output_data}`
  applied to each rule's fragment in turn. Because `output_data` is unpacked
  last, a key already in the output keeps its value: the earliest fragment
  that supplies a key wins. A fragment is `None` when its rule raised.
*/
module Merge {
  import opened Wrappers

  /** The keys a fragment adds: none when its rule raised. */
  function Contribution<K, V>(f: Option<map<K, V>>): map<K, V> {
    if f.Some? then f.value else map[]
  }

  /** The output after merging the fragments in order, starting from `{}`. */
  function MergeAll<K, V>(fs: seq<Option<map<K, V>>>): map<K, V>
    decreases |fs|
  {
    if fs == [] then map[]
    else Contribution(fs[|fs| - 1]) + MergeAll(fs[..|fs| - 1])
  }

  /** One more loop iteration: the new fragment goes under the output so far. */
  lemma MergeAppend<K, V>(fs: seq<Option<map<K, V>>>, f: Option<map<K, V>>)
    ensures MergeAll(fs + [f]) == Contribution(f) + MergeAll(fs)
  {
    assert (fs + [f])[..|fs|] == fs;
  }

  /** The output's keys are exactly the union of the keys of the fragments. */
  lemma {:induction false} MergeKeys<K, V>(fs: seq<Option<map<K, V>>>)
    ensures forall k :: k in MergeAll(fs) <==> exists i :: 0 <= i < |fs| && k in Contribution(fs[i])
    decreases |fs|
  {
    if fs != [] {
      var init := fs[..|fs| - 1];
      MergeKeys(init);
      assert forall i :: 0 <= i < |init| ==> init[i] == fs[i];
    }
  }

  /** A key gets its value from the first fragment, in merge order, that supplies it. */
  lemma {:induction false} MergeFirstWriter<K, V>(fs: seq<Option<map<K, V>>>, i: int, k: K)
    requires 0 <= i < |fs| && k in Contribution(fs[i])
    requires forall j :: 0 <= j < i ==> k !in Contribution(fs[j])
    ensures k in MergeAll(fs) && MergeAll(fs)[k] == Contribution(fs[i])[k]
    decreases |fs|
  {
    var init := fs[..|fs| - 1];
    assert forall j :: 0 <= j < |init| ==> init[j] == fs[j];
    if i == |fs| - 1 {
      MergeKeys(init);
    } else {
      MergeFirstWriter(init, i, k);
    }
  }

  /** A key only one fragment supplies is in the output exactly when that fragment supplies it, with its value. */
  lemma MergeSoleWriter<K, V>(fs: seq<Option<map<K, V>>>, i: int, k: K)
    requires 0 <= i < |fs|
    requires forall j :: 0 <= j < |fs| && j != i ==> k !in Contribution(fs[j])
    ensures k in MergeAll(fs) <==> k in Contribution(fs[i])
    ensures k in MergeAll(fs) ==> MergeAll(fs)[k] == Contribution(fs[i])[k]
  {
    if k in Contribution(fs[i]) {
      MergeFirstWriter(fs, i, k);
    } else {
      MergeKeys(fs);
    }
  }

  /** Merging two fragments that share no key gives the same output in either order. */
  lemma {:induction false} MergeSwapDisjoint<K, V>(fs: seq<Option<map<K, V>>>, j: int)
    requires 0 <= j < |fs| - 1
    requires Contribution(fs[j]).Keys !! Contribution(fs[j + 1]).Keys
    ensures MergeAll(fs) == MergeAll(fs[..j] + [fs[j + 1], fs[j]] + fs[j + 2..])
    decreases |fs|
  {
    var gs := fs[..j] + [fs[j + 1], fs[j]] + fs[j + 2..];
    assert |gs| == |fs|;
    if j + 2 == |fs| {
      var pre := fs[..j];
      assert fs[..|fs| - 1] == pre + [fs[j]];
      assert gs[..|gs| - 1] == pre + [fs[j + 1]];
      MergeAppend(pre, fs[j]);
      MergeAppend(pre, fs[j + 1]);
      var a, b, m := Contribution(fs[j]), Contribution(fs[j + 1]), MergeAll(pre);
      assert b + (a + m) == a + (b + m);
    } else {
      var init := fs[..|fs| - 1];
      MergeSwapDisjoint(init, j);
      assert gs[..|gs| - 1] == init[..j] + [init[j + 1], init[j]] + init[j + 2..];
      assert gs[|gs| - 1] == fs[|fs| - 1];
    }
  }
}
