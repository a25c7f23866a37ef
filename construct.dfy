/**
  `ConstructorBase.construct`: call every rule of the registry on one raw
  record, in registry order, and merge the dict each returns into the
  output; a rule that raises, or returns something that is not a dict, is
  skipped. The canonical record is a `map` (the key order of the Python
  dict is not modelled).
*/
module Construct {
  import opened Wrappers
  import opened PyValues
  import opened Merge
  import opened Rules

  /** One normalised listing record. */
  type Canonical = map<string, Value>

  /** What the merge takes from a rule's outcome: `{**data}` raises unless `data` is a dict. */
  function Merged(o: Outcome): Option<Canonical> {
    match o
    case Returned(Dict(es)) => Some(ToMap(es))
    case _ => None
  }

  /** What each rule yields on the record at hand. */
  type Outcomes = Rule -> Outcome

  /** The outcomes of the registry's rules on `item`. */
  function OutcomesOf(item: Value, conv: Conversions): Outcomes {
    r => ApplyRule(r, item, conv)
  }

  /** Every rule's outcome has the shape its source allows. */
  predicate WellShaped(outs: Outcomes) {
    forall r :: Shaped(r, outs(r))
  }

  /** The fragments the rules yield, in order. */
  function Fragments(rules: seq<Rule>, outs: Outcomes): (fs: seq<Option<Canonical>>)
    ensures |fs| == |rules|
    ensures forall i :: 0 <= i < |rules| ==> fs[i] == Merged(outs(rules[i]))
  {
    seq(|rules|, i requires 0 <= i < |rules| => Merged(outs(rules[i])))
  }

  /** The output of merging the fragments of `rules` in order. */
  function MergeRules(rules: seq<Rule>, outs: Outcomes): Canonical {
    MergeAll(Fragments(rules, outs))
  }

  /** The record `construct` returns, as a function of the raw record. */
  function Normalize(item: Value, conv: Conversions): Canonical {
    MergeRules(Registry, OutcomesOf(item, conv))
  }

  /** The rule neither raised nor returned something the merge rejects. */
  predicate Succeeds(r: Rule, outs: Outcomes) {
    Merged(outs(r)).Some?
  }

  /** The registry's rules yield outcomes of the shape their code allows. */
  lemma OutcomesShaped(item: Value, conv: Conversions)
    ensures WellShaped(OutcomesOf(item, conv))
  {
  }

  /** `construct`: the loop over the registry. */
  method Construct(item: Value, conv: Conversions) returns (out: Canonical)
    ensures out == Normalize(item, conv)
  {
    out := ConstructWith(Registry, item, conv);
  }

  /** The loop of `construct` over the given rules, with the `try`/`except` around each rule. */
  method ConstructWith(rules: seq<Rule>, item: Value, conv: Conversions) returns (out: Canonical)
    ensures out == MergeRules(rules, OutcomesOf(item, conv))
  {
    ghost var outs := OutcomesOf(item, conv);
    out := map[];
    for i := 0 to |rules|
      invariant out == MergeRules(rules[..i], outs)
    {
      var r := rules[i];
      var o := Invoke(r, item, conv);
      MergeRulesStep(rules, i, outs, o);
      if o.Returned? && o.value.Dict? {
        out := ToMap(o.value.entries) + out;   // {**data, **output_data}
      }
    }
    assert rules[..|rules|] == rules;
  }

  /** One iteration of the loop: rule `i`'s fragment goes under the output so far. */
  lemma MergeRulesStep(rules: seq<Rule>, i: int, outs: Outcomes, o: Outcome)
    requires 0 <= i < |rules| && o == outs(rules[i])
    ensures MergeRules(rules[..i + 1], outs) == Contribution(Merged(o)) + MergeRules(rules[..i], outs)
  {
    assert rules[..i + 1] == rules[..i] + [rules[i]];
    MergeRulesSnoc(rules[..i], rules[i], outs);
  }

  /** Appending a rule appends its fragment. */
  lemma MergeRulesSnoc(rules: seq<Rule>, r: Rule, outs: Outcomes)
    ensures MergeRules(rules + [r], outs) == Contribution(Merged(outs(r))) + MergeRules(rules, outs)
  {
    assert Fragments(rules + [r], outs) == Fragments(rules, outs) + [Merged(outs(r))];
    MergeAppend(Fragments(rules, outs), Merged(outs(r)));
  }

  /** A rule's fragment holds its own field when it succeeds, and nothing otherwise. */
  lemma ContributionKeys(r: Rule, outs: Outcomes)
    requires WellShaped(outs)
    ensures Target(r).None? ==> Contribution(Merged(outs(r))) == map[]
    ensures Target(r).Some? ==>
      Contribution(Merged(outs(r))).Keys <= {Target(r).value} &&
      (Target(r).value in Contribution(Merged(outs(r))) <==> Succeeds(r, outs))
  {
    var o := outs(r);
    assert Shaped(r, o);
    if o.Returned? && o.value.Dict? {
      var es := o.value.entries;
      if Target(r).Some? {
        assert es[0].0 == Target(r).value;
      }
    }
  }

  /** Only the rule that owns a field can put it into a fragment. */
  lemma OnlyOwnerWrites(r: Rule, s: Rule, outs: Outcomes)
    requires WellShaped(outs) && Target(r).Some?
    requires Target(r).value in Contribution(Merged(outs(s)))
    ensures s == r
  {
    ContributionKeys(s, outs);
    TargetsDistinct();
  }

  /** In a list without repeats, no rule other than the owner writes the owner's field. */
  lemma NoOtherWriter(rules: seq<Rule>, outs: Outcomes, i: int, j: int)
    requires WellShaped(outs) && Distinct(rules) && 0 <= i < |rules| && 0 <= j < |rules|
    requires i != j && Target(rules[i]).Some?
    ensures Target(rules[i]).value !in Contribution(Merged(outs(rules[j])))
  {
    if Target(rules[i]).value in Contribution(Merged(outs(rules[j]))) {
      OnlyOwnerWrites(rules[i], rules[j], outs);
    }
  }

  /** A field with an owning rule is in the output exactly when that rule succeeds, with that rule's value. */
  lemma FieldOf(rules: seq<Rule>, r: Rule, outs: Outcomes)
    requires WellShaped(outs) && Distinct(rules) && r in rules && Target(r).Some?
    ensures Target(r).value in MergeRules(rules, outs) <==> Succeeds(r, outs)
    ensures Succeeds(r, outs) ==>
      MergeRules(rules, outs)[Target(r).value] == Merged(outs(r)).value[Target(r).value]
  {
    var k, fs := Target(r).value, Fragments(rules, outs);
    var i :| 0 <= i < |rules| && rules[i] == r;
    ContributionKeys(r, outs);
    forall j | 0 <= j < |fs| && j != i ensures k !in Contribution(fs[j]) {
      NoOtherWriter(rules, outs, i, j);
    }
    MergeSoleWriter(fs, i, k);
  }

  /** The output's keys are exactly the fields of the rules that succeed. */
  lemma KeysOfMerge(rules: seq<Rule>, outs: Outcomes)
    requires WellShaped(outs)
    ensures forall k :: k in MergeRules(rules, outs) <==>
      exists r :: r in rules && Target(r) == Some(k) && Succeeds(r, outs)
  {
    forall k | k in MergeRules(rules, outs)
      ensures exists r :: r in rules && Target(r) == Some(k) && Succeeds(r, outs)
    {
      MergedKeyHasWriter(rules, outs, k);
    }
    forall k, r | r in rules && Target(r) == Some(k) && Succeeds(r, outs)
      ensures k in MergeRules(rules, outs)
    {
      WriterKeyMerged(rules, outs, r);
    }
  }

  /** Every key of the output is the field of a rule that succeeded. */
  lemma MergedKeyHasWriter(rules: seq<Rule>, outs: Outcomes, k: string)
    requires WellShaped(outs) && k in MergeRules(rules, outs)
    ensures exists r :: r in rules && Target(r) == Some(k) && Succeeds(r, outs)
  {
    var fs := Fragments(rules, outs);
    MergeKeys(fs);
    var j :| 0 <= j < |fs| && k in Contribution(fs[j]);
    ContributionKeys(rules[j], outs);
    assert Target(rules[j]) == Some(k) && Succeeds(rules[j], outs);
  }

  /** The field of every rule that succeeded is in the output. */
  lemma WriterKeyMerged(rules: seq<Rule>, outs: Outcomes, r: Rule)
    requires WellShaped(outs) && r in rules && Target(r).Some? && Succeeds(r, outs)
    ensures Target(r).value in MergeRules(rules, outs)
  {
    var fs := Fragments(rules, outs);
    MergeKeys(fs);
    var i :| 0 <= i < |rules| && rules[i] == r;
    ContributionKeys(r, outs);
    assert Target(r).value in Contribution(fs[i]);
  }

  /** `rules` without the ones `drop` selects, in the same order. */
  function Without(rules: seq<Rule>, drop: Rule -> bool): (rs: seq<Rule>)
    ensures forall r :: r in rs <==> r in rules && !drop(r)
    ensures |rs| <= |rules|
    decreases |rules|
  {
    if rules == [] then []
    else
      var init, last := rules[..|rules| - 1], rules[|rules| - 1];
      assert rules == init + [last];
      Without(init, drop) + (if drop(last) then [] else [last])
  }

  /** Rules whose fragment adds nothing can be left out without changing the output. */
  lemma {:induction false} DropInert(rules: seq<Rule>, drop: Rule -> bool, outs: Outcomes)
    requires forall r :: r in rules && drop(r) ==> Contribution(Merged(outs(r))) == map[]
    ensures MergeRules(rules, outs) == MergeRules(Without(rules, drop), outs)
    decreases |rules|
  {
    if rules != [] {
      var init, last := rules[..|rules| - 1], rules[|rules| - 1];
      assert rules == init + [last];
      assert last in rules;
      DropInert(init, drop, outs);
      DropLast(init, last, drop, outs);
    }
  }

  /** One step of `DropInert`: the last rule is either dropped and inert, or kept on both sides. */
  lemma DropLast(init: seq<Rule>, last: Rule, drop: Rule -> bool, outs: Outcomes)
    requires drop(last) ==> Contribution(Merged(outs(last))) == map[]
    requires MergeRules(init, outs) == MergeRules(Without(init, drop), outs)
    ensures MergeRules(init + [last], outs) == MergeRules(Without(init + [last], drop), outs)
  {
    var w := Without(init, drop);
    WithoutSnoc(init, last, drop);
    MergeRulesSnoc(init, last, outs);
    if drop(last) {
      assert w + [] == w;
      EmptyUnder(MergeRules(init, outs));
    } else {
      MergeRulesSnoc(w, last, outs);
    }
  }

  /** `Without` of a sequence with one more rule. */
  lemma WithoutSnoc(init: seq<Rule>, last: Rule, drop: Rule -> bool)
    ensures Without(init + [last], drop) == Without(init, drop) + (if drop(last) then [] else [last])
  {
    var rules := init + [last];
    assert rules[..|rules| - 1] == init;
  }

  /** An empty fragment leaves the output as it is. */
  lemma EmptyUnder(m: Canonical)
    ensures map[] + m == m
  {
  }

  /** Two neighbouring, different rules can be run in either order: they write disjoint fields. */
  lemma SwapNeighbours(rules: seq<Rule>, outs: Outcomes, j: int)
    requires WellShaped(outs) && 0 <= j < |rules| - 1 && rules[j] != rules[j + 1]
    ensures MergeRules(rules, outs) ==
      MergeRules(rules[..j] + [rules[j + 1], rules[j]] + rules[j + 2..], outs)
  {
    var fs := Fragments(rules, outs);
    DisjointFragments(rules[j], rules[j + 1], outs);
    MergeSwapDisjoint(fs, j);
    FragmentsSwap(rules, outs, j);
  }

  /** Different rules contribute disjoint sets of keys. */
  lemma DisjointFragments(a: Rule, b: Rule, outs: Outcomes)
    requires WellShaped(outs) && a != b
    ensures Contribution(Merged(outs(a))).Keys !! Contribution(Merged(outs(b))).Keys
  {
    ContributionKeys(a, outs);
    ContributionKeys(b, outs);
    TargetsDistinct();
  }

  /** Swapping two neighbouring rules swaps their fragments. */
  lemma FragmentsSwap(rules: seq<Rule>, outs: Outcomes, j: int)
    requires 0 <= j < |rules| - 1
    ensures var fs := Fragments(rules, outs);
      fs[..j] + [fs[j + 1], fs[j]] + fs[j + 2..] ==
      Fragments(rules[..j] + [rules[j + 1], rules[j]] + rules[j + 2..], outs)
  {
  }

  // ---- the registry on one record ------------------------------------------

  /** A field of `construct`'s result is there exactly when its rule succeeds on the record, with the rule's value. */
  lemma NormalizeField(item: Value, conv: Conversions, r: Rule)
    requires Target(r).Some?
    ensures Target(r).value in Normalize(item, conv) <==> Succeeds(r, OutcomesOf(item, conv))
    ensures Succeeds(r, OutcomesOf(item, conv)) ==>
      Normalize(item, conv)[Target(r).value] == Merged(ApplyRule(r, item, conv)).value[Target(r).value]
  {
    RegistryListsEachRuleOnce();
    OutcomesShaped(item, conv);
    FieldOf(Registry, r, OutcomesOf(item, conv));
  }

  /** The keys of `construct`'s result are the fields of the rules that succeed on the record. */
  lemma NormalizeKeys(item: Value, conv: Conversions)
    ensures forall k :: k in Normalize(item, conv) <==>
      exists r :: Target(r) == Some(k) && Succeeds(r, OutcomesOf(item, conv))
  {
    RegistryListsEachRuleOnce();
    OutcomesShaped(item, conv);
    KeysOfMerge(Registry, OutcomesOf(item, conv));
  }

  /** The list `_get_feature` returns never reaches the result: `{**list}` raises. */
  lemma FeatureNeverMerged(item: Value, conv: Conversions)
    ensures !Succeeds(Feature, OutcomesOf(item, conv))
    ensures "feature" !in Normalize(item, conv)
  {
    NormalizeKeys(item, conv);
    TargetsDistinct();
  }

  /** Dropping the rules that raise, and the rules that return `{}`, leaves the result unchanged. */
  lemma FailingAndSilentRulesIgnored(item: Value, conv: Conversions)
    ensures Normalize(item, conv) ==
      MergeRules(Without(Registry, r => Silent(r) || !Succeeds(r, OutcomesOf(item, conv))), OutcomesOf(item, conv))
  {
    var outs := OutcomesOf(item, conv);
    forall r | Silent(r) || !Succeeds(r, outs) ensures Contribution(Merged(outs(r))) == map[] {
      if Silent(r) {
        assert outs(r) == Returned(Dict([]));
      }
    }
    DropInert(Registry, r => Silent(r) || !Succeeds(r, outs), outs);
  }
}
