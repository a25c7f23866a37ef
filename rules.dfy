/**
  The per-field extraction rules of `Constructor` (the `_get_*` methods) and
  the registry `construct` runs them from. Each rule takes one raw listing
  record and either raises or returns a value, normally a one-entry dict
  `{field: value}`; `construct` merges only the returned dicts.
*/
module Rules {
  import opened Wrappers
  import opened PyValues
  import opened Patterns

  /**
    One `_get_*` method of `Constructor`; `Area` is `_get_area`,
    `DiscountPercent` is `_get_discount_percent`, and so on.
  */
  datatype Rule =
    | Area | Article | Building | Ceil | Comment | Complex | Currency | Discount
    | DiscountPercent | EuroPlanning | Feature | Finished | FinishingName | Floor
    | Furniture | FurniturePrice | InSale | LivingArea | Number | NumberOnSite
    | Phase | Plan | PriceBase | PriceFinished | PriceFinishedSale | PriceSale
    | Rooms | Sale | SaleStatus | Section | Type | View

  /** The rule at position `i` of the registry. */
  function RuleAt(i: int): Rule
    requires 0 <= i < 32
  {
    match i
    case 0 => Area
    case 1 => Article
    case 2 => Building
    case 3 => Ceil
    case 4 => Comment
    case 5 => Complex
    case 6 => Currency
    case 7 => Discount
    case 8 => DiscountPercent
    case 9 => EuroPlanning
    case 10 => Feature
    case 11 => Finished
    case 12 => FinishingName
    case 13 => Floor
    case 14 => Furniture
    case 15 => FurniturePrice
    case 16 => InSale
    case 17 => LivingArea
    case 18 => Number
    case 19 => NumberOnSite
    case 20 => Phase
    case 21 => Plan
    case 22 => PriceBase
    case 23 => PriceFinished
    case 24 => PriceFinishedSale
    case 25 => PriceSale
    case 26 => Rooms
    case 27 => Sale
    case 28 => SaleStatus
    case 29 => Section
    case 30 => Type
    case _ => View
  }

  /**
    The rules in the order `dir(self)` lists their names (sorted by code
    point: `_get_area` < `_get_article` < ... < `_get_view`), which is the
    order `construct` calls them in.
  */
  const Registry: seq<Rule> := DirOrder()

  /** The 32 rules, position by position. */
  function DirOrder(): seq<Rule> {
    seq(32, i requires 0 <= i < 32 => RuleAt(i))
  }

  /** Where a rule sits in the registry. */
  function IndexOf(r: Rule): (i: nat)
    ensures i < 32 && RuleAt(i) == r
  {
    match r
    case Area => 0
    case Article => 1
    case Building => 2
    case Ceil => 3
    case Comment => 4
    case Complex => 5
    case Currency => 6
    case Discount => 7
    case DiscountPercent => 8
    case EuroPlanning => 9
    case Feature => 10
    case Finished => 11
    case FinishingName => 12
    case Floor => 13
    case Furniture => 14
    case FurniturePrice => 15
    case InSale => 16
    case LivingArea => 17
    case Number => 18
    case NumberOnSite => 19
    case Phase => 20
    case Plan => 21
    case PriceBase => 22
    case PriceFinished => 23
    case PriceFinishedSale => 24
    case PriceSale => 25
    case Rooms => 26
    case Sale => 27
    case SaleStatus => 28
    case Section => 29
    case Type => 30
    case View => 31
  }

  /** No rule occurs twice. */
  predicate Distinct(rules: seq<Rule>) {
    forall i, j :: 0 <= i < j < |rules| ==> rules[i] != rules[j]
  }

  /** The registry holds every rule exactly once. */
  lemma RegistryListsEachRuleOnce()
    ensures forall r :: r in Registry
    ensures forall i :: 0 <= i < |Registry| ==> IndexOf(Registry[i]) == i
    ensures Distinct(Registry)
  {
    assert |Registry| == 32;
    forall r ensures r in Registry {
      assert Registry[IndexOf(r)] == r;
    }
  }

  /** A one-entry dict `{key: v}`. */
  function Field(key: string, v: Value): Value {
    Dict([(key, v)])
  }

  /** The key of the dict literal a rule returns; None for the rules returning `{}` and for `_get_feature`, which returns a list. */
  function Target(r: Rule): Option<string> {
    match r
    case Area => Some("area")
    case Building => Some("building")
    case Ceil => Some("ceil")
    case Complex => Some("complex")
    case EuroPlanning => Some("euro_planning")
    case Finished => Some("finished")
    case FinishingName => Some("finishing_name")
    case Floor => Some("floor")
    case Furniture => Some("furniture")
    case FurniturePrice => Some("furniture_price")
    case InSale => Some("in_sale")
    case LivingArea => Some("living_area")
    case Number => Some("number")
    case NumberOnSite => Some("number_on_site")
    case Phase => Some("phrase")
    case Plan => Some("plan")
    case PriceBase => Some("price_base")
    case PriceFinished => Some("price_finished")
    case PriceFinishedSale => Some("price_finished_sale")
    case PriceSale => Some("price_sale")
    case Rooms => Some("rooms")
    case Sale => Some("sale")
    case SaleStatus => Some("sale_status")
    case Section => Some("section")
    case Type => Some("type")
    case View => Some("view")
    case Article => None
    case Comment => None
    case Currency => None
    case Discount => None
    case DiscountPercent => None
    case Feature => None
  }

  /** The rules that return `{}`. */
  predicate Silent(r: Rule) {
    r == Article || r == Comment || r == Currency || r == Discount || r == DiscountPercent
  }

  /** The rule whose dict literal uses `key`, if any. */
  function RuleFor(key: string): Option<Rule> {
    match key
    case "area" => Some(Area)
    case "building" => Some(Building)
    case "ceil" => Some(Ceil)
    case "complex" => Some(Complex)
    case "euro_planning" => Some(EuroPlanning)
    case "finished" => Some(Finished)
    case "finishing_name" => Some(FinishingName)
    case "floor" => Some(Floor)
    case "furniture" => Some(Furniture)
    case "furniture_price" => Some(FurniturePrice)
    case "in_sale" => Some(InSale)
    case "living_area" => Some(LivingArea)
    case "number" => Some(Number)
    case "number_on_site" => Some(NumberOnSite)
    case "phrase" => Some(Phase)
    case "plan" => Some(Plan)
    case "price_base" => Some(PriceBase)
    case "price_finished" => Some(PriceFinished)
    case "price_finished_sale" => Some(PriceFinishedSale)
    case "price_sale" => Some(PriceSale)
    case "rooms" => Some(Rooms)
    case "sale" => Some(Sale)
    case "sale_status" => Some(SaleStatus)
    case "section" => Some(Section)
    case "type" => Some(Type)
    case "view" => Some(View)
    case _ => None
  }

  /** `RuleFor` inverts `Target`. */
  lemma TargetInverse(r: Rule)
    ensures Target(r).Some? ==> RuleFor(Target(r).value) == Some(r)
  {
  }

  /** No two rules write the same key, and no rule writes `feature`. */
  lemma TargetsDistinct()
    ensures forall r1, r2 :: Target(r1).Some? && Target(r1) == Target(r2) ==> r1 == r2
    ensures forall r :: Target(r) != Some("feature")
  {
    forall r1, r2 | Target(r1).Some? && Target(r1) == Target(r2) ensures r1 == r2 {
      TargetInverse(r1);
      TargetInverse(r2);
    }
    forall r ensures Target(r) != Some("feature") {
      TargetInverse(r);
      assert RuleFor("feature") == None;
    }
  }

  // ---- the rules that do not read the record -------------------------------

  /**
    What the rules that ignore the record return: `_get_complex` the complex
    name, `_get_finished` 1, `_get_currency`, `_get_article`,
    `_get_discount_percent`, `_get_discount` and `_get_comment` an empty dict,
    and the others `{field: None}`. None for the rules that read the record.
  */
  function ConstantResult(r: Rule): Option<Value> {
    match r
    case Complex => Some(Field("complex", Str("Достижение (Москва)")))
    case Phase => Some(Field("phrase", Null))
    case Building => Some(Field("building", Null))
    case PriceBase => Some(Field("price_base", Null))
    case PriceSale => Some(Field("price_sale", Null))
    case PriceFinishedSale => Some(Field("price_finished_sale", Null))
    case LivingArea => Some(Field("living_area", Null))
    case NumberOnSite => Some(Field("number_on_site", Null))
    case Finished => Some(Field("finished", Int(1)))
    case Currency => Some(Dict([]))
    case Ceil => Some(Field("ceil", Null))
    case Article => Some(Dict([]))
    case FinishingName => Some(Field("finishing_name", Null))
    case FurniturePrice => Some(Field("furniture_price", Null))
    case EuroPlanning => Some(Field("euro_planning", Null))
    case Sale => Some(Field("sale", Null))
    case DiscountPercent => Some(Dict([]))
    case Discount => Some(Dict([]))
    case Comment => Some(Dict([]))
    case _ => None
  }

  // ---- the rules that read the record --------------------------------------

  /** `{field: f(item[key])}`: raises when the subscript or `f` does. */
  function FromKey(item: Value, key: string, field: string, f: Value -> Option<Value>): (o: Outcome)
    ensures o.Returned? ==> o.value.Dict? && |o.value.entries| == 1 && o.value.entries[0].0 == field
  {
    match Subscript(item, key)
    case Raised => Raised
    case Returned(v) =>
      match f(v)
      case None => Raised
      case Some(w) => Returned(Field(field, w))
  }

  /** The `possible_values` dict of `_get_type`. */
  const TypeTable: Table := [
    ("flat", ["квартира"]),
    ("apartment", ["апартамент"]),
    ("parking", ["машиноместо", "паркинг"]),
    ("townhouse", ["таунхаус", "коттедж", "дуплекс"])]

  /** The token `_fetch_value_by_regular` picks; `re.search` raises on a non-string (the table is never empty). */
  function TypeOf(v: Value): Option<Value> {
    if !v.Str? then None
    else match FirstMatchKey(TypeTable, v.s)
      case Some(k) => Some(Str(k))
      case None => Some(Null)
  }

  /** The lookup over the type table yields one of its four tokens. */
  lemma TypeTokenOf(raw: string)
    ensures FirstMatchKey(TypeTable, raw).Some? ==>
      FirstMatchKey(TypeTable, raw).value in {"flat", "apartment", "parking", "townhouse"}
  {
    FirstMatchKeyIsFirst(TypeTable, raw);
    if FirstMatchKey(TypeTable, raw).Some? {
      var i :| IsFirstMatch(TypeTable, raw, i) && TypeTable[i].0 == FirstMatchKey(TypeTable, raw).value;
      assert i == 0 || i == 1 || i == 2 || i == 3;
    }
  }

  /** A studio flat is a flat: the first pattern already matches. */
  lemma StudioIsFlat()
    ensures FirstMatchKey(TypeTable, "квартира-студия") == Some("flat")
  {
    assert OccursAt("квартира-студия", "квартира", 0);
    assert "квартира" in TypeTable[0].1;
  }

  /** `_get_type`. */
  function GetType(item: Value): Outcome {
    FromKey(item, "type", "type", TypeOf)
  }

  /** `float(x)` as a field value. */
  function FloatOf(v: Value, conv: Conversions): Option<Value> {
    match PyFloat(v, conv)
    case None => None
    case Some(x) => Some(Float(x))
  }

  /** `int(x)` as a field value. */
  function IntOf(v: Value, conv: Conversions): Option<Value> {
    match PyInt(v, conv)
    case None => None
    case Some(n) => Some(Int(n))
  }

  /** The status text `_get_sale_status` writes for a reserved object. */
  const Reserved: string := "Забронированно"

  /** `re.search('furniture', x)`: raises on a non-string. */
  function FurnitureOf(v: Value): Option<Value> {
    if !v.Str? then None
    else Some(Int(if Matches(["furniture"], v.s) then 1 else 0))
  }

  /** The prefix `_get_plan` puts before the relative `pdf` path. */
  const SiteRoot: string := "https://dom-dostigenie.ru"

  /** `[x['name'] for x in xs]`, or None when some subscript raises. */
  function Names(xs: seq<Value>): Option<seq<Value>>
    decreases |xs|
  {
    if xs == [] then Some([])
    else match Names(xs[..|xs| - 1])
      case None => None
      case Some(ns) =>
        match Subscript(xs[|xs| - 1], "name")
        case Raised => None
        case Returned(n) => Some(ns + [n])
  }

  /** `_get_feature` returns a bare list of the advantage names, not a dict. */
  function GetFeature(item: Value): (o: Outcome)
    ensures o.Returned? ==> o.value.List?
  {
    match Subscript(item, "advantages")
    case Raised => Raised
    case Returned(adv) =>
      match Iterate(adv)
      case None => Raised
      case Some(xs) =>
        match Names(xs)
        case None => Raised
        case Some(ns) => Returned(List(ns))
  }

  /** The key prefix `_get_view` collects. */
  const ViewPrefix: string := "window_view_"

  /** `[k for k in ks if k.startswith('window_view_')]`; None when some `k` is not a string. */
  function ViewKeys(ks: seq<Value>): Option<seq<string>>
    decreases |ks|
  {
    if ks == [] then Some([])
    else match ViewKeys(ks[..|ks| - 1])
      case None => None
      case Some(fs) =>
        var k := ks[|ks| - 1];
        if !k.Str? then None
        else if StartsWith(k.s, ViewPrefix) then Some(fs + [k.s])
        else Some(fs)
  }

  /** `[item[f] for f in fields]`, or None when some subscript raises. */
  function Lookups(item: Value, fields: seq<string>): Option<seq<Value>>
    decreases |fields|
  {
    if fields == [] then Some([])
    else match Lookups(item, fields[..|fields| - 1])
      case None => None
      case Some(vs) =>
        match Subscript(item, fields[|fields| - 1])
        case Raised => None
        case Returned(v) => Some(vs + [v])
  }

  /** `_get_view`: the values of the `window_view_*` keys, in key order. */
  function GetView(item: Value): (o: Outcome)
    ensures o.Returned? ==> o.value.Dict? && |o.value.entries| == 1 && o.value.entries[0].0 == "view"
    ensures o.Returned? ==> o.value.entries[0].1.List?
  {
    match Iterate(item)
    case None => Raised
    case Some(ks) =>
      match ViewKeys(ks)
      case None => Raised
      case Some(fields) =>
        match Lookups(item, fields)
        case None => Raised
        case Some(views) => Returned(Field("view", List(views)))
  }

  /** The comprehension succeeds exactly when every element has a `name`, and then lists those names in order. */
  lemma {:induction false} NamesSpec(xs: seq<Value>)
    ensures Names(xs).Some? <==> forall i :: 0 <= i < |xs| ==> Subscript(xs[i], "name").Returned?
    ensures Names(xs).Some? ==> (|Names(xs).value| == |xs| &&
      forall i :: 0 <= i < |xs| ==> Names(xs).value[i] == Subscript(xs[i], "name").value)
    decreases |xs|
  {
    if xs != [] {
      var init := xs[..|xs| - 1];
      NamesSpec(init);
      assert forall i :: 0 <= i < |init| ==> init[i] == xs[i];
    }
  }

  /** `_get_feature` returns exactly when the record's `advantages` is iterable and each element has a `name`: the list of those names. */
  lemma FeatureSpec(item: Value)
    ensures GetFeature(item).Returned? <==>
      Subscript(item, "advantages").Returned? && Iterate(Subscript(item, "advantages").value).Some? &&
      var xs := Iterate(Subscript(item, "advantages").value).value;
      forall i :: 0 <= i < |xs| ==> Subscript(xs[i], "name").Returned?
    ensures GetFeature(item).Returned? ==>
      var xs := Iterate(Subscript(item, "advantages").value).value;
      var names := GetFeature(item).value.items;
      |names| == |xs| && forall i :: 0 <= i < |xs| ==> names[i] == Subscript(xs[i], "name").value
  {
    var adv := Subscript(item, "advantages");
    if adv.Returned? && Iterate(adv.value).Some? {
      NamesSpec(Iterate(adv.value).value);
    }
  }

  /** The key filter succeeds exactly when every key is a string; it keeps exactly the keys with the `window_view_` prefix. */
  lemma {:induction false} ViewKeysSpec(ks: seq<Value>)
    ensures ViewKeys(ks).Some? <==> forall i :: 0 <= i < |ks| ==> ks[i].Str?
    ensures ViewKeys(ks).Some? ==>
      (forall f :: f in ViewKeys(ks).value ==> StartsWith(f, ViewPrefix) && Str(f) in ks) &&
      (forall i :: 0 <= i < |ks| && StartsWith(ks[i].s, ViewPrefix) ==> ks[i].s in ViewKeys(ks).value)
    decreases |ks|
  {
    if ks != [] {
      var init := ks[..|ks| - 1];
      ViewKeysSpec(init);
      assert forall i :: 0 <= i < |init| ==> init[i] == ks[i];
    }
  }

  /**
    The positions of the keys with the `window_view_` prefix, in increasing
    order: each such key once, and no other position.
  */
  function ViewPositions(ks: seq<Value>): (idx: seq<int>)
    ensures forall j :: 0 <= j < |idx| ==> 0 <= idx[j] < |ks|
    ensures forall j, j' :: 0 <= j < j' < |idx| ==> idx[j] < idx[j']
    ensures forall i :: 0 <= i < |ks| ==> (i in idx <==> ks[i].Str? && StartsWith(ks[i].s, ViewPrefix))
    decreases |ks|
  {
    if ks == [] then []
    else
      var init := ks[..|ks| - 1];
      var k := ks[|ks| - 1];
      assert forall i :: 0 <= i < |init| ==> init[i] == ks[i];
      ViewPositions(init) + if k.Str? && StartsWith(k.s, ViewPrefix) then [|ks| - 1] else []
  }

  /** The key filter keeps the prefixed keys in iteration order, one entry per position, repeats included. */
  lemma {:induction false} ViewKeysInOrder(ks: seq<Value>)
    ensures ViewKeys(ks).Some? ==> |ViewKeys(ks).value| == |ViewPositions(ks)|
    ensures ViewKeys(ks).Some? ==>
      forall j :: 0 <= j < |ViewPositions(ks)| ==> ks[ViewPositions(ks)[j]] == Str(ViewKeys(ks).value[j])
    decreases |ks|
  {
    if ks != [] {
      var init := ks[..|ks| - 1];
      ViewKeysInOrder(init);
      assert forall i :: 0 <= i < |init| ==> init[i] == ks[i];
    }
  }

  /** The lookups succeed exactly when every field is a key of the record, and then list the values in field order. */
  lemma {:induction false} LookupsSpec(item: Value, fields: seq<string>)
    ensures Lookups(item, fields).Some? <==> forall j :: 0 <= j < |fields| ==> Subscript(item, fields[j]).Returned?
    ensures Lookups(item, fields).Some? ==> (|Lookups(item, fields).value| == |fields| &&
      forall j :: 0 <= j < |fields| ==> Lookups(item, fields).value[j] == Subscript(item, fields[j]).value)
    decreases |fields|
  {
    if fields != [] {
      var init := fields[..|fields| - 1];
      LookupsSpec(item, init);
      assert forall j :: 0 <= j < |init| ==> init[j] == fields[j];
    }
  }

  /** On a dict, the key filter keeps exactly the keys with the `window_view_` prefix. */
  lemma ViewKeysOfDict(es: seq<(string, Value)>)
    ensures ViewKeys(Iterate(Dict(es)).value).Some?
    ensures forall f :: f in ViewKeys(Iterate(Dict(es)).value).value <==>
      StartsWith(f, ViewPrefix) && Lookup(es, f).Some?
  {
    var ks := Iterate(Dict(es)).value;
    ViewKeysSpec(ks);
    var fields := ViewKeys(ks).value;
    forall f | f in fields ensures Lookup(es, f).Some? {
      var i :| 0 <= i < |ks| && ks[i] == Str(f);
      assert es[i].0 == f;
      LookupSpec(es, f);
    }
    forall f | StartsWith(f, ViewPrefix) && Lookup(es, f).Some? ensures f in fields {
      LookupSpec(es, f);
      var i :| 0 <= i < |es| && es[i] == (f, Lookup(es, f).value) && forall j :: 0 <= j < i ==> es[j].0 != f;
      assert ks[i].s == f;
    }
  }

  /** On a dict, `_get_view` always returns, and its list holds exactly the values of the `window_view_` keys. */
  lemma ViewOfDict(es: seq<(string, Value)>)
    ensures GetView(Dict(es)).Returned?
    ensures forall v :: v in GetView(Dict(es)).value.entries[0].1.items <==>
      exists f :: StartsWith(f, ViewPrefix) && Lookup(es, f) == Some(v)
  {
    var item := Dict(es);
    ViewKeysOfDict(es);
    var fields := ViewKeys(Iterate(item).value).value;
    LookupsSpec(item, fields);
    var views := Lookups(item, fields).value;
    assert GetView(item) == Returned(Field("view", List(views)));
    forall v | v in views ensures exists f :: StartsWith(f, ViewPrefix) && Lookup(es, f) == Some(v) {
      var j :| 0 <= j < |fields| && views[j] == v;
      assert fields[j] in fields;
    }
    forall f | StartsWith(f, ViewPrefix) && Lookup(es, f).Some? ensures Lookup(es, f).value in views {
      var j :| 0 <= j < |fields| && fields[j] == f;
      assert views[j] == Lookup(es, f).value;
    }
  }

  /**
    `views` lists, in key order, one value per `window_view_` key of the
    dict: the value the key is bound to.
  */
  predicate ViewsInOrder(es: seq<(string, Value)>, views: seq<Value>) {
    var idx := ViewPositions(KeysOf(es));
    |views| == |idx| &&
    forall j :: 0 <= j < |idx| ==> Lookup(es, es[idx[j]].0) == Some(views[j])
  }

  /** On a dict, `_get_view` lists the values of the `window_view_` keys in key order, one per key. */
  lemma ViewInOrder(es: seq<(string, Value)>)
    ensures GetView(Dict(es)).Returned?
    ensures ViewsInOrder(es, GetView(Dict(es)).value.entries[0].1.items)
  {
    var item, ks := Dict(es), KeysOf(es);
    ViewKeysSpec(ks);
    ViewKeysInOrder(ks);
    var fields := ViewKeys(ks).value;
    forall j | 0 <= j < |fields| ensures Subscript(item, fields[j]).Returned? {
      assert ks[ViewPositions(ks)[j]] == Str(fields[j]);
      LookupSpec(es, fields[j]);
    }
    LookupsSpec(item, fields);
    var views := Lookups(item, fields).value;
    assert GetView(item) == Returned(Field("view", List(views)));
    forall j | 0 <= j < |fields| ensures Lookup(es, es[ViewPositions(ks)[j]].0) == Some(views[j]) {
      assert ks[ViewPositions(ks)[j]] == Str(fields[j]);
    }
  }

  /** In a dict without repeated keys, the `j`-th view is the value of the `j`-th prefixed entry. */
  lemma ViewsOfDistinctKeys(es: seq<(string, Value)>, views: seq<Value>)
    requires ViewsInOrder(es, views)
    ensures DistinctKeys(es) ==> forall j :: 0 <= j < |views| ==> views[j] == es[ViewPositions(KeysOf(es))[j]].1
  {
    var idx := ViewPositions(KeysOf(es));
    forall j | 0 <= j < |views| ensures DistinctKeys(es) ==> views[j] == es[idx[j]].1 {
      LookupDistinct(es, idx[j]);
    }
  }

  /** The rules that read the record, by name. */
  function RecordRule(r: Rule, item: Value, conv: Conversions): (o: Outcome)
    requires ConstantResult(r).None?
    ensures Shaped(r, o)
  {
    match r
    case Type => GetType(item)
    case Section => FromKey(item, "section", "section", v => Some(v))
    case PriceFinished => FromKey(item, "real_price", "price_finished", v => FloatOf(v, conv))
    case Area => FromKey(item, "sq", "area", v => FloatOf(v, conv))
    case Number => FromKey(item, "num", "number", v => Some(v))
    case Rooms => FromKey(item, "rooms", "rooms", v => IntOf(v, conv))
    case Floor => FromKey(item, "floor", "floor", v => IntOf(v, conv))
    case InSale => FromKey(item, "real_price", "in_sale", v => Some(Int(if Truthy(v) then 1 else 0)))
    case SaleStatus =>
      FromKey(item, "reserved", "sale_status", v => Some(if v == Str("true") then Str(Reserved) else Null))
    case Furniture => FromKey(item, "scheme_folder", "furniture", FurnitureOf)
    case Plan =>
      FromKey(item, "pdf", "plan", v => Some(if Truthy(v) then Str(SiteRoot + Render(v, conv)) else Null))
    case Feature => GetFeature(item)
    case View => GetView(item)
    case _ => assert false; Raised
  }

  /**
    A rule that returns normally returns `{}` (exactly the silent rules),
    a one-entry dict `{Target(r): v}` or, for `_get_feature`, a list.
  */
  predicate Shaped(r: Rule, o: Outcome) {
    o.Returned? ==>
      if r == Feature then o.value.List?
      else if Target(r).None? then o.value == Dict([])
      else o.value.Dict? && |o.value.entries| == 1 && o.value.entries[0].0 == Target(r).value
  }

  /** The constant results have the shape of their rule. */
  lemma ConstantShaped(r: Rule)
    ensures ConstantResult(r).Some? ==> Shaped(r, Returned(ConstantResult(r).value))
  {
  }

  /** The silent rules return `{}` without reading the record. */
  lemma SilentConstant(r: Rule)
    ensures Silent(r) ==> ConstantResult(r) == Some(Dict([]))
  {
  }

  /** `getattr(self, name)(item)`. */
  function ApplyRule(r: Rule, item: Value, conv: Conversions): (o: Outcome)
    ensures Shaped(r, o)
    ensures Silent(r) ==> o == Returned(Dict([]))
  {
    ConstantShaped(r);
    SilentConstant(r);
    match ConstantResult(r)
    case Some(v) => Returned(v)
    case None => RecordRule(r, item, conv)
  }

  // ---- executable forms of the rules that loop ----------------------------

  /** `_get_type`, calling the looping `_fetch_value_by_regular`. */
  method ExecType(item: Value) returns (o: Outcome)
    ensures o == GetType(item)
  {
    var raw := Subscript(item, "type");
    if raw.Raised? {
      return Raised;
    }
    if !raw.value.Str? {
      return Raised;
    }
    var token := FetchValueByRegular(TypeTable, raw.value.s);
    o := Returned(Field("type", if token.Some? then Str(token.value) else Null));
  }

  /** `_get_feature`: appends `feature['name']` for each advantage. */
  method ExecFeature(item: Value) returns (o: Outcome)
    ensures o == GetFeature(item)
  {
    var adv := Subscript(item, "advantages");
    if adv.Raised? {
      return Raised;
    }
    var elems := Iterate(adv.value);
    if elems.None? {
      return Raised;
    }
    var xs := elems.value;
    var features: seq<Value> := [];
    for i := 0 to |xs|
      invariant Names(xs[..i]) == Some(features)
    {
      assert xs[..i + 1][..i] == xs[..i];
      var name := Subscript(xs[i], "name");
      if name.Raised? {
        assert Names(xs[..i + 1]) == None;
        NamesNoneExtends(xs, i + 1);
        return Raised;
      }
      features := features + [name.value];
    }
    assert xs[..|xs|] == xs;
    o := Returned(List(features));
  }

  /** Once a subscript in a prefix raises, the whole comprehension raises. */
  lemma {:induction false} NamesNoneExtends(xs: seq<Value>, n: int)
    requires 0 <= n <= |xs| && Names(xs[..n]) == None
    ensures Names(xs) == None
    decreases |xs| - n
  {
    if n < |xs| {
      assert xs[..n + 1][..n] == xs[..n];
      NamesNoneExtends(xs, n + 1);
    } else {
      assert xs[..n] == xs;
    }
  }

  /** `_get_view`: the comprehension over the keys, then the loop looking each one up. */
  method ExecView(item: Value) returns (o: Outcome)
    ensures o == GetView(item)
  {
    var elems := Iterate(item);
    if elems.None? {
      return Raised;
    }
    var fields := FilterViewKeys(elems.value);
    if fields.None? {
      return Raised;
    }
    var views := CollectViews(item, fields.value);
    if views.None? {
      return Raised;
    }
    o := Returned(Field("view", List(views.value)));
  }

  /** The comprehension of `_get_view` that keeps the `window_view_` keys, raising on a key that is not a string. */
  method FilterViewKeys(ks: seq<Value>) returns (r: Option<seq<string>>)
    ensures r == ViewKeys(ks)
  {
    var usefulFields: seq<string> := [];
    for i := 0 to |ks|
      invariant ViewKeys(ks[..i]) == Some(usefulFields)
    {
      assert ks[..i + 1][..i] == ks[..i];
      var k := ks[i];
      if !k.Str? {
        ViewKeysNoneExtends(ks, i + 1);
        return None;
      }
      if StartsWith(k.s, ViewPrefix) {
        usefulFields := usefulFields + [k.s];
      }
    }
    assert ks[..|ks|] == ks;
    r := Some(usefulFields);
  }

  /** The appending loop of `_get_view`, raising on the first missing key. */
  method CollectViews(item: Value, fields: seq<string>) returns (r: Option<seq<Value>>)
    ensures r == Lookups(item, fields)
  {
    var views: seq<Value> := [];
    for i := 0 to |fields|
      invariant Lookups(item, fields[..i]) == Some(views)
    {
      assert fields[..i + 1][..i] == fields[..i];
      var v := Subscript(item, fields[i]);
      if v.Raised? {
        LookupsNoneExtends(item, fields, i + 1);
        return None;
      }
      views := views + [v.value];
    }
    assert fields[..|fields|] == fields;
    r := Some(views);
  }

  /** Once the key filter raises on a prefix, it raises on the whole key list. */
  lemma {:induction false} ViewKeysNoneExtends(ks: seq<Value>, n: int)
    requires 0 <= n <= |ks| && ViewKeys(ks[..n]) == None
    ensures ViewKeys(ks) == None
    decreases |ks| - n
  {
    if n < |ks| {
      assert ks[..n + 1][..n] == ks[..n];
      ViewKeysNoneExtends(ks, n + 1);
    } else {
      assert ks[..n] == ks;
    }
  }

  /** Once a lookup over a prefix of the fields raises, the whole loop raises. */
  lemma {:induction false} LookupsNoneExtends(item: Value, fs: seq<string>, n: int)
    requires 0 <= n <= |fs| && Lookups(item, fs[..n]) == None
    ensures Lookups(item, fs) == None
    decreases |fs| - n
  {
    if n < |fs| {
      assert fs[..n + 1][..n] == fs[..n];
      LookupsNoneExtends(item, fs, n + 1);
    } else {
      assert fs[..n] == fs;
    }
  }

  /** `getattr(self, name)(item)`, running the looping rules step by step. */
  method Invoke(r: Rule, item: Value, conv: Conversions) returns (o: Outcome)
    ensures o == ApplyRule(r, item, conv)
  {
    if r == Type {
      o := ExecType(item);
    } else if r == Feature {
      o := ExecFeature(item);
    } else if r == View {
      o := ExecView(item);
    } else {
      o := ApplyRule(r, item, conv);
    }
  }
}
