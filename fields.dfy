/**
  What `construct` yields for each field, stated in terms of the raw
  listing record: which keys of the record a field depends on, when the
  field is present, and what value it takes.
*/
module Fields {
  import opened Wrappers
  import opened PyValues
  import opened Patterns
  import opened Rules
  import opened Construct

  /**
    The rules that return `{field: None}` whatever the record holds: the
    fields `phrase`, `building`, `price_base`, `price_sale`,
    `price_finished_sale`, `living_area`, `number_on_site`, `ceil`,
    `finishing_name`, `furniture_price`, `euro_planning` and `sale`.
  */
  predicate Placeholder(r: Rule) {
    r == Phase || r == Building || r == PriceBase || r == PriceSale ||
    r == PriceFinishedSale || r == LivingArea || r == NumberOnSite || r == Ceil ||
    r == FinishingName || r == FurniturePrice || r == EuroPlanning || r == Sale
  }

  /** A rule that ignores the record always contributes its one constant entry. */
  lemma ConstantField(item: Value, conv: Conversions, r: Rule, k: string, v: Value)
    requires ConstantResult(r) == Some(Field(k, v))
    ensures k in Normalize(item, conv) && Normalize(item, conv)[k] == v
  {
    ConstantShaped(r);
    NormalizeField(item, conv, r);
  }

  /** Every result names the complex. */
  lemma ComplexField(item: Value, conv: Conversions)
    ensures "complex" in Normalize(item, conv)
    ensures Normalize(item, conv)["complex"] == Str("Достижение (Москва)")
  {
    ConstantField(item, conv, Complex, "complex", Str("Достижение (Москва)"));
  }

  /** Every result has `finished = 1`. */
  lemma FinishedField(item: Value, conv: Conversions)
    ensures "finished" in Normalize(item, conv) && Normalize(item, conv)["finished"] == Int(1)
  {
    ConstantField(item, conv, Finished, "finished", Int(1));
  }

  /** The placeholder rules return `{field: None}`. */
  lemma PlaceholderConstant(r: Rule)
    requires Placeholder(r)
    ensures Target(r).Some? && ConstantResult(r) == Some(Field(Target(r).value, Null))
  {
  }

  /** Every result carries each placeholder field, set to `None`. */
  lemma NullField(item: Value, conv: Conversions, r: Rule)
    requires Placeholder(r)
    ensures Target(r).Some? && Target(r).value in Normalize(item, conv)
    ensures Normalize(item, conv)[Target(r).value] == Null
  {
    PlaceholderConstant(r);
    ConstantField(item, conv, r, Target(r).value, Null);
  }

  // ---- the rules that read one key of the record -----------------------------

  /** A rule of the form `{field: f(item[key])}` puts its field in the result exactly when neither the subscript nor `f` raises. */
  lemma KeyedField(item: Value, conv: Conversions, r: Rule, key: string, f: Value -> Option<Value>)
    requires Target(r).Some? && ApplyRule(r, item, conv) == FromKey(item, key, Target(r).value, f)
    ensures Target(r).value in Normalize(item, conv) <==>
      Subscript(item, key).Returned? && f(Subscript(item, key).value).Some?
    ensures Target(r).value in Normalize(item, conv) ==>
      Normalize(item, conv)[Target(r).value] == f(Subscript(item, key).value).value
  {
    NormalizeField(item, conv, r);
  }

  /** `in_sale` is present exactly when the record has `real_price`; it is 1 when that value is truthy and 0 otherwise. */
  lemma InSaleField(item: Value, conv: Conversions)
    ensures "in_sale" in Normalize(item, conv) <==> Subscript(item, "real_price").Returned?
    ensures "in_sale" in Normalize(item, conv) ==>
      Normalize(item, conv)["in_sale"] == Int(if Truthy(Subscript(item, "real_price").value) then 1 else 0)
  {
    KeyedField(item, conv, InSale, "real_price", v => Some(Int(if Truthy(v) then 1 else 0)));
  }

  /** `sale_status` is present exactly when the record has `reserved`; it is the reserved text exactly when that value is the string `true`, and None otherwise. */
  lemma SaleStatusField(item: Value, conv: Conversions)
    ensures "sale_status" in Normalize(item, conv) <==> Subscript(item, "reserved").Returned?
    ensures "sale_status" in Normalize(item, conv) ==>
      (Normalize(item, conv)["sale_status"] == Str(Reserved) <==> Subscript(item, "reserved").value == Str("true"))
    ensures "sale_status" in Normalize(item, conv) ==>
      Normalize(item, conv)["sale_status"] in {Str(Reserved), Null}
  {
    KeyedField(item, conv, SaleStatus, "reserved",
      v => Some(if v == Str("true") then Str(Reserved) else Null));
  }

  /** `furniture` is present exactly when `scheme_folder` is a string; it is 1 when the string contains `furniture` and 0 otherwise. */
  lemma FurnitureField(item: Value, conv: Conversions)
    ensures "furniture" in Normalize(item, conv) <==>
      Subscript(item, "scheme_folder").Returned? && Subscript(item, "scheme_folder").value.Str?
    ensures "furniture" in Normalize(item, conv) ==>
      Normalize(item, conv)["furniture"] ==
        Int(if Contains(Subscript(item, "scheme_folder").value.s, "furniture") then 1 else 0)
  {
    KeyedField(item, conv, Furniture, "scheme_folder", FurnitureOf);
    var o := Subscript(item, "scheme_folder");
    if o.Returned? && o.value.Str? {
      var s := o.value.s;
      assert Matches(["furniture"], s) <==> Contains(s, "furniture") by {
        assert "furniture" in ["furniture"];
      }
    }
  }

  /** `plan` is present exactly when the record has `pdf`: the site root followed by it when it is truthy, and None otherwise. */
  lemma PlanField(item: Value, conv: Conversions)
    ensures "plan" in Normalize(item, conv) <==> Subscript(item, "pdf").Returned?
    ensures "plan" in Normalize(item, conv) ==>
      var pdf := Subscript(item, "pdf").value;
      Normalize(item, conv)["plan"] ==
        if Truthy(pdf) then Str(SiteRoot + Render(pdf, conv)) else Null
  {
    KeyedField(item, conv, Plan, "pdf",
      v => Some(if Truthy(v) then Str(SiteRoot + Render(v, conv)) else Null));
  }

  /** `section` copies the record's `section` unchanged. */
  lemma SectionField(item: Value, conv: Conversions)
    ensures "section" in Normalize(item, conv) <==>
      Subscript(item, "section").Returned?
    ensures "section" in Normalize(item, conv) ==>
      Normalize(item, conv)["section"] == Subscript(item, "section").value
  {
    KeyedField(item, conv, Section, "section", v => Some(v));
  }

  /** `number` copies the record's `num` unchanged. */
  lemma NumberField(item: Value, conv: Conversions)
    ensures "number" in Normalize(item, conv) <==>
      Subscript(item, "num").Returned?
    ensures "number" in Normalize(item, conv) ==>
      Normalize(item, conv)["number"] == Subscript(item, "num").value
  {
    KeyedField(item, conv, Number, "num", v => Some(v));
  }

  /** `area` is `float` of the record's `sq`, present exactly when the conversion succeeds. */
  lemma AreaField(item: Value, conv: Conversions)
    ensures "area" in Normalize(item, conv) <==>
      Subscript(item, "sq").Returned? && PyFloat(Subscript(item, "sq").value, conv).Some?
    ensures "area" in Normalize(item, conv) ==>
      Normalize(item, conv)["area"] == Float(PyFloat(Subscript(item, "sq").value, conv).value)
  {
    KeyedField(item, conv, Area, "sq", v => FloatOf(v, conv));
  }

  /** `price_finished` is `float` of the record's `real_price`, present exactly when the conversion succeeds. */
  lemma PriceFinishedField(item: Value, conv: Conversions)
    ensures "price_finished" in Normalize(item, conv) <==>
      Subscript(item, "real_price").Returned? && PyFloat(Subscript(item, "real_price").value, conv).Some?
    ensures "price_finished" in Normalize(item, conv) ==>
      Normalize(item, conv)["price_finished"] == Float(PyFloat(Subscript(item, "real_price").value, conv).value)
  {
    KeyedField(item, conv, PriceFinished, "real_price", v => FloatOf(v, conv));
  }

  /** `rooms` is `int` of the record's `rooms`, present exactly when the conversion succeeds. */
  lemma RoomsField(item: Value, conv: Conversions)
    ensures "rooms" in Normalize(item, conv) <==>
      Subscript(item, "rooms").Returned? && PyInt(Subscript(item, "rooms").value, conv).Some?
    ensures "rooms" in Normalize(item, conv) ==>
      Normalize(item, conv)["rooms"] == Int(PyInt(Subscript(item, "rooms").value, conv).value)
  {
    KeyedField(item, conv, Rooms, "rooms", v => IntOf(v, conv));
  }

  /** `floor` is `int` of the record's `floor`, present exactly when the conversion succeeds. */
  lemma FloorField(item: Value, conv: Conversions)
    ensures "floor" in Normalize(item, conv) <==>
      Subscript(item, "floor").Returned? && PyInt(Subscript(item, "floor").value, conv).Some?
    ensures "floor" in Normalize(item, conv) ==>
      Normalize(item, conv)["floor"] == Int(PyInt(Subscript(item, "floor").value, conv).value)
  {
    KeyedField(item, conv, Floor, "floor", v => IntOf(v, conv));
  }

  /** `type` is present exactly when the record's `type` is a string: the token of the first matching pattern, or None when none matches. */
  lemma TypeField(item: Value, conv: Conversions)
    ensures "type" in Normalize(item, conv) <==>
      Subscript(item, "type").Returned? && Subscript(item, "type").value.Str?
    ensures "type" in Normalize(item, conv) ==>
      var raw := Subscript(item, "type").value.s;
      Normalize(item, conv)["type"] ==
        if FirstMatchKey(TypeTable, raw).Some? then Str(FirstMatchKey(TypeTable, raw).value) else Null
  {
    KeyedField(item, conv, Type, "type", TypeOf);
  }

  /** `type` is always one of the four object codes or None. */
  lemma TypeTokens(item: Value, conv: Conversions)
    ensures "type" in Normalize(item, conv) ==>
      Normalize(item, conv)["type"] in {Str("flat"), Str("apartment"), Str("parking"), Str("townhouse"), Null}
  {
    TypeField(item, conv);
    if "type" in Normalize(item, conv) {
      TypeTokenOf(Subscript(item, "type").value.s);
    }
  }

  /** A dict record always gets `view`: the values of its `window_view_` keys. */
  lemma ViewField(item: Value, conv: Conversions)
    ensures item.Dict? ==> "view" in Normalize(item, conv) && Normalize(item, conv)["view"].List?
    ensures item.Dict? ==> forall v :: v in Normalize(item, conv)["view"].items <==>
      exists f :: StartsWith(f, ViewPrefix) && Lookup(item.entries, f) == Some(v)
    ensures !(item.List? || item.Str? || item.Dict?) ==> "view" !in Normalize(item, conv)
  {
    NormalizeField(item, conv, View);
    if item.Dict? {
      ViewOfDict(item.entries);
    }
  }

  /** For a dict record, `view` lists one value per `window_view_` key, in key order, repeats included. */
  lemma ViewFieldInOrder(item: Value, conv: Conversions)
    ensures item.Dict? ==> ("view" in Normalize(item, conv) && Normalize(item, conv)["view"].List? &&
      ViewsInOrder(item.entries, Normalize(item, conv)["view"].items))
  {
    NormalizeField(item, conv, View);
    if item.Dict? {
      ViewInOrder(item.entries);
    }
  }
}
