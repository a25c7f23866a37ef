/**
  `Formatter.format`: the records of one page, each normalised by
  `construct`. The JSON decoding of the response and the `['data']`
  subscript are not modelled; `format` starts here from the decoded
  `data` value.
*/
module Formatter {
  import opened Wrappers
  import opened PyValues
  import opened Construct

  /** What `format` does with one page: raise, return `False`, or return the normalised records. */
  datatype PageResult = Failed | NoRecords | Records(records: seq<Canonical>)

  /** `construct` applied to each record, in order. */
  function MapRecords(construct: Value -> Canonical, items: seq<Value>): seq<Canonical> {
    seq(|items|, i requires 0 <= i < |items| => construct(items[i]))
  }

  /** One turn of the loop appends the next record's output. */
  lemma MapRecordsSnoc(construct: Value -> Canonical, items: seq<Value>, i: int, record: Canonical)
    requires 0 <= i < |items| && record == construct(items[i])
    ensures MapRecords(construct, items[..i]) + [record] == MapRecords(construct, items[..i + 1])
  {
  }

  /** The `construct` of the formatter's `Constructor` instance. */
  function Constructor(conv: Conversions): Value -> Canonical {
    item => Normalize(item, conv)
  }

  /** What `format` returns for the page's `data`: `False` when it is falsy, and otherwise one record per element. */
  function Translate(data: Value, construct: Value -> Canonical): PageResult {
    if !Truthy(data) then NoRecords
    else match Iterate(data)
      case None => Failed                                 // TypeError: not iterable
      case Some(items) => Records(MapRecords(construct, items))
  }

  /** `format` returns `False` exactly for falsy data, fails on data it cannot iterate, and never returns an empty list. */
  lemma TranslateCases(data: Value, construct: Value -> Canonical)
    ensures Translate(data, construct).NoRecords? <==> !Truthy(data)
    ensures Translate(data, construct).Failed? <==> Truthy(data) && !(data.List? || data.Str? || data.Dict?)
    ensures Translate(data, construct).Records? ==> |Translate(data, construct).records| > 0
  {
  }

  /** A list of records gives one output per record, each what `construct` returns for it. */
  lemma TranslateList(items: seq<Value>, construct: Value -> Canonical)
    ensures items == [] ==> Translate(List(items), construct) == NoRecords
    ensures items != [] ==> (Translate(List(items), construct).Records? &&
      |Translate(List(items), construct).records| == |items| &&
      forall i :: 0 <= i < |items| ==> Translate(List(items), construct).records[i] == construct(items[i]))
  {
  }

  /** `Formatter.format`: the `if not items` test, then the loop appending `construct(item)`. */
  method Format(data: Value, conv: Conversions) returns (r: PageResult)
    ensures r == Translate(data, Constructor(conv))
  {
    if !Truthy(data) {
      return NoRecords;
    }
    var elems := Iterate(data);
    if elems.None? {
      return Failed;
    }
    var items := elems.value;
    var outputs: seq<Canonical> := [];
    for i := 0 to |items|
      invariant outputs == MapRecords(Constructor(conv), items[..i])
    {
      var record := Construct.Construct(items[i], conv);
      MapRecordsSnoc(Constructor(conv), items, i, record);
      outputs := outputs + [record];
    }
    assert items[..|items|] == items;
    r := Records(outputs);
  }
}
