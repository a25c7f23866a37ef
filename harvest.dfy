/**
  `Parse.run`: request pages 1 to 999 in turn, format each, stop at the
  first page `format` returns `False` for, and concatenate the records of
  the pages before it. Fetching a page and decoding its `data` is the
  parameter `source`: None when the request, the JSON decoding or the
  `['data']` subscript raises. The pause after each page is counted, not
  taken, and the final `print` is the completed output.
*/
module Harvest {
  import opened Wrappers
  import opened PyValues
  import opened Construct
  import opened Formatter

  /** The last page number `range(1, 1000)` yields. */
  const LastPage: nat := 999

  /** How a run ends: the printed records, or an exception that ends the program before printing. */
  datatype RunOutcome = Completed(output: seq<Canonical>) | Faulted

  /** A run's outcome, the pages it requested in order, and the number of pauses it took. */
  datatype Trace = Trace(outcome: RunOutcome, fetched: seq<nat>, sleeps: nat)

  /** The page's `data` as `format` sees it, for pages that can be fetched and decoded. */
  type Source = nat -> Option<Value>

  /** What `format` makes of page `page`; a page that cannot be fetched fails like one `format` raises on. */
  function PageOf(source: Source, construct: Value -> Canonical, page: nat): PageResult {
    match source(page)
    case None => Failed
    case Some(data) => Translate(data, construct)
  }

  /** The run from page `page` on: the pages it requests and what it prints. */
  function HarvestFrom(source: Source, construct: Value -> Canonical, page: nat): Trace
    decreases LastPage + 1 - page
  {
    if page > LastPage then Trace(Completed([]), [], 0)
    else match PageOf(source, construct, page)
      case Failed => Trace(Faulted, [page], 0)
      case NoRecords => Trace(Completed([]), [page], 0)
      case Records(rs) =>
        var rest := HarvestFrom(source, construct, page + 1);
        Trace(if rest.outcome.Faulted? then Faulted else Completed(rs + rest.outcome.output),
              [page] + rest.fetched, rest.sleeps + 1)
  }

  /** The trace of a run whose pages before `page` gave `output`, requested `fetched` and paused `sleeps` times. */
  function Resume(output: seq<Canonical>, fetched: seq<nat>, sleeps: nat, rest: Trace): Trace {
    Trace(if rest.outcome.Faulted? then Faulted else Completed(output + rest.outcome.output),
          fetched + rest.fetched, sleeps + rest.sleeps)
  }

  /** `format` returned records for the page, so the loop goes on after it. */
  predicate Full(source: Source, construct: Value -> Canonical, page: nat) {
    PageOf(source, construct, page).Records?
  }

  /** The records of a full page, and nothing for any other. */
  function RecordsOf(source: Source, construct: Value -> Canonical, page: nat): seq<Canonical> {
    if Full(source, construct, page) then PageOf(source, construct, page).records else []
  }

  /** The records of pages `lo` to `hi - 1`, in page order. */
  function Concat(source: Source, construct: Value -> Canonical, lo: nat, hi: nat): seq<Canonical>
    decreases hi - lo
  {
    if hi <= lo then [] else RecordsOf(source, construct, lo) + Concat(source, construct, lo + 1, hi)
  }

  /** The last page a trace requested, when it requested any. */
  function LastFetched(t: Trace): nat
    requires t.fetched != []
  {
    t.fetched[|t.fetched| - 1]
  }

  /** The run from `page` on requests consecutive pages, at least one unless `page` is past 999, and none past 999. */
  lemma {:induction false} HarvestPages(source: Source, construct: Value -> Canonical, page: nat)
    requires 1 <= page <= LastPage + 1
    ensures var t := HarvestFrom(source, construct, page);
      (forall i :: 0 <= i < |t.fetched| ==> t.fetched[i] == page + i) &&
      (page <= LastPage <==> t.fetched != []) &&
      page + |t.fetched| <= LastPage + 1
    decreases LastPage + 1 - page
  {
    if page <= LastPage && Full(source, construct, page) {
      HarvestPages(source, construct, page + 1);
      var rest := HarvestFrom(source, construct, page + 1);
      assert HarvestFrom(source, construct, page).fetched == [page] + rest.fetched;
    }
  }

  /** Every page the run requests but the last gave records. */
  lemma {:induction false} HarvestFullBefore(source: Source, construct: Value -> Canonical, page: nat)
    requires 1 <= page <= LastPage + 1
    ensures var t := HarvestFrom(source, construct, page);
      forall p :: page <= p < page + |t.fetched| - 1 ==> Full(source, construct, p)
    decreases LastPage + 1 - page
  {
    if page <= LastPage && Full(source, construct, page) {
      HarvestFullBefore(source, construct, page + 1);
      var rest := HarvestFrom(source, construct, page + 1);
      assert |HarvestFrom(source, construct, page).fetched| == 1 + |rest.fetched|;
    }
  }

  /** The last page the run requests gave no records, unless it is page 999. */
  lemma {:induction false} HarvestLast(source: Source, construct: Value -> Canonical, page: nat)
    requires 1 <= page <= LastPage + 1
    ensures var t := HarvestFrom(source, construct, page);
      t.fetched != [] && Full(source, construct, LastFetched(t)) ==> LastFetched(t) == LastPage
    decreases LastPage + 1 - page
  {
    if page <= LastPage && Full(source, construct, page) {
      HarvestLast(source, construct, page + 1);
      var rest := HarvestFrom(source, construct, page + 1);
      var t := HarvestFrom(source, construct, page);
      assert t.fetched == [page] + rest.fetched;
      if rest.fetched != [] {
        assert LastFetched(t) == LastFetched(rest);
      }
    }
  }

  /** The run pauses once after each page that gave records. */
  lemma {:induction false} HarvestSleeps(source: Source, construct: Value -> Canonical, page: nat)
    requires 1 <= page <= LastPage + 1
    ensures var t := HarvestFrom(source, construct, page);
      t.sleeps == |t.fetched| - (if t.fetched != [] && !Full(source, construct, LastFetched(t)) then 1 else 0)
    decreases LastPage + 1 - page
  {
    if page <= LastPage && Full(source, construct, page) {
      HarvestSleeps(source, construct, page + 1);
      var rest := HarvestFrom(source, construct, page + 1);
      var t := HarvestFrom(source, construct, page);
      assert t.fetched == [page] + rest.fetched;
      if rest.fetched != [] {
        assert LastFetched(t) == LastFetched(rest);
      }
    }
  }

  /** The run faults exactly when its last page failed. */
  lemma {:induction false} HarvestFault(source: Source, construct: Value -> Canonical, page: nat)
    requires 1 <= page <= LastPage + 1
    ensures var t := HarvestFrom(source, construct, page);
      t.outcome.Faulted? <==> t.fetched != [] && PageOf(source, construct, LastFetched(t)).Failed?
    decreases LastPage + 1 - page
  {
    if page <= LastPage && Full(source, construct, page) {
      HarvestFault(source, construct, page + 1);
      var rest := HarvestFrom(source, construct, page + 1);
      var t := HarvestFrom(source, construct, page);
      assert t.fetched == [page] + rest.fetched;
      if rest.fetched != [] {
        assert LastFetched(t) == LastFetched(rest);
      }
    }
  }

  /** A run that does not fault prints the records of its pages in order. */
  lemma {:induction false} HarvestOutput(source: Source, construct: Value -> Canonical, page: nat)
    requires 1 <= page <= LastPage + 1
    ensures var t := HarvestFrom(source, construct, page);
      t.outcome.Completed? ==> t.outcome.output == Concat(source, construct, page, page + |t.fetched|)
    decreases LastPage + 1 - page
  {
    if page <= LastPage && Full(source, construct, page) {
      HarvestOutput(source, construct, page + 1);
      var rest := HarvestFrom(source, construct, page + 1);
      assert |HarvestFrom(source, construct, page).fetched| == 1 + |rest.fetched|;
    }
  }

  /** A run that meets its first page without records at `k` requests pages 1 to `k`, pauses `k - 1` times, and prints the records of pages 1 to `k - 1` unless page `k` failed. */
  lemma StopsAtFirstEmpty(source: Source, construct: Value -> Canonical, k: nat)
    requires 1 <= k <= LastPage && !Full(source, construct, k)
    requires forall p :: 1 <= p < k ==> Full(source, construct, p)
    ensures var t := HarvestFrom(source, construct, 1);
      |t.fetched| == k && t.sleeps == k - 1 &&
      t.outcome == if PageOf(source, construct, k).Failed? then Faulted else Completed(Concat(source, construct, 1, k))
  {
    HarvestPages(source, construct, 1);
    HarvestFullBefore(source, construct, 1);
    HarvestLast(source, construct, 1);
    HarvestSleeps(source, construct, 1);
    HarvestFault(source, construct, 1);
    HarvestOutput(source, construct, 1);
    var t := HarvestFrom(source, construct, 1);
    var last := LastFetched(t);
    assert last == |t.fetched|;
    assert k < last ==> Full(source, construct, k);
    assert last == k;
    if t.outcome.Completed? {
      ConcatSkipsEmpty(source, construct, 1, k);
    }
  }

  /** The last page adds no records when it gave none. */
  lemma ConcatSkipsEmpty(source: Source, construct: Value -> Canonical, lo: nat, k: nat)
    requires lo <= k && !Full(source, construct, k)
    ensures Concat(source, construct, lo, k + 1) == Concat(source, construct, lo, k)
    decreases k - lo
  {
    if lo < k {
      ConcatSkipsEmpty(source, construct, lo + 1, k);
    }
  }

  /** A run whose 999 pages all give records requests all of them, pauses after each, and prints all their records. */
  lemma AllPagesFull(source: Source, construct: Value -> Canonical)
    requires forall p :: 1 <= p <= LastPage ==> Full(source, construct, p)
    ensures var t := HarvestFrom(source, construct, 1);
      |t.fetched| == LastPage && t.sleeps == LastPage &&
      t.outcome == Completed(Concat(source, construct, 1, LastPage + 1))
  {
    HarvestPages(source, construct, 1);
    HarvestFullBefore(source, construct, 1);
    HarvestLast(source, construct, 1);
    HarvestSleeps(source, construct, 1);
    HarvestFault(source, construct, 1);
    HarvestOutput(source, construct, 1);
    var t := HarvestFrom(source, construct, 1);
    var last := LastFetched(t);
    assert last == |t.fetched| && 1 <= last <= LastPage;
    assert Full(source, construct, last);
  }

  /** One turn of the loop: a page that gave records is added and paused after, and the run goes on with the next page. */
  lemma ResumeNext(source: Source, construct: Value -> Canonical, page: nat,
                   output: seq<Canonical>, fetched: seq<nat>, sleeps: nat)
    requires page <= LastPage && Full(source, construct, page)
    ensures Resume(output, fetched, sleeps, HarvestFrom(source, construct, page)) ==
      Resume(output + PageOf(source, construct, page).records, fetched + [page], sleeps + 1,
             HarvestFrom(source, construct, page + 1))
  {
    var rs := PageOf(source, construct, page).records;
    var rest := HarvestFrom(source, construct, page + 1);
    assert fetched + ([page] + rest.fetched) == fetched + [page] + rest.fetched;
    if rest.outcome.Completed? {
      assert output + (rs + rest.outcome.output) == output + rs + rest.outcome.output;
    }
  }

  /** The last turn: a page that gave no records ends the run after it is requested. */
  lemma ResumeStop(source: Source, construct: Value -> Canonical, page: nat,
                   output: seq<Canonical>, fetched: seq<nat>, sleeps: nat)
    requires page <= LastPage && !Full(source, construct, page)
    ensures Resume(output, fetched, sleeps, HarvestFrom(source, construct, page)) ==
      Trace(if PageOf(source, construct, page).Failed? then Faulted else Completed(output),
            fetched + [page], sleeps)
  {
    assert output + [] == output;
  }

  /** Before the first page nothing has been gathered. */
  lemma ResumeStart(t: Trace)
    ensures Resume([], [], 0, t) == t
  {
    assert [] + t.fetched == t.fetched;
    if t.outcome.Completed? {
      assert [] + t.outcome.output == t.outcome.output;
    }
  }

  /** Past page 999 the loop is over and the run prints what it has. */
  lemma ResumeEnd(source: Source, construct: Value -> Canonical,
                  output: seq<Canonical>, fetched: seq<nat>, sleeps: nat)
    ensures Resume(output, fetched, sleeps, HarvestFrom(source, construct, LastPage + 1)) ==
      Trace(Completed(output), fetched, sleeps)
  {
    assert output + [] == output && fetched + [] == fetched;
  }

  /** `self.session_ins.get(...)` and `format` for one page; an exception in either ends the run. */
  method FetchPage(source: Source, conv: Conversions, page: nat) returns (r: PageResult)
    ensures r == PageOf(source, Constructor(conv), page)
  {
    var data := source(page);
    if data.None? {
      return Failed;
    }
    r := Format(data.value, conv);
  }

  /** `Parse.run`, with the loop, the `break`, the `+=` and the pause. */
  method Run(source: Source, conv: Conversions) returns (outcome: RunOutcome, fetched: seq<nat>, sleeps: nat)
    ensures Trace(outcome, fetched, sleeps) == HarvestFrom(source, Constructor(conv), 1)
  {
    ghost var construct := Constructor(conv);
    var outputAll: seq<Canonical> := [];
    fetched, sleeps := [], 0;
    ResumeStart(HarvestFrom(source, construct, 1));
    var page := 1;
    while page <= LastPage
      invariant 1 <= page <= LastPage + 1
      invariant Resume(outputAll, fetched, sleeps, HarvestFrom(source, construct, page)) ==
        HarvestFrom(source, construct, 1)
    {
      var outputItems := FetchPage(source, conv, page);
      if !outputItems.Records? {
        ResumeStop(source, construct, page, outputAll, fetched, sleeps);
        fetched := fetched + [page];
        outcome := if outputItems.Failed? then Faulted else Completed(outputAll);
        return;
      }
      ResumeNext(source, construct, page, outputAll, fetched, sleeps);
      outputAll := outputAll + outputItems.records;
      fetched := fetched + [page];
      sleeps := sleeps + 1;
      page := page + 1;
    }
    ResumeEnd(source, construct, outputAll, fetched, sleeps);
    outcome := Completed(outputAll);
  }
}
