# dom-dostigenie.ru listing harvester: a Dafny model

The Python script `dom_dostigenie_ru.py` harvests flat listings from one
real-estate site. Its core has three parts:

- **Normalisation.** `Constructor` holds 32 extraction rules, the
  `_get_*` methods. `ConstructorBase.construct` runs every rule on one raw
  listing record, in the sorted order `dir()` gives. It swallows the
  exceptions a rule raises and merges the dicts the rules return into one
  record.
- **Formatting.** `Formatter.format` normalises every record of one page.
- **Harvesting.** `Parse.run` requests pages 1 to 999 in turn. It stops at
  the first page `format` gives nothing for, concatenates the records, and
  pauses after every page that gave records.

The model keeps each part's form:

| module | models |
|---|---|
| `PyValues` | The Python values a decoded record is made of, plus `bool`, subscripting, iteration, `float`, `int`, f-string rendering and dict unpacking. |
| `Patterns` | `_fetch_value_by_regular`: a first-match lookup over an insertion-ordered `{token: alternatives}` table. |
| `Merge` | The merge step `{**data, **output_data}` over any sequence of fragments. |
| `Rules` | The 32 rules and the registry they run from. The three rules that loop (`_get_type`, `_get_feature`, `_get_view`) also appear as methods with their loops. |
| `Construct` | `construct`: the loop over the registry, and what its result is, field by field. |
| `Fields` | The value of each field of the result, stated in terms of the raw record. |
| `Formatter` | `format`. |
| `Harvest` | `run`, with its page loop, `break`, `+=` and counted pause. |

Four decisions shape the model:

- **First writer wins.** In `{**data, **output_data}` the right-hand
  `output_data` wins a collision, so a key keeps the value of the earlier
  rule. `MergeFirstWriter` states the rule; `TargetsDistinct` shows that
  no two rules of this registry collide.
- **The `phrase` key.** `_get_phase` writes the key `phrase`. The model
  keeps that key.
- **The page limit.** The loop is bounded by `range(1, 1000)`: it ends
  after page 999 even if every page gave records.
- **A fault is not a clean stop.** When a page cannot be fetched or decoded,
  the program raises before it prints anything. The model reports this as
  `Faulted`, not as a clean end of the run.

Functions and lemmas do not depend on one construction of the record
normaliser. `Formatter` and `Harvest` take it as a parameter
`construct: Value -> Canonical`. The methods `Format` and `Run` tie that
parameter to the registry, through `Constructor(conv)`.

## Model

| member | source | states |
|---|---|---|
| PyValues.LookupSpec | dom_dostigenie_ru.py:252-255 | A key lookup in a record fails exactly when no entry has the key; otherwise it finds the first entry with that key. |
| PyValues.ToMap | dom_dostigenie_ru.py:50 | A dict unpacking has exactly the keys of the entries, and each key maps to its last entry. |
| PyValues.Trunc | dom_dostigenie_ru.py:146 | `int` of a float truncates toward zero. |
| PyValues.PyFloat | dom_dostigenie_ru.py:105 | `float` succeeds only on booleans, numbers and strings. It gives 1.0 or 0.0 for a boolean and is exact on ints and floats. |
| PyValues.PyInt | dom_dostigenie_ru.py:146-150 | `int` succeeds only on booleans, numbers and strings. It gives 1 or 0 for a boolean, is exact on ints, and truncates floats toward zero. |
| PyValues.LookupDistinct | dom_dostigenie_ru.py:255 | In a dict, looking up an entry's key finds that entry's value. |
| Patterns.FirstMatchKeyIsFirst | dom_dostigenie_ru.py:57-61 | The lookup yields None exactly when no pattern matches. Otherwise it yields the token of a matching entry with no matching entry before it. |
| Patterns.FetchValueByRegular | dom_dostigenie_ru.py:57-61 | The loop with its early return computes the first-match lookup. It returns None exactly when nothing matches, and otherwise the token of the first matching entry. |
| Merge.MergeAppend | dom_dostigenie_ru.py:50 | Merging one more fragment puts it under the output built so far. |
| Merge.MergeKeys | dom_dostigenie_ru.py:47-53 | The merged keys are exactly the union of the keys of the fragments that did not raise. |
| Merge.MergeFirstWriter | dom_dostigenie_ru.py:50 | A key gets its value from the earliest fragment that supplies it. |
| Merge.MergeSoleWriter | dom_dostigenie_ru.py:47-53 | A key that only one fragment supplies is in the output exactly when that fragment supplies it, and with that fragment's value. |
| Merge.MergeSwapDisjoint | dom_dostigenie_ru.py:47-50 | Two neighbouring fragments with disjoint keys can be merged in either order. |
| Rules.IndexOf | dom_dostigenie_ru.py:43 | Every rule has a position in the registry's order. |
| Rules.RegistryListsEachRuleOnce | dom_dostigenie_ru.py:43 | The registry lists every rule, each position holds the rule `IndexOf` gives for it, and no rule appears twice. |
| Rules.TargetInverse | dom_dostigenie_ru.py:69-285 | The key a rule writes determines the rule. |
| Rules.TargetsDistinct | dom_dostigenie_ru.py:69-285 | No two rules write the same key, and no rule writes `feature`. |
| Rules.FromKey | dom_dostigenie_ru.py:93-95 | A rule of the form `{field: f(item[key])}` returns a one-entry dict with that field, or raises. |
| Rules.TypeTokenOf | dom_dostigenie_ru.py:75-82 | The type lookup yields one of `flat`, `apartment`, `parking` and `townhouse`, or None. |
| Rules.StudioIsFlat | dom_dostigenie_ru.py:75-81 | `квартира-студия` is classified as `flat`. |
| Rules.GetFeature | dom_dostigenie_ru.py:240-248 | `_get_feature` returns a list when it returns. |
| Rules.NamesSpec | dom_dostigenie_ru.py:244-246 | Collecting the names succeeds exactly when every element has a `name`. It then gives those names, in order. |
| Rules.FeatureSpec | dom_dostigenie_ru.py:240-248 | `_get_feature` returns exactly when `advantages` is iterable and each element has a `name`. It then returns the list of those names, in order. |
| Rules.GetView | dom_dostigenie_ru.py:250-256 | `_get_view` returns a one-entry dict `{view: ...}` when it returns. |
| Rules.ViewKeysSpec | dom_dostigenie_ru.py:252 | The key filter succeeds exactly when every key is a string. It keeps exactly the keys with the `window_view_` prefix. |
| Rules.ViewPositions | dom_dostigenie_ru.py:252 | The positions of the prefixed keys are increasing, and they are exactly the positions whose key is a string with the `window_view_` prefix. |
| Rules.ViewKeysInOrder | dom_dostigenie_ru.py:252 | The key filter keeps one key per prefixed position, in iteration order, repeats included. |
| Rules.LookupsSpec | dom_dostigenie_ru.py:253-255 | The lookups succeed exactly when every field is a key of the record. They then list the values in field order. |
| Rules.ViewKeysOfDict | dom_dostigenie_ru.py:252 | On a dict record, the filter keeps exactly the existing keys that start with `window_view_`. |
| Rules.ViewOfDict | dom_dostigenie_ru.py:250-256 | On a dict record `_get_view` returns; a value is listed exactly when some `window_view_` key holds it. |
| Rules.ViewInOrder | dom_dostigenie_ru.py:250-256 | On a dict record `_get_view` returns a list with one value per `window_view_` key, in key order: the `j`-th value is the one bound to the `j`-th prefixed key. |
| Rules.ViewsOfDistinctKeys | dom_dostigenie_ru.py:253-255 | In a dict without repeated keys, the `j`-th view is the value of the `j`-th prefixed entry. |
| Rules.RecordRule | dom_dostigenie_ru.py:73-256 | The rules that read the record return the shape their code allows: `{field: v}` for their own field, or, for `_get_feature`, a list. |
| Rules.ConstantShaped | dom_dostigenie_ru.py:69-285 | The rules that ignore the record return the shape of their own field. |
| Rules.SilentConstant | dom_dostigenie_ru.py:184-285 | `_get_currency`, `_get_article`, `_get_discount_percent`, `_get_discount` and `_get_comment` return `{}`. |
| Rules.ApplyRule | dom_dostigenie_ru.py:49 | Every rule returns `{}` (exactly the silent rules), a one-entry dict with its own field, or, for `_get_feature`, a list. |
| Rules.ExecType | dom_dostigenie_ru.py:73-82 | The method form of `_get_type`, which calls the looping lookup, computes `GetType`. |
| Rules.ExecFeature | dom_dostigenie_ru.py:240-248 | The appending loop of `_get_feature` computes `GetFeature`, including the raise on an element without `name`. |
| Rules.NamesNoneExtends | dom_dostigenie_ru.py:245-246 | Once collecting names over a prefix raises, collecting over the whole list raises. |
| Rules.ExecView | dom_dostigenie_ru.py:250-256 | The comprehension and the appending loop of `_get_view` compute `GetView`. |
| Rules.FilterViewKeys | dom_dostigenie_ru.py:252 | The key comprehension computes `ViewKeys`: it raises on the first key that is not a string, and otherwise keeps the `window_view_` keys in order. |
| Rules.CollectViews | dom_dostigenie_ru.py:253-255 | The appending loop computes `Lookups`: it raises on the first missing key, and otherwise lists the values in field order. |
| Rules.ViewKeysNoneExtends | dom_dostigenie_ru.py:252 | Once the key filter raises on a prefix, it raises on the whole key list. |
| Rules.LookupsNoneExtends | dom_dostigenie_ru.py:254-255 | Once a lookup over a prefix of the fields raises, the whole loop raises. |
| Rules.Invoke | dom_dostigenie_ru.py:49 | Calling a rule, with the loops run as methods, yields `ApplyRule`. |
| Construct.OutcomesShaped | dom_dostigenie_ru.py:49 | Every rule's outcome on a record has the shape its code allows. |
| Construct.Construct | dom_dostigenie_ru.py:41-55 | `construct` returns the merge of the registry's fragments on the record. |
| Construct.ConstructWith | dom_dostigenie_ru.py:44-53 | The loop with its `try`/`except` computes the merge of the fragments of the rules, in order. |
| Construct.MergeRulesStep | dom_dostigenie_ru.py:50 | After loop iteration `i`, rule `i`'s fragment lies under the output so far. |
| Construct.MergeRulesSnoc | dom_dostigenie_ru.py:50 | Appending a rule appends its fragment to the merge. |
| Construct.ContributionKeys | dom_dostigenie_ru.py:48-53 | A rule's fragment holds at most its own field. It holds that field exactly when the rule succeeds; a rule without a field contributes nothing. |
| Construct.OnlyOwnerWrites | dom_dostigenie_ru.py:69-285 | Only the rule that owns a field can put that field into a fragment. |
| Construct.NoOtherWriter | dom_dostigenie_ru.py:47-53 | In a rule list without repeats, no other rule writes a rule's field. |
| Construct.FieldOf | dom_dostigenie_ru.py:47-53 | A field is in the output exactly when its rule succeeds, and it has that rule's value, whatever the other rules do. |
| Construct.KeysOfMerge | dom_dostigenie_ru.py:47-53 | The output's keys are exactly the fields of the rules that succeed. |
| Construct.MergedKeyHasWriter | dom_dostigenie_ru.py:47-53 | Every key of the output is the field of some rule that succeeded. |
| Construct.WriterKeyMerged | dom_dostigenie_ru.py:47-53 | The field of every rule that succeeded is in the output. |
| Construct.DropInert | dom_dostigenie_ru.py:51-53 | Leaving out rules whose fragments add nothing does not change the output. |
| Construct.SwapNeighbours | dom_dostigenie_ru.py:43-50 | Two neighbouring, different rules can be run in either order with the same output. |
| Construct.DisjointFragments | dom_dostigenie_ru.py:50 | Different rules contribute disjoint sets of keys. |
| Construct.NormalizeField | dom_dostigenie_ru.py:41-55 | A field of `construct`'s result is there exactly when its rule succeeds on the record, and it has that rule's value. |
| Construct.NormalizeKeys | dom_dostigenie_ru.py:41-55 | The keys of `construct`'s result are exactly the fields of the rules that succeed on the record. |
| Construct.FeatureNeverMerged | dom_dostigenie_ru.py:240-248 | `_get_feature` never succeeds in the merge, and `feature` is never in the result. |
| Construct.FailingAndSilentRulesIgnored | dom_dostigenie_ru.py:47-53 | Dropping the rules that raise, and the rules that return `{}`, leaves the result unchanged. |
| Fields.ConstantField | dom_dostigenie_ru.py:84-86 | A rule that ignores the record always contributes its constant entry. |
| Fields.ComplexField | dom_dostigenie_ru.py:69-71 | Every result has `complex = 'Достижение (Москва)'`. |
| Fields.FinishedField | dom_dostigenie_ru.py:171-182 | Every result has `finished = 1`. |
| Fields.PlaceholderConstant | dom_dostigenie_ru.py:84-268 | The twelve placeholder rules return `{field: None}`. |
| Fields.NullField | dom_dostigenie_ru.py:84-268 | Every result has each placeholder field, set to None. |
| Fields.KeyedField | dom_dostigenie_ru.py:93-95 | A field of the form `f(item[key])` is present exactly when neither the subscript nor `f` raises, with `f`'s value. |
| Fields.InSaleField | dom_dostigenie_ru.py:152-160 | `in_sale` is present exactly when `real_price` is. It is 1 when `real_price` is truthy, and 0 otherwise. |
| Fields.SaleStatusField | dom_dostigenie_ru.py:162-169 | `sale_status` is present exactly when `reserved` is. It is `Забронированно` exactly when `reserved` is the string `true`, and None otherwise. |
| Fields.FurnitureField | dom_dostigenie_ru.py:207-216 | `furniture` is present exactly when `scheme_folder` is a string. It is 1 when that string contains `furniture`, and 0 otherwise, never None. |
| Fields.PlanField | dom_dostigenie_ru.py:224-238 | `plan` is present exactly when `pdf` is. It is the site root followed by `pdf` when `pdf` is truthy, and None otherwise. |
| Fields.SectionField | dom_dostigenie_ru.py:93-95 | `section` is the record's `section`, present exactly when that key is. |
| Fields.NumberField | dom_dostigenie_ru.py:127-130 | `number` is the record's `num`, present exactly when that key is. |
| Fields.AreaField | dom_dostigenie_ru.py:116-120 | `area` is `float(sq)`, present exactly when the conversion succeeds. |
| Fields.PriceFinishedField | dom_dostigenie_ru.py:102-105 | `price_finished` is `float(real_price)`, present exactly when the conversion succeeds. |
| Fields.RoomsField | dom_dostigenie_ru.py:142-146 | `rooms` is `int(rooms)`, present exactly when the conversion succeeds. |
| Fields.FloorField | dom_dostigenie_ru.py:148-150 | `floor` is `int(floor)`, present exactly when the conversion succeeds. |
| Fields.TypeField | dom_dostigenie_ru.py:73-82 | `type` is present exactly when the record's `type` is a string. It is the token of the first matching pattern, or None when none matches. |
| Fields.TypeTokens | dom_dostigenie_ru.py:75-82 | `type` is always one of the four object codes, or None. |
| Fields.ViewField | dom_dostigenie_ru.py:250-256 | A dict record always gets `view`, and a value is in it exactly when some `window_view_` key holds it. A record that cannot be iterated gets no `view`. |
| Fields.ViewFieldInOrder | dom_dostigenie_ru.py:250-256 | For a dict record, `view` lists one value per `window_view_` key, in key order, repeats included. |
| Formatter.MapRecordsSnoc | dom_dostigenie_ru.py:303-304 | One turn of the loop appends the next record's output. |
| Formatter.TranslateCases | dom_dostigenie_ru.py:298-306 | `format` returns `False` exactly for falsy data. It raises exactly for truthy data it cannot iterate, and never returns an empty list. |
| Formatter.TranslateList | dom_dostigenie_ru.py:299-306 | An empty record list gives `False`. Otherwise the result has one output per record, in order, each what `construct` returns for that record. |
| Formatter.Format | dom_dostigenie_ru.py:294-306 | The `if not items` test and the appending loop compute `Translate` with the registry's `construct`. |
| Harvest.HarvestPages | dom_dostigenie_ru.py:332 | The run requests consecutive pages from its first page on. It requests at least one page unless it starts past 999, and never one past 999. |
| Harvest.HarvestFullBefore | dom_dostigenie_ru.py:335-338 | Every requested page but the last gave records. |
| Harvest.HarvestLast | dom_dostigenie_ru.py:332-338 | The last requested page gave no records, unless it is page 999. |
| Harvest.HarvestSleeps | dom_dostigenie_ru.py:342 | The run pauses once after each page that gave records. |
| Harvest.HarvestFault | dom_dostigenie_ru.py:333-335 | The run faults exactly when its last requested page raised. |
| Harvest.HarvestOutput | dom_dostigenie_ru.py:340 | A run that does not fault outputs the records of its pages, concatenated in page order. |
| Harvest.StopsAtFirstEmpty | dom_dostigenie_ru.py:328-344 | If page `k` is the first page without records, the run makes `k` requests and `k - 1` pauses. It outputs the records of pages 1 to `k - 1`, or faults if page `k` raised. |
| Harvest.ConcatSkipsEmpty | dom_dostigenie_ru.py:340 | A page without records adds nothing to the output. |
| Harvest.AllPagesFull | dom_dostigenie_ru.py:332-344 | If all 999 pages give records, the run requests each once and pauses after each. It outputs all their records. |
| Harvest.ResumeNext | dom_dostigenie_ru.py:335-342 | A page that gave records is added and paused after, and the run goes on with the next page. |
| Harvest.ResumeStop | dom_dostigenie_ru.py:337-338 | A page without records ends the run right after it is requested. |
| Harvest.ResumeStart | dom_dostigenie_ru.py:331 | Before the first page nothing has been gathered. |
| Harvest.ResumeEnd | dom_dostigenie_ru.py:344 | Past page 999 the run outputs what it has gathered. |
| Harvest.FetchPage | dom_dostigenie_ru.py:333-335 | Requesting and formatting one page gives that page's result. A page that cannot be fetched or decoded raises. |
| Harvest.Run | dom_dostigenie_ru.py:328-344 | The loop, with its `break`, `+=` and counted pause, produces the trace `HarvestFrom` defines from page 1: the outcome, the pages requested and the number of pauses. |

## Left out

- HTTP (`Session`, lines 9-34): network access. The page source is a parameter `source: nat -> Option<Value>`, from page numbers to the page's decoded `data`.
- JSON decoding and the `['data']` subscript (lines 298 and 308-310): folded into `source`. A page whose request, decoding or subscript raises is `None`; a `False` from `Session.get` raising at `strip()` is one such case.
- The pagination URL template and its formatting (lines 317-319): page numbers stand for the URLs.
- `print(json.dumps(output_all))` (line 344): the printed list is the `Completed` outcome, not a written output.
- `time.sleep` (line 342): a counted pause, with no duration.
- `float(...)`, `int(...)` of strings, and `str(...)` inside an f-string: collaborator functions in `Conversions`. Floats are reals, so rounding, NaN and infinities are not modelled.
- Regular expressions: every pattern the code uses is a literal or an alternation of literals, so `re.search` is "contains one of the alternatives".
- Reflection through `dir`/`getattr`: replaced by the ordered registry `Registry`. Its order is the code-point order of the method names, written out by hand rather than derived from the names.
- The bare `except:` also catches exceptions such as `KeyboardInterrupt`; only exceptions the rules themselves raise are modelled.
- Key order of the result dict and of the JSON output: a result is a `map`, so key order is not modelled.
- A `Dict` value may repeat a key, which no Python dict does. Lookups then take the first entry. The lemmas that need distinct keys say so through `DistinctKeys`.
- Fields.ViewField: states `view` for dict records and for records that cannot be iterated. For list and string records, `Rules.ViewKeysSpec`, `Rules.ViewKeysInOrder` and `Rules.LookupsSpec` describe the result instead.
