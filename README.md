# Kendo UI data-grid data source, modelled in Dafny

This project models `DataSourceBehavior`, the AJAX behaviour behind the Kendo UI data grid
of wicket-kendo-ui. When the grid widget asks for a page of rows, the behaviour
handles it in five steps:

- it reads the paging values `skip` and `take`. Each is 0 when it is missing or is not a 32-bit integer;
- it gives the provider's sort state the order for `sort[0][field]`. It does this only when the provider is an
  `ISortStateLocator` and that parameter is present. The direction maps as: none → `NONE`,
  `"asc"` → `ASCENDING`, anything else → `DESCENDING`;
- it writes the clauses `filter[filters][i][field]` / `[value]`, for `i = 0..19`, into the provider's
  filter-state bean. It does this only when the provider is an `IFilterStateLocator`. It stops at the first
  index that has no field;
- it hands a request handler to the request cycle. The handler writes
  `{ "__count": <size>, "results": [ row, row, … ] }`. Each row is the JSON object of the
  `PropertyColumn` fields of one bean the provider's iterator yields for `(first, count)`;
- the handler's detach hook calls `detach()` on the provider.

Modules, one concern each:

- `Wrappers` (wrappers.dfy): `Option` and map lookup. A parameter that is absent is `None`, the model's
  stand-in for `toOptionalString()` returning null.
- `Numerals` (numerals.dfy): decimal text written as `Long.toString` writes it. Text read as
  `Integer.parseInt` reads it, which is what `StringValue.toInt(0)` does, with the default on failure.
- `Json` (json.dfy): scalar values, the compact row object a `JSONStringer` writes, the
  separated list, and the response envelope. A reader gets the `__count` back out of it.
- `Protocol` (protocol.dfy): the parameter names, `SortOrder`, the direction mapping, the
  paging values, and the assignments the filter loop makes (`FilterPairs`).
- `Provider` (provider.dfy): the data provider as a class. Its sort and filter capabilities are constant flags.
  It holds the rows it serves, its sort state, its filter-state bean (a map from property
  path to optional value) and a count of `detach` calls. `size()` and `iterator(first, count)`
  are given by the rows.
- `DataSource` (datasource.dfy): the behaviour (`DataSourceBehavior`) and the handler it
  creates (`RowsRequestHandler`). Each method is proved against a specification function:
  `ApplyRequest` for the state change of `respond`, `RowText` for `newJsonRow`, and
  `EnvelopeText` for the handler's response.
- `RequestCycle` (requestcycle.dfy): one request run through respond, the handler's response and detach.
  It also has the five-row example.

## Model

| member | source | states |
|---|---|---|
| `Wrappers.Lookup` | wicket-kendo-ui/src/main/java/com/googlecode/wicket/kendo/ui/datatable/DataSourceBehavior.java:93-94 | a request parameter's optional string: present exactly when the name is among the parameters, and then its value |
| `Numerals.ToIntOr` | wicket-kendo-ui/src/main/java/com/googlecode/wicket/kendo/ui/datatable/DataSourceBehavior.java:88-89 | an absent parameter, or one that is not a 32-bit numeral, gives the default; otherwise the parsed value; the result fits in 32 bits |
| `Numerals.ParseInt` | wicket-kendo-ui/src/main/java/com/googlecode/wicket/kendo/ui/datatable/DataSourceBehavior.java:88-89 | a value exactly when the text is a signed numeral within the 32-bit range |
| `Numerals.ParseInteger` | wicket-kendo-ui/src/main/java/com/googlecode/wicket/kendo/ui/datatable/DataSourceBehavior.java:88-89 | a value exactly when the text is an optional sign followed by digits only; the sign of the value follows the sign character |
| `Numerals.IntToString` | wicket-kendo-ui/src/main/java/com/googlecode/wicket/kendo/ui/datatable/DataSourceBehavior.java:177 | non-empty decimal text, digits only except a leading '-' exactly for negative numbers |
| `Numerals.ParseIntegerOfIntToString` | wicket-kendo-ui/src/main/java/com/googlecode/wicket/kendo/ui/datatable/DataSourceBehavior.java:88-89 | reading back the decimal text of any integer gives that integer |
| `Numerals.IntToStringInjective` | wicket-kendo-ui/src/main/java/com/googlecode/wicket/kendo/ui/datatable/DataSourceBehavior.java:121-122 | distinct integers have distinct decimal texts (so formatted parameter names for distinct indices differ) |
| `Numerals.ToIntOrOfNumeral` | wicket-kendo-ui/src/main/java/com/googlecode/wicket/kendo/ui/datatable/DataSourceBehavior.java:88-89 | `skip`/`take` written as the decimal text of a 32-bit integer are read as that integer |
| `Numerals.ToIntOrOfOverflow` | wicket-kendo-ui/src/main/java/com/googlecode/wicket/kendo/ui/datatable/DataSourceBehavior.java:88-89 | a numeral outside the 32-bit range gives the default 0 |
| `Numerals.ToIntOrOfNonNumeric` | wicket-kendo-ui/src/main/java/com/googlecode/wicket/kendo/ui/datatable/DataSourceBehavior.java:88-89 | a value with a non-digit character (other than one leading sign) gives the default 0 |
| `Protocol.Paging` | wicket-kendo-ui/src/main/java/com/googlecode/wicket/kendo/ui/datatable/DataSourceBehavior.java:88-89 | `first`/`count` are 0 when `skip`/`take` is missing or not a 32-bit int, the parsed value otherwise |
| `Protocol.Direction` | wicket-kendo-ui/src/main/java/com/googlecode/wicket/kendo/ui/datatable/DataSourceBehavior.java:99 | NONE exactly when the direction is absent, ASCENDING exactly for `"asc"`, DESCENDING exactly for any other present string |
| `Protocol.SortRequest` | wicket-kendo-ui/src/main/java/com/googlecode/wicket/kendo/ui/datatable/DataSourceBehavior.java:94-100 | a sort is requested exactly when `sort[0][field]` is present, for that property with the mapped direction |
| `Protocol.FirstGap` | wicket-kendo-ui/src/main/java/com/googlecode/wicket/kendo/ui/datatable/DataSourceBehavior.java:119-131 | the index where the loop stops: every earlier index has a field, and it is 20 or has none |
| `Protocol.FilterPairsSpec` | wicket-kendo-ui/src/main/java/com/googlecode/wicket/kendo/ui/datatable/DataSourceBehavior.java:119-133 | the loop makes exactly k ≤ 20 assignments, k the first index without a field; assignment j is field j with value j; a missing value assigns null |
| `Protocol.FilterPairsFromSpec` | wicket-kendo-ui/src/main/java/com/googlecode/wicket/kendo/ui/datatable/DataSourceBehavior.java:119-133 | from index i on, the loop assigns the clauses i..k-1 in order |
| `Protocol.FilterPairsFromAgree` | wicket-kendo-ui/src/main/java/com/googlecode/wicket/kendo/ui/datatable/DataSourceBehavior.java:119-133 | the assignments depend only on the field parameters up to the gap and the value parameters before it |
| `Protocol.FilterKeysDistinct` | wicket-kendo-ui/src/main/java/com/googlecode/wicket/kendo/ui/datatable/DataSourceBehavior.java:106-112 | the field, value and operator names of the clauses are pairwise distinct across indices |
| `Protocol.FixedKeysAreNotFilterKeys` | wicket-kendo-ui/src/main/java/com/googlecode/wicket/kendo/ui/datatable/DataSourceBehavior.java:88-112 | no clause name equals `filter[logic]`, `skip`, `take`, `sort[0][field]` or `sort[0][dir]` |
| `Protocol.FilterPairsStopAtGap` | wicket-kendo-ui/src/main/java/com/googlecode/wicket/kendo/ui/datatable/DataSourceBehavior.java:124-131 | a field and value added at an index past the first gap change nothing the loop assigns |
| `Protocol.FilterPairsIgnoreLogic` | wicket-kendo-ui/src/main/java/com/googlecode/wicket/kendo/ui/datatable/DataSourceBehavior.java:109-113 | `filter[logic]` never changes the assignments |
| `Protocol.FilterPairsIgnoreOperator` | wicket-kendo-ui/src/main/java/com/googlecode/wicket/kendo/ui/datatable/DataSourceBehavior.java:109-113 | no `filter[filters][n][operator]` changes the assignments |
| `Provider.ApplyFiltersDomain` | wicket-kendo-ui/src/main/java/com/googlecode/wicket/kendo/ui/datatable/DataSourceBehavior.java:119-133 | a property is set on the filter-state bean afterwards exactly when it was set before or some assignment names it |
| `Provider.ApplyFiltersLast` | wicket-kendo-ui/src/main/java/com/googlecode/wicket/kendo/ui/datatable/DataSourceBehavior.java:119-133 | when a property is assigned more than once, the last assignment's value is the one it holds |
| `Provider.ApplyFiltersUntouched` | wicket-kendo-ui/src/main/java/com/googlecode/wicket/kendo/ui/datatable/DataSourceBehavior.java:119-133 | a property no assignment names keeps its old value, or stays unset |
| `Provider.ApplyFiltersSpec` | wicket-kendo-ui/src/main/java/com/googlecode/wicket/kendo/ui/datatable/DataSourceBehavior.java:116-133 | after the assignments, an assigned property holds its last assigned value (null when none was given) and any other property keeps its old value |
| `Provider.ApplyFiltersStep` | wicket-kendo-ui/src/main/java/com/googlecode/wicket/kendo/ui/datatable/DataSourceBehavior.java:126 | one more loop iteration is one more property assignment on the filter-state bean |
| `Provider.ApplyFiltersIdempotent` | wicket-kendo-ui/src/main/java/com/googlecode/wicket/kendo/ui/datatable/DataSourceBehavior.java:119-133 | making the same assignments a second time leaves the filter state as it was after the first |
| `Provider.Window` | wicket-kendo-ui/src/main/java/com/googlecode/wicket/kendo/ui/datatable/DataSourceBehavior.java:171 | the rows `iterator(first, count)` yields: at most `count` of them, none for `count` ≤ 0, none when `first` is at or past the end, exactly rows `first` … `first+count-1` that exist when `first` is within the collection, and only the rows before `first+count` when `first` is negative |
| `Provider.DataProvider.Detach` | wicket-kendo-ui/src/main/java/com/googlecode/wicket/kendo/ui/datatable/DataSourceBehavior.java:199 | `detach()` is counted once, and nothing else about the provider changes |
| `Json.Quote` | wicket-kendo-ui/src/main/java/com/googlecode/wicket/kendo/ui/datatable/DataSourceBehavior.java:177-178 | a name between two quote characters: two characters longer, starting and ending with `"`, and the name itself in between |
| `Json.RenderValue` | wicket-kendo-ui/src/main/java/com/googlecode/wicket/kendo/ui/datatable/DataSourceBehavior.java:223 | a scalar's JSON text is non-empty and starts with a quote exactly for strings |
| `Json.ObjectText` | wicket-kendo-ui/src/main/java/com/googlecode/wicket/kendo/ui/datatable/DataSourceBehavior.java:216-227 | the row object is enclosed in braces and is `{}` with no members |
| `Json.StringerStep` | wicket-kendo-ui/src/main/java/com/googlecode/wicket/kendo/ui/datatable/DataSourceBehavior.java:223 | writing a comma when a member has already been written, then the key and the value, appends exactly one member to the object |
| `Json.JoinIsInterleave` | wicket-kendo-ui/src/main/java/com/googlecode/wicket/kendo/ui/datatable/DataSourceBehavior.java:181-189 | "separator before every row but the first", which is how the loop writes, gives the reference form "first row, then separator plus row for each other row" |
| `Json.JoinStartsWithFirst` | wicket-kendo-ui/src/main/java/com/googlecode/wicket/kendo/ui/datatable/DataSourceBehavior.java:183-186 | no separator comes before the first row |
| `Json.JoinEndsWithLast` | wicket-kendo-ui/src/main/java/com/googlecode/wicket/kendo/ui/datatable/DataSourceBehavior.java:183-191 | no separator comes after the last row |
| `Json.AppendRow` | wicket-kendo-ui/src/main/java/com/googlecode/wicket/kendo/ui/datatable/DataSourceBehavior.java:181-189 | one loop iteration adds one row to the list, with `", "` before it unless it is the first |
| `Json.EmptyEnvelope` | wicket-kendo-ui/src/main/java/com/googlecode/wicket/kendo/ui/datatable/DataSourceBehavior.java:176-191 | with no rows the response is `{ "__count": <size>, "results": [  ] }` |
| `Json.EnvelopeHeader` | wicket-kendo-ui/src/main/java/com/googlecode/wicket/kendo/ui/datatable/DataSourceBehavior.java:176-179 | what is written before the first row is `{ "__count": <size>, "results": [ ` |
| `Json.EnvelopeShape` | wicket-kendo-ui/src/main/java/com/googlecode/wicket/kendo/ui/datatable/DataSourceBehavior.java:174-191 | the response is the header, the rows in the reference separated form, and ` ] }` |
| `Json.CountRoundTrip` | wicket-kendo-ui/src/main/java/com/googlecode/wicket/kendo/ui/datatable/DataSourceBehavior.java:170-177 | a reader of the response gets back exactly the count written into it, whatever the rows |
| `Json.TakeUntilAt` | wicket-kendo-ui/src/main/java/com/googlecode/wicket/kendo/ui/datatable/DataSourceBehavior.java:177 | the text of the count ends at the first comma after it, because the count contains no comma |
| `DataSource.RowMembersSpec` | wicket-kendo-ui/src/main/java/com/googlecode/wicket/kendo/ui/datatable/DataSourceBehavior.java:218-225 | a row object has one member per `PropertyColumn`, in column order, keyed by its field and holding that field's value on the bean |
| `DataSource.RowMembersAppend` | wicket-kendo-ui/src/main/java/com/googlecode/wicket/kendo/ui/datatable/DataSourceBehavior.java:218-225 | the members for a concatenated column list are the members for each part, in order |
| `DataSource.OtherColumnIgnored` | wicket-kendo-ui/src/main/java/com/googlecode/wicket/kendo/ui/datatable/DataSourceBehavior.java:220 | a column that is not a `PropertyColumn` contributes nothing, wherever it stands |
| `DataSource.RowTexts` | wicket-kendo-ui/src/main/java/com/googlecode/wicket/kendo/ui/datatable/DataSourceBehavior.java:181-189 | one row object per bean, in iterator order |
| `DataSource.RowTextsStep` | wicket-kendo-ui/src/main/java/com/googlecode/wicket/kendo/ui/datatable/DataSourceBehavior.java:181-189 | the row objects of one more bean are those of the earlier beans followed by that bean's object |
| `DataSource.ApplyRequestSort` | wicket-kendo-ui/src/main/java/com/googlecode/wicket/kendo/ui/datatable/DataSourceBehavior.java:92-101 | the sort state becomes (`sort[0][field]`, mapped direction) when the provider holds sort state and the field is present, and is unchanged otherwise |
| `DataSource.ApplyRequestFilter` | wicket-kendo-ui/src/main/java/com/googlecode/wicket/kendo/ui/datatable/DataSourceBehavior.java:104-134 | the filter state receives exactly the loop's (at most 20) assignments when the provider holds filter state, and none otherwise; rows and detach count are untouched |
| `DataSource.ApplyRequestIgnoresLogicAndOperators` | wicket-kendo-ui/src/main/java/com/googlecode/wicket/kendo/ui/datatable/DataSourceBehavior.java:109-113 | `filter[logic]` and per-clause operators change neither the provider state nor the paging values |
| `DataSource.ApplyRequestIdempotent` | wicket-kendo-ui/src/main/java/com/googlecode/wicket/kendo/ui/datatable/DataSourceBehavior.java:83-134 | applying the same request a second time leaves the provider's state as after the first |
| `DataSource.DataSourceBehavior.constructor` | wicket-kendo-ui/src/main/java/com/googlecode/wicket/kendo/ui/datatable/DataSourceBehavior.java:68-72 | keeps the columns and the provider |
| `DataSource.DataSourceBehavior.SetSort` | wicket-kendo-ui/src/main/java/com/googlecode/wicket/kendo/ui/datatable/DataSourceBehavior.java:75-80 | the provider's sort state becomes the given property and order; nothing else changes |
| `DataSource.DataSourceBehavior.Respond` | wicket-kendo-ui/src/main/java/com/googlecode/wicket/kendo/ui/datatable/DataSourceBehavior.java:83-138 | the new provider state is `ApplyRequest` of the old one, and the new handler carries `first`/`count` as given by `Paging` |
| `DataSource.DataSourceBehavior.WriteFilterState` | wicket-kendo-ui/src/main/java/com/googlecode/wicket/kendo/ui/datatable/DataSourceBehavior.java:119-133 | the filter-state bean afterwards is the old one with the field/value pairs of `FilterPairs` assigned in index order, stopping at the first missing field |
| `DataSource.DataSourceBehavior.NewJsonRow` | wicket-kendo-ui/src/main/java/com/googlecode/wicket/kendo/ui/datatable/DataSourceBehavior.java:210-235 | the text the stringer builds over the columns is the object of the bean's `PropertyColumn` members (`RowText`) |
| `DataSource.RowsRequestHandler.constructor` | wicket-kendo-ui/src/main/java/com/googlecode/wicket/kendo/ui/datatable/DataSourceBehavior.java:157-159 | the handler keeps the behaviour and exactly the `first` and `count` it was created with |
| `DataSource.RowsRequestHandler.Respond` | wicket-kendo-ui/src/main/java/com/googlecode/wicket/kendo/ui/datatable/DataSourceBehavior.java:162-194 | the response is the envelope of `provider.size()` and one row object per row `iterator(first, count)` yields |
| `DataSource.RowsRequestHandler.Detach` | wicket-kendo-ui/src/main/java/com/googlecode/wicket/kendo/ui/datatable/DataSourceBehavior.java:197-200 | detaching the handler detaches the provider once and changes nothing else |
| `RequestCycle.Serve` | wicket-kendo-ui/src/main/java/com/googlecode/wicket/kendo/ui/datatable/DataSourceBehavior.java:136-137 | a whole request applies the sort and filter state, reports the size of the entire collection whatever the window, writes the window's rows, and detaches the provider exactly once |
| `RequestCycle.PageOfFive` | wicket-kendo-ui/src/main/java/com/googlecode/wicket/kendo/ui/datatable/DataSourceBehavior.java:170-171 | with five rows, `skip=2&take=2` yields the rows at positions 2 and 3, and the response reports a count of 5 |

## Left out

- HTTP plumbing is not modelled: `RequestCycle`, `WebResponse`, the content type and encoding, `disableCaching`,
  and the way `scheduleRequestHandlerAfterCurrent` runs the handler. The handler's response is the text it returns.
  `RequestCycle.Serve` stands for the order in which the request cycle runs respond, the handler and detach.
- Query parameters are a map that holds the first value of each name. Repeated parameters are not modelled.
- `PropertyResolver.setValue` and `PropertyResolverConverter` are not modelled. The same goes for
  `newPropertyResolverConverter` with the application and session locale. A filter assignment is a map update
  on the filter-state bean, from property path to optional string. A path that does not resolve, and a failed
  conversion (`ConversionException`), are library behaviour outside this model.
- `PropertyColumn.getValue` (property-path resolution on the row bean) is the behaviour's `resolve` function.
  It is given, not modelled.
- DataSource.DataSourceBehavior.NewJsonRow: does not model a `JSONException` turned into `ConversionException`.
  This would come from a null key, a duplicate key or a non-finite number. `JSONStringer` is not part of this model.
- The JSON text does not escape keys or string values (`JSONStringer`'s quoting). Numbers are integers.
- `Options.QUOTE` is taken to be the double-quote character. `Options` is not part of this model.
- Numerals.ParseInt: accepts ASCII digits only. `Integer.parseInt` also accepts other Unicode decimal digits.
  The locale-dependent digits of `String.format("%d", i)` are not modelled either: the names use ASCII digits.
- The provider's own semantics are not modelled. `size()` is the length of its rows. `iterator(first, count)`
  is the window of those rows. How the provider sorts and filters by its sort and filter state is not in this code,
  so setting them leaves the rows as given.
- The provider's sort state records the last (property, order) pair given to `setPropertySortOrder`.
  How an `ISortState` implementation treats `NONE` is outside this model.
- Negative `skip`/`take` are not rejected, as in the source. The window clamps them.
- Concurrency is not modelled: the source assumes one request per provider at a time.
- The widget wrappers that only assemble options or attach behaviours are not modelled:
  AjaxTimePicker, Editor, SfMenuBehavior, ConsoleBehavior, Selectable.
- Also not modelled: `KendoIcon` (constants and one string comparison), the synchronized lazy cache in
  `CommandsColumn.getButtons`, and the sample pages. None of these has logic of the data source.
