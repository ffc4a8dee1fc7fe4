/**
 * `DataSourceBehavior`: reads the grid widget's paging, sort and filter parameters,
 * applies the sort and filter to the provider, and answers with the requested rows
 * as JSON through a request handler whose detach hook detaches the provider.
 */
module DataSource {
  import opened Wrappers
  import opened Numerals
  import opened Json
  import opened Protocol
  import opened Provider

  /** A grid column: a `PropertyColumn` bound to a field, or a column of another kind. */
  datatype Column = PropertyColumn(field: string) | OtherColumn(title: string)

  /** The fields of the `PropertyColumn`s, in column order. */
  function PropertyFields(columns: seq<Column>): seq<string>
    decreases |columns|
  {
    if |columns| == 0 then []
    else
      var init := PropertyFields(columns[..|columns| - 1]);
      match columns[|columns| - 1]
      case PropertyColumn(f) => init + [f]
      case OtherColumn(_) => init
  }

  /** The members of one row object: each `PropertyColumn`'s field with its value on `bean`. */
  function RowMembers<T>(columns: seq<Column>, resolve: (string, T) -> Value, bean: T): seq<(string, Value)>
    decreases |columns|
  {
    if |columns| == 0 then []
    else
      var init := RowMembers(columns[..|columns| - 1], resolve, bean);
      match columns[|columns| - 1]
      case PropertyColumn(f) => init + [(f, resolve(f, bean))]
      case OtherColumn(_) => init
  }

  /**
   * A row object has one member per `PropertyColumn`, in column order, keyed by the
   * column's field and holding that field's value on the bean.
   */
  lemma {:induction false} RowMembersSpec<T>(columns: seq<Column>, resolve: (string, T) -> Value, bean: T)
    ensures var members := RowMembers(columns, resolve, bean); var fields := PropertyFields(columns);
      |members| == |fields| &&
      forall i :: 0 <= i < |fields| ==> members[i] == (fields[i], resolve(fields[i], bean))
    decreases |columns|
  {
    if |columns| > 0 {
      RowMembersSpec(columns[..|columns| - 1], resolve, bean);
    }
  }

  lemma {:induction false} RowMembersAppend<T>(a: seq<Column>, b: seq<Column>, resolve: (string, T) -> Value, bean: T)
    ensures RowMembers(a + b, resolve, bean) == RowMembers(a, resolve, bean) + RowMembers(b, resolve, bean)
    decreases |b|
  {
    if |b| == 0 {
      assert a + b == a;
    } else {
      assert (a + b)[..|a + b| - 1] == a + b[..|b| - 1];
      RowMembersAppend(a, b[..|b| - 1], resolve, bean);
    }
  }

  lemma RowMembersStep<T>(columns: seq<Column>, i: nat, resolve: (string, T) -> Value, bean: T)
    requires i < |columns|
    ensures RowMembers(columns[..i + 1], resolve, bean) == RowMembers(columns[..i], resolve, bean) +
      match columns[i]
      case PropertyColumn(f) => [(f, resolve(f, bean))]
      case OtherColumn(_) => []
  {
    assert columns[..i + 1][..i] == columns[..i];
  }

  /** A column of another kind contributes nothing, wherever it stands. */
  lemma OtherColumnIgnored<T>(a: seq<Column>, title: string, b: seq<Column>, resolve: (string, T) -> Value, bean: T)
    ensures RowMembers(a + [OtherColumn(title)] + b, resolve, bean) == RowMembers(a + b, resolve, bean)
  {
    RowMembersAppend(a + [OtherColumn(title)], b, resolve, bean);
    RowMembersAppend(a, [OtherColumn(title)], resolve, bean);
    RowMembersAppend(a, b, resolve, bean);
    assert RowMembers([OtherColumn(title)], resolve, bean) == [] by {
      assert [OtherColumn(title)][..0] == [];
    }
  }

  /** The JSON object `newJsonRow` returns for `bean`. */
  function RowText<T>(columns: seq<Column>, resolve: (string, T) -> Value, bean: T): string {
    ObjectText(RowMembers(columns, resolve, bean))
  }

  /** The row objects of `beans`, one per bean, in order. */
  function RowTexts<T>(columns: seq<Column>, resolve: (string, T) -> Value, beans: seq<T>): (r: seq<string>)
    ensures |r| == |beans|
    ensures forall i :: 0 <= i < |beans| ==> r[i] == RowText(columns, resolve, beans[i])
  {
    seq(|beans|, i requires 0 <= i < |beans| => RowText(columns, resolve, beans[i]))
  }

  lemma RowTextsStep<T>(columns: seq<Column>, resolve: (string, T) -> Value, beans: seq<T>, i: nat)
    requires i < |beans|
    ensures RowTexts(columns, resolve, beans[..i + 1])
      == RowTexts(columns, resolve, beans[..i]) + [RowText(columns, resolve, beans[i])]
  {
    var longer := RowTexts(columns, resolve, beans[..i + 1]);
    var shorter := RowTexts(columns, resolve, beans[..i]);
    forall k | 0 <= k < i + 1
      ensures longer[k] == (shorter + [RowText(columns, resolve, beans[i])])[k]
    {
      assert beans[..i + 1][k] == beans[k];
      if k < i {
        assert beans[..i][k] == beans[k];
      }
    }
  }

  /** The provider's state after `respond` has applied a request's sort and filter. */
  function ApplyRequest<T>(s: ProviderState<T>, sortable: bool, filterable: bool, params: Params): ProviderState<T> {
    var sorted :=
      if sortable && SortRequest(params).Some? then s.(sortState := SortRequest(params)) else s;
    if filterable then sorted.(filterState := ApplyFilters(sorted.filterState, FilterPairs(params))) else sorted
  }

  /**
   * The sort state becomes the requested sort when the provider holds sort state and
   * `sort[0][field]` is present, and is left as it was otherwise.
   */
  lemma ApplyRequestSort<T>(s: ProviderState<T>, sortable: bool, filterable: bool, params: Params)
    ensures var r := ApplyRequest(s, sortable, filterable, params);
      (sortable && SortFieldKey in params ==>
        r.sortState == Some(SortParam(params[SortFieldKey], Direction(Lookup(params, SortDirKey))))) &&
      (!sortable || SortFieldKey !in params ==> r.sortState == s.sortState)
  {
  }

  /**
   * The filter state receives exactly the loop's assignments when the provider holds
   * filter state, and none otherwise; rows and detach count are never touched.
   */
  lemma ApplyRequestFilter<T>(s: ProviderState<T>, sortable: bool, filterable: bool, params: Params)
    ensures var r := ApplyRequest(s, sortable, filterable, params);
      r.rows == s.rows && r.detachCount == s.detachCount &&
      (filterable ==> r.filterState == ApplyFilters(s.filterState, FilterPairs(params))) &&
      (!filterable ==> r.filterState == s.filterState) &&
      |FilterPairs(params)| <= Cols
  {
    FilterPairsSpec(params);
  }

  /** `filter[logic]` and the per-clause operators never affect the state. */
  lemma ApplyRequestIgnoresLogicAndOperators<T>(s: ProviderState<T>, sortable: bool, filterable: bool,
                                                params: Params, logic: string, n: nat, operator: string)
    ensures ApplyRequest(s, sortable, filterable, params[LogicKey := logic]) == ApplyRequest(s, sortable, filterable, params)
    ensures ApplyRequest(s, sortable, filterable, params[OperatorKey(n) := operator]) == ApplyRequest(s, sortable, filterable, params)
    ensures Paging(params[LogicKey := logic]) == Paging(params) && Paging(params[OperatorKey(n) := operator]) == Paging(params)
  {
    FilterPairsIgnoreLogic(params, logic);
    FilterPairsIgnoreOperator(params, n, operator);
    FixedKeysAreNotFilterKeys(n);
    assert SortRequest(params[OperatorKey(n) := operator]) == SortRequest(params);
  }

  /** Sending the same request twice leaves the provider as sending it once. */
  lemma ApplyRequestIdempotent<T>(s: ProviderState<T>, sortable: bool, filterable: bool, params: Params)
    ensures var once := ApplyRequest(s, sortable, filterable, params);
      ApplyRequest(once, sortable, filterable, params) == once
  {
    var sorted := if sortable && SortRequest(params).Some? then s.(sortState := SortRequest(params)) else s;
    ApplyFiltersIdempotent(sorted.filterState, FilterPairs(params));
  }

  class DataSourceBehavior<T> {
    const provider: DataProvider<T>
    const columns: seq<Column>
    /** A column's value on a bean (`PropertyColumn.getValue`). */
    const resolve: (string, T) -> Value

    constructor (columns: seq<Column>, provider: DataProvider<T>, resolve: (string, T) -> Value)
      ensures this.columns == columns && this.provider == provider && this.resolve == resolve
    {
      this.columns := columns;
      this.provider := provider;
      this.resolve := resolve;
    }

    /** `setSort`: gives the provider's sort state the order for `property`. */
    method SetSort(property: string, order: SortOrder)
      requires provider.sortable
      modifies provider`sortState
      ensures provider.sortState == Some(SortParam(property, order))
    {
      provider.sortState := Some(SortParam(property, order));
    }

    /**
     * `respond`: reads the paging values, applies the sort and the filter clauses to
     * the provider, and returns the handler that will write the rows.
     */
    method Respond(params: Params) returns (handler: RowsRequestHandler<T>)
      modifies provider`sortState, provider`filterState
      ensures provider.State() == ApplyRequest(old(provider.State()), provider.sortable, provider.filterable, params)
      ensures fresh(handler) && handler.behavior == this
      ensures (handler.first, handler.count) == Paging(params)
    {
      var first := ToIntOr(Lookup(params, SkipKey), 0);
      var count := ToIntOr(Lookup(params, TakeKey), 0);

      if provider.sortable {
        var property := Lookup(params, SortFieldKey);
        var direction := Lookup(params, SortDirKey);
        if property.Some? {
          var order := if direction.None? then Unsorted else if direction.value == Asc then Ascending else Descending;
          assert order == Direction(direction);
          SetSort(property.value, order);
        }
      }
      ghost var sorted := provider.State();
      assert sorted == ApplyRequest(old(provider.State()), provider.sortable, false, params);

      if provider.filterable {
        WriteFilterState(params);
      }

      handler := new RowsRequestHandler(this, first, count);
    }

    /**
     * The filter-state part of `respond`: writes `filter[filters][i][field]` = `[value]`
     * into the provider's filter-state bean for i = 0, 1, … until a field is missing
     * or `Cols` clauses are done; `filter[logic]` and the operators are not read.
     */
    method WriteFilterState(params: Params)
      requires provider.filterable
      modifies provider`filterState
      ensures provider.filterState == ApplyFilters(old(provider.filterState), FilterPairs(params))
    {
      ghost var before := provider.filterState;
      ghost var pairs := FilterPairs(params);
      FilterPairsSpec(params);
      var i := 0;
      while i < Cols
        invariant 0 <= i <= FirstGap(params, 0) == |pairs|
        invariant provider.filterState == ApplyFilters(before, pairs[..i])
      {
        var field := Lookup(params, FieldKey(i));
        var value := Lookup(params, ValueKey(i));
        if field.Some? {
          // one property assignment on the filter-state bean
          ApplyFiltersStep(before, pairs, i);
          provider.filterState := provider.filterState[field.value := value];
        } else {
          break;
        }
        i := i + 1;
      }
      assert pairs[..|pairs|] == pairs;
    }

    /** `newJsonRow`: feeds each `PropertyColumn`'s field and value to a JSON stringer. */
    method NewJsonRow(bean: T) returns (json: string)
      ensures json == RowText(columns, resolve, bean)
    {
      var text := "{";
      var comma := false;
      ghost var members: seq<(string, Value)> := [];
      for i := 0 to |columns|
        invariant members == RowMembers(columns[..i], resolve, bean)
        invariant comma == (members != [])
        invariant text == "{" + Join(MemberTexts(members), ",")
      {
        RowMembersStep(columns, i, resolve, bean);
        match columns[i]
        case PropertyColumn(f) =>
          StringerStep(text, members, f, resolve(f, bean));
          if comma {
            text := text + ",";
          }
          text := text + Quote(f) + ":";
          text := text + RenderValue(resolve(f, bean));
          comma := true;
          members := members + [(f, resolve(f, bean))];
        case OtherColumn(_) =>
      }
      assert columns[..|columns|] == columns;
      json := text + "}";
    }
  }

  /** The handler `newRequestHandler(first, count)` returns. */
  class RowsRequestHandler<T> {
    const behavior: DataSourceBehavior<T>
    const first: int
    const count: int

    constructor (behavior: DataSourceBehavior<T>, first: int, count: int)
      ensures this.behavior == behavior && this.first == first && this.count == count
    {
      this.behavior := behavior;
      this.first := first;
      this.count := count;
    }

    /**
     * `respond`: the envelope holding the provider's size and one row object per
     * row the iterator yields for (`first`, `count`).
     */
    method Respond() returns (text: string)
      ensures text == EnvelopeText(behavior.provider.Size(),
        RowTexts(behavior.columns, behavior.resolve, behavior.provider.Iterator(first, count)))
    {
      var size := behavior.provider.Size();
      var rows := behavior.provider.Iterator(first, count);

      var builder := "{ ";
      builder := builder + Quote("__count") + ": " + IntToString(size) + ", ";
      builder := builder + Quote("results") + ": ";
      builder := builder + "[ ";
      ghost var header := builder;
      EnvelopeHeader(size);

      var index := 0;
      while index < |rows|
        invariant 0 <= index <= |rows|
        invariant builder == header + Join(RowTexts(behavior.columns, behavior.resolve, rows[..index]), RowSeparator)
      {
        var row := behavior.NewJsonRow(rows[index]);
        RowTextsStep(behavior.columns, behavior.resolve, rows, index);
        AppendRow(header, builder, RowTexts(behavior.columns, behavior.resolve, rows[..index]), row);
        if index > 0 {
          builder := builder + ", ";
        }
        builder := builder + row;
        index := index + 1;
      }
      assert rows[..|rows|] == rows;
      text := builder + " ] }";
    }

    /** `detach`: detaches the provider, and does nothing else. */
    method Detach()
      modifies behavior.provider`detachCount
      ensures behavior.provider.detachCount == old(behavior.provider.detachCount) + 1
    {
      behavior.provider.Detach();
    }
  }
}
