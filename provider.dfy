/**
 * The data provider the behaviour is given: Wicket's `IDataProvider`, optionally also an
 * `ISortStateLocator` and an `IFilterStateLocator`. Only what the behaviour touches is
 * modelled: the rows it serves, its sort state, its filter-state object and `detach`.
 */
module Provider {
  import opened Wrappers
  import opened Protocol

  /** The filter-state bean, seen as the value last assigned to each property path. */
  type FilterState = map<string, Option<string>>

  /** Everything about a provider that a request can observe or change. */
  datatype ProviderState<T> = ProviderState(
    rows: seq<T>,
    sortState: Option<SortParam>,
    filterState: FilterState,
    detachCount: nat)

  /** Writing `pairs` into the filter-state bean one after the other (`PropertyResolver.setValue`). */
  function ApplyFilters(state: FilterState, pairs: seq<FilterAssignment>): FilterState
    decreases |pairs|
  {
    if |pairs| == 0 then state
    else
      var last := pairs[|pairs| - 1];
      ApplyFilters(state, pairs[..|pairs| - 1])[last.0 := last.1]
  }

  /** One more assignment, taken from the front of `pairs`. */
  lemma ApplyFiltersStep(state: FilterState, pairs: seq<FilterAssignment>, i: nat)
    requires i < |pairs|
    ensures ApplyFilters(state, pairs[..i + 1]) == ApplyFilters(state, pairs[..i])[pairs[i].0 := pairs[i].1]
  {
    assert pairs[..i + 1][..i] == pairs[..i];
  }

  /** A property is set after the assignments exactly when it was set before or is assigned. */
  lemma {:induction false} ApplyFiltersDomain(state: FilterState, pairs: seq<FilterAssignment>, f: string)
    ensures f in ApplyFilters(state, pairs) <==> f in state || exists i :: 0 <= i < |pairs| && pairs[i].0 == f
    decreases |pairs|
  {
    if |pairs| > 0 {
      var init := pairs[..|pairs| - 1];
      ApplyFiltersDomain(state, init, f);
      if exists i :: 0 <= i < |pairs| && pairs[i].0 == f {
        var i :| 0 <= i < |pairs| && pairs[i].0 == f;
        if i < |pairs| - 1 {
          assert init[i].0 == f;
        }
      }
    }
  }

  /** The last assignment to a property wins. */
  lemma {:induction false} ApplyFiltersLast(state: FilterState, pairs: seq<FilterAssignment>, f: string, i: nat)
    requires i < |pairs| && pairs[i].0 == f
    requires forall j :: i < j < |pairs| ==> pairs[j].0 != f
    ensures var r := ApplyFilters(state, pairs); f in r && r[f] == pairs[i].1
    decreases |pairs|
  {
    if i < |pairs| - 1 {
      var init := pairs[..|pairs| - 1];
      assert pairs[|pairs| - 1].0 != f;
      ApplyFiltersLast(state, init, f, i);
    }
  }

  /** A property no assignment names keeps what it held. */
  lemma {:induction false} ApplyFiltersUntouched(state: FilterState, pairs: seq<FilterAssignment>, f: string)
    requires forall i :: 0 <= i < |pairs| ==> pairs[i].0 != f
    ensures Lookup(ApplyFilters(state, pairs), f) == Lookup(state, f)
    decreases |pairs|
  {
    if |pairs| > 0 {
      var init := pairs[..|pairs| - 1];
      assert pairs[|pairs| - 1].0 != f;
      ApplyFiltersUntouched(state, init, f);
    }
  }

  /**
   * What the filter-state bean holds after the assignments: for a property that was
   * assigned, the value of its last assignment; for any other, what it held before.
   */
  lemma ApplyFiltersSpec(state: FilterState, pairs: seq<FilterAssignment>, f: string)
    ensures var r := ApplyFilters(state, pairs);
      (f in r <==> f in state || exists i :: 0 <= i < |pairs| && pairs[i].0 == f) &&
      (forall i :: 0 <= i < |pairs| && pairs[i].0 == f && (forall j :: i < j < |pairs| ==> pairs[j].0 != f) ==>
         r[f] == pairs[i].1) &&
      ((forall i :: 0 <= i < |pairs| ==> pairs[i].0 != f) ==> Lookup(r, f) == Lookup(state, f))
  {
    ApplyFiltersDomain(state, pairs, f);
    forall i | 0 <= i < |pairs| && pairs[i].0 == f && (forall j :: i < j < |pairs| ==> pairs[j].0 != f)
      ensures f in ApplyFilters(state, pairs) && ApplyFilters(state, pairs)[f] == pairs[i].1
    {
      ApplyFiltersLast(state, pairs, f, i);
    }
    if forall i :: 0 <= i < |pairs| ==> pairs[i].0 != f {
      ApplyFiltersUntouched(state, pairs, f);
    }
  }

  /** Repeating the same assignments changes nothing more. */
  lemma ApplyFiltersIdempotent(state: FilterState, pairs: seq<FilterAssignment>)
    ensures ApplyFilters(ApplyFilters(state, pairs), pairs) == ApplyFilters(state, pairs)
  {
    var once := ApplyFilters(state, pairs);
    var twice := ApplyFilters(once, pairs);
    forall f
      ensures Lookup(twice, f) == Lookup(once, f)
    {
      ApplyFiltersSpec(state, pairs, f);
      ApplyFiltersSpec(once, pairs, f);
      if exists i :: 0 <= i < |pairs| && pairs[i].0 == f {
        var i := LastIndexOf(pairs, f);
      }
    }
    assert forall f :: f in twice <==> f in once by {
      forall f ensures f in twice <==> f in once {
        assert (Lookup(twice, f) == Lookup(once, f));
      }
    }
    assert forall f :: f in twice ==> twice[f] == once[f] by {
      forall f | f in twice ensures twice[f] == once[f] {
        assert Lookup(twice, f) == Lookup(once, f);
      }
    }
  }

  /** The last assignment to `f`. */
  lemma LastIndexOf(pairs: seq<FilterAssignment>, f: string) returns (i: nat)
    requires exists k :: 0 <= k < |pairs| && pairs[k].0 == f
    ensures i < |pairs| && pairs[i].0 == f && forall j :: i < j < |pairs| ==> pairs[j].0 != f
  {
    i := |pairs| - 1;
    while pairs[i].0 != f
      invariant 0 <= i < |pairs|
      invariant exists k :: 0 <= k <= i && pairs[k].0 == f
      invariant forall j :: i < j < |pairs| ==> pairs[j].0 != f
      decreases i
    {
      i := i - 1;
    }
  }

  /**
   * The rows `iterator(first, count)` yields: those of the current ordering at
   * positions `first` to `first + count - 1` that exist.
   */
  function Window<T>(rows: seq<T>, first: int, count: int): (w: seq<T>)
    ensures 0 <= first <= |rows| && count >= 0 ==>
      w == rows[first..if first + count <= |rows| then first + count else |rows|]
    ensures first < 0 && count >= 0 ==>
      w == rows[..if first + count < 0 then 0 else if first + count <= |rows| then first + count else |rows|]
    ensures first >= |rows| ==> w == []
    ensures |w| <= |rows| && (count >= 0 ==> |w| <= count) && (count <= 0 ==> w == [])
  {
    var lo := if first < 0 then 0 else if first > |rows| then |rows| else first;
    var hi := if first + count < lo then lo else if first + count > |rows| then |rows| else first + count;
    rows[lo..hi]
  }

  class DataProvider<T> {
    /** The provider is an `ISortStateLocator`. */
    const sortable: bool
    /** The provider is an `IFilterStateLocator`. */
    const filterable: bool
    /** The collection in its current sort order, filtered. */
    var rows: seq<T>
    /** The last sort given to its sort state. */
    var sortState: Option<SortParam>
    /** Its filter-state bean. */
    var filterState: FilterState
    /** How many times `detach` was called. */
    var detachCount: nat

    constructor (rows: seq<T>, sortable: bool, filterable: bool)
      ensures this.rows == rows && this.sortable == sortable && this.filterable == filterable
      ensures sortState == None && filterState == map[] && detachCount == 0
    {
      this.rows := rows;
      this.sortable := sortable;
      this.filterable := filterable;
      sortState := None;
      filterState := map[];
      detachCount := 0;
    }

    function State(): ProviderState<T>
      reads this
    {
      ProviderState(rows, sortState, filterState, detachCount)
    }

    /** `size()`: the whole collection, whatever window is asked for. */
    function Size(): nat
      reads this
    {
      |rows|
    }

    /** The rows `iterator(first, count)` yields. */
    function Iterator(first: int, count: int): seq<T>
      reads this
    {
      Window(rows, first, count)
    }

    /** `detach()`: releases what the provider held for this request. */
    method Detach()
      modifies this`detachCount
      ensures detachCount == old(detachCount) + 1
    {
      detachCount := detachCount + 1;
    }
  }
}
