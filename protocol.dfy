/**
 * The request the grid widget sends: query parameter names, the paging values,
 * the sort request and the indexed filter clauses, as `DataSourceBehavior.respond`
 * reads them.
 */
module Protocol {
  import opened Wrappers
  import opened Numerals

  /** Query parameters: the first value given for each name. */
  type Params = map<string, string>

  const SkipKey: string := "skip"
  const TakeKey: string := "take"
  const SortFieldKey: string := "sort[0][field]"
  const SortDirKey: string := "sort[0][dir]"
  /** The one direction literal read as ascending. */
  const Asc: string := "asc"
  /** The largest number of filter clauses read from one request. */
  const Cols: nat := 20
  /** Read by the widget's protocol, never by the behaviour. */
  const LogicKey: string := "filter[logic]"
  const FilterPrefix: string := "filter[filters]["

  /** `String.format("filter[filters][%d][field]", i)` */
  function FieldKey(i: nat): string { FilterPrefix + IntToString(i) + "][field]" }
  /** `String.format("filter[filters][%d][value]", i)` */
  function ValueKey(i: nat): string { FilterPrefix + IntToString(i) + "][value]" }
  /** `String.format("filter[filters][%d][operator]", i)`, never read. */
  function OperatorKey(i: nat): string { FilterPrefix + IntToString(i) + "][operator]" }

  /** Wicket's `SortOrder`; `Unsorted` is `SortOrder.NONE`. */
  datatype SortOrder = Ascending | Descending | Unsorted

  /** A property with the order it is to be sorted in. */
  datatype SortParam = SortParam(property: string, order: SortOrder)

  /** A filter-state assignment: property path and the value given for it (`None` is null). */
  type FilterAssignment = (string, Option<string>)

  /** The paging values `first` (from `skip`) and `count` (from `take`); 0 when missing or not an int. */
  function Paging(params: Params): (r: (int, int))
    ensures SkipKey !in params || ParseInt(params[SkipKey]).None? ==> r.0 == 0
    ensures TakeKey !in params || ParseInt(params[TakeKey]).None? ==> r.1 == 0
    ensures SkipKey in params && ParseInt(params[SkipKey]).Some? ==> r.0 == ParseInt(params[SkipKey]).value
    ensures TakeKey in params && ParseInt(params[TakeKey]).Some? ==> r.1 == ParseInt(params[TakeKey]).value
    ensures InInt32(r.0) && InInt32(r.1)
  {
    (ToIntOr(Lookup(params, SkipKey), 0), ToIntOr(Lookup(params, TakeKey), 0))
  }

  /** The sort order a direction literal asks for. */
  function Direction(dir: Option<string>): (o: SortOrder)
    ensures o == Unsorted <==> dir.None?
    ensures o == Ascending <==> dir == Some(Asc)
    ensures o == Descending <==> dir.Some? && dir.value != Asc
  {
    match dir
    case None => Unsorted
    case Some(d) => if d == Asc then Ascending else Descending
  }

  /** The sort a request asks for: none unless `sort[0][field]` is present. */
  function SortRequest(params: Params): (r: Option<SortParam>)
    ensures r.None? <==> SortFieldKey !in params
    ensures r.Some? ==>
      r.value.property == params[SortFieldKey] && r.value.order == Direction(Lookup(params, SortDirKey))
  {
    if SortFieldKey in params then Some(SortParam(params[SortFieldKey], Direction(Lookup(params, SortDirKey))))
    else None
  }

  /** The first index at or after `i` whose field is missing, capped at `Cols`. */
  function FirstGap(params: Params, i: nat): (k: nat)
    requires i <= Cols
    ensures i <= k <= Cols
    ensures forall j :: i <= j < k ==> FieldKey(j) in params
    ensures k < Cols ==> FieldKey(k) !in params
    decreases Cols - i
  {
    if i == Cols || FieldKey(i) !in params then i else FirstGap(params, i + 1)
  }

  /** The assignments the filter loop makes, from index `i` on. */
  function FilterPairsFrom(params: Params, i: nat): seq<FilterAssignment>
    requires i <= Cols
    decreases Cols - i
  {
    if i == Cols then []
    else match Lookup(params, FieldKey(i))
      case None => []
      case Some(field) => [(field, Lookup(params, ValueKey(i)))] + FilterPairsFrom(params, i + 1)
  }

  /** The assignments the filter loop makes, in order. */
  function FilterPairs(params: Params): seq<FilterAssignment> {
    FilterPairsFrom(params, 0)
  }

  lemma {:induction false} FilterPairsFromSpec(params: Params, i: nat)
    requires i <= Cols
    ensures |FilterPairsFrom(params, i)| == FirstGap(params, i) - i
    ensures forall j :: i <= j < FirstGap(params, i) ==>
      FilterPairsFrom(params, i)[j - i] == (params[FieldKey(j)], Lookup(params, ValueKey(j)))
    decreases Cols - i
  {
    if i < Cols && FieldKey(i) in params {
      var head := (params[FieldKey(i)], Lookup(params, ValueKey(i)));
      var tail := FilterPairsFrom(params, i + 1);
      assert FilterPairsFrom(params, i) == [head] + tail;
      FilterPairsFromSpec(params, i + 1);
      forall j | i < j < FirstGap(params, i)
        ensures ([head] + tail)[j - i] == (params[FieldKey(j)], Lookup(params, ValueKey(j)))
      {
        assert ([head] + tail)[j - i] == tail[j - (i + 1)];
      }
    }
  }

  /**
   * The filter loop assigns exactly the clauses 0..k-1, where k is the first index
   * without a field (at most `Cols`), each field with its value, in index order; a
   * missing value assigns null.
   */
  lemma FilterPairsSpec(params: Params)
    ensures var pairs := FilterPairs(params); var k := FirstGap(params, 0);
      |pairs| == k <= Cols &&
      (forall j :: 0 <= j < k ==> pairs[j] == (params[FieldKey(j)], Lookup(params, ValueKey(j)))) &&
      (forall j :: 0 <= j < k && ValueKey(j) !in params ==> pairs[j].1 == None)
  {
    FilterPairsFromSpec(params, 0);
  }

  /** The filter clauses depend on nothing but the field and value parameters up to the gap. */
  lemma {:induction false} FilterPairsFromAgree(p: Params, q: Params, i: nat)
    requires i <= Cols
    requires forall m :: i <= m <= FirstGap(p, i) && m < Cols ==> Lookup(p, FieldKey(m)) == Lookup(q, FieldKey(m))
    requires forall m :: i <= m < FirstGap(p, i) ==> Lookup(p, ValueKey(m)) == Lookup(q, ValueKey(m))
    ensures FilterPairsFrom(p, i) == FilterPairsFrom(q, i)
    decreases Cols - i
  {
    if i < Cols {
      assert Lookup(p, FieldKey(i)) == Lookup(q, FieldKey(i));
      if FieldKey(i) in p {
        FilterPairsFromAgree(p, q, i + 1);
      }
    }
  }

  /** Two filter keys are equal only when they name the same part of the same clause. */
  lemma {:induction false} DigitKeySplit(d1: string, s1: string, d2: string, s2: string)
    requires d1 + s1 == d2 + s2
    requires forall i :: 0 <= i < |d1| ==> IsDigit(d1[i])
    requires forall i :: 0 <= i < |d2| ==> IsDigit(d2[i])
    requires |s1| > 0 && s1[0] == ']' && |s2| > 0 && s2[0] == ']'
    ensures d1 == d2 && s1 == s2
  {
    BracketAfterDigits(d1, s1);
    BracketAfterDigits(d2, s2);
    assert |d1| == |d2|;
    assert d1 == (d1 + s1)[..|d1|];
    assert d2 == (d2 + s2)[..|d2|];
    assert s1 == (d1 + s1)[|d1|..];
    assert s2 == (d2 + s2)[|d2|..];
  }

  lemma BracketAfterDigits(d: string, s: string)
    requires forall i :: 0 <= i < |d| ==> IsDigit(d[i])
    requires |s| > 0 && s[0] == ']'
    ensures forall k :: 0 <= k < |d| ==> (d + s)[k] != ']'
    ensures (d + s)[|d|] == ']'
  {
  }

  lemma FilterKeySplit(i: nat, s1: string, j: nat, s2: string)
    requires FilterPrefix + IntToString(i) + s1 == FilterPrefix + IntToString(j) + s2
    requires |s1| > 0 && s1[0] == ']' && |s2| > 0 && s2[0] == ']'
    ensures i == j && s1 == s2
  {
    var t1 := IntToString(i) + s1;
    var t2 := IntToString(j) + s2;
    assert FilterPrefix + IntToString(i) + s1 == FilterPrefix + t1;
    assert FilterPrefix + IntToString(j) + s2 == FilterPrefix + t2;
    assert t1 == (FilterPrefix + t1)[|FilterPrefix|..];
    assert t2 == (FilterPrefix + t2)[|FilterPrefix|..];
    DigitKeySplit(IntToString(i), s1, IntToString(j), s2);
    IntToStringInjective(i, j);
  }

  /** The parameter names of the filter clauses are pairwise distinct. */
  lemma FilterKeysDistinct(i: nat, j: nat)
    ensures FieldKey(i) == FieldKey(j) ==> i == j
    ensures ValueKey(i) == ValueKey(j) ==> i == j
    ensures FieldKey(i) != ValueKey(j)
    ensures OperatorKey(i) == OperatorKey(j) ==> i == j
    ensures FieldKey(i) != OperatorKey(j) && ValueKey(i) != OperatorKey(j)
  {
    if FieldKey(i) == FieldKey(j) { FilterKeySplit(i, "][field]", j, "][field]"); }
    if ValueKey(i) == ValueKey(j) { FilterKeySplit(i, "][value]", j, "][value]"); }
    if FieldKey(i) == ValueKey(j) { FilterKeySplit(i, "][field]", j, "][value]"); }
    if OperatorKey(i) == OperatorKey(j) { FilterKeySplit(i, "][operator]", j, "][operator]"); }
    if FieldKey(i) == OperatorKey(j) { FilterKeySplit(i, "][field]", j, "][operator]"); }
    if ValueKey(i) == OperatorKey(j) { FilterKeySplit(i, "][value]", j, "][operator]"); }
  }

  /** No filter-clause name is one of the fixed parameter names. */
  lemma FixedKeysAreNotFilterKeys(i: nat)
    ensures FieldKey(i) != LogicKey && ValueKey(i) != LogicKey && OperatorKey(i) != LogicKey
    ensures FieldKey(i) != SkipKey && FieldKey(i) != TakeKey && FieldKey(i) != SortFieldKey && FieldKey(i) != SortDirKey
    ensures ValueKey(i) != SkipKey && ValueKey(i) != TakeKey && ValueKey(i) != SortFieldKey && ValueKey(i) != SortDirKey
    ensures OperatorKey(i) != SkipKey && OperatorKey(i) != TakeKey && OperatorKey(i) != SortFieldKey && OperatorKey(i) != SortDirKey
  {
    assert FieldKey(i)[7] == ValueKey(i)[7] == OperatorKey(i)[7] == 'f';
    assert FieldKey(i)[0] == ValueKey(i)[0] == OperatorKey(i)[0] == 'f';
  }

  /**
   * Nothing from an index past the first gap is read, even when a field is present
   * there: adding a clause after the gap leaves the assignments unchanged.
   */
  lemma FilterPairsStopAtGap(params: Params, j: nat, field: string, value: string)
    requires FirstGap(params, 0) < j
    ensures FilterPairs(params[FieldKey(j) := field][ValueKey(j) := value]) == FilterPairs(params)
  {
    var q := params[FieldKey(j) := field][ValueKey(j) := value];
    var k := FirstGap(params, 0);
    forall m | 0 <= m <= k && m < Cols
      ensures Lookup(params, FieldKey(m)) == Lookup(q, FieldKey(m))
    {
      FilterKeysDistinct(m, j);
    }
    forall m | 0 <= m < k
      ensures Lookup(params, ValueKey(m)) == Lookup(q, ValueKey(m))
    {
      FilterKeysDistinct(m, j);
      FilterKeysDistinct(j, m);
    }
    FilterPairsFromAgree(params, q, 0);
  }

  /** `filter[logic]` never changes what the filter loop assigns. */
  lemma FilterPairsIgnoreLogic(params: Params, logic: string)
    ensures FilterPairs(params[LogicKey := logic]) == FilterPairs(params)
  {
    var q := params[LogicKey := logic];
    forall m: nat
      ensures Lookup(params, FieldKey(m)) == Lookup(q, FieldKey(m))
      ensures Lookup(params, ValueKey(m)) == Lookup(q, ValueKey(m))
    {
      FixedKeysAreNotFilterKeys(m);
    }
    FilterPairsFromAgree(params, q, 0);
  }

  /** No `filter[filters][n][operator]` changes what the filter loop assigns. */
  lemma FilterPairsIgnoreOperator(params: Params, n: nat, operator: string)
    ensures FilterPairs(params[OperatorKey(n) := operator]) == FilterPairs(params)
  {
    var q := params[OperatorKey(n) := operator];
    forall m: nat
      ensures Lookup(params, FieldKey(m)) == Lookup(q, FieldKey(m))
      ensures Lookup(params, ValueKey(m)) == Lookup(q, ValueKey(m))
    {
      FilterKeysDistinct(m, n);
    }
    FilterPairsFromAgree(params, q, 0);
  }
}
