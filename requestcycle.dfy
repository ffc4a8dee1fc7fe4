/**
 * One grid request as the request cycle runs it: `respond` applies the request and
 * schedules the handler, the handler writes the response, then the handler is detached.
 */
module RequestCycle {
  import opened Json
  import opened Protocol
  import opened Provider
  import opened Wrappers
  import opened Numerals
  import opened DataSource

  method Serve<T>(behavior: DataSourceBehavior<T>, params: Params) returns (text: string)
    modifies behavior.provider`sortState, behavior.provider`filterState, behavior.provider`detachCount
    ensures var p := behavior.provider;
      var applied := ApplyRequest(old(p.State()), p.sortable, p.filterable, params);
      p.State() == applied.(detachCount := applied.detachCount + 1)
    ensures var (first, count) := Paging(params);
      text == EnvelopeText(|old(behavior.provider.rows)|,
        RowTexts(behavior.columns, behavior.resolve, Window(old(behavior.provider.rows), first, count)))
  {
    var handler := behavior.Respond(params);
    text := handler.Respond();
    handler.Detach();
  }

  /**
   * Five rows, `skip=2&take=2`: the response holds the rows at positions 2 and 3,
   * and `__count` is 5.
   */
  lemma PageOfFive<T>(rows: seq<T>, columns: seq<Column>, resolve: (string, T) -> Value)
    requires |rows| == 5
    ensures var (first, count) := Paging(map[SkipKey := "2", TakeKey := "2"]);
      Window(rows, first, count) == [rows[2], rows[3]] &&
      CountOf(EnvelopeText(|rows|, RowTexts(columns, resolve, Window(rows, first, count)))) == Some(5)
  {
    var params := map[SkipKey := "2", TakeKey := "2"];
    assert IntToString(2) == "2";
    ToIntOrOfNumeral(2, 0);
    CountRoundTrip(|rows|, RowTexts(columns, resolve, Window(rows, 2, 2)));
  }
}
