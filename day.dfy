/**
 The daily fetcher: for each symbol page 1 of the daily price table is
 requested, its `<span class="tah">` texts are cleaned and cut into rows of
 seven fields, and the first row dated on the requested date with an opening
 price other than `"0"` becomes the tab-separated line
 `symbol, open, high, low, close, volume`. The lines are printed in the order
 of the input symbols; nothing sorts them.

 The HTTP exchange is the parameter `respond`, which answers each query with
 `DayFailed` (non-200 status, timeout or exception) or the page's span texts.
 */
module Day {

  import opened Wrappers
  import opened Text

  /** One parsed row, by field name. */
  datatype DayRow = DayRow(date: string, close: string, delta: string, open: string,
                           high: string, low: string, volume: string)

  /** The query parameters: the symbol and always page 1. */
  datatype DayQuery = DayQuery(code: string, page: int)

  datatype DayResponse = DayFailed | DayFetched(spans: seq<string>)

  // ---------------------------------------------------------------- parsing

  /** One span text as `parse` cleans it: stripped, `,` dropped, `.` turned into `-`. */
  function CleanDayValue(text: string): (v: string)
    ensures ',' !in v && '.' !in v
  {
    var s := RemoveChar(Strip(text), ',');
    var v := ReplaceChar(s, '.', '-');
    assert forall k :: 0 <= k < |v| ==> v[k] != ',' && v[k] != '.';
    v
  }

  /** A dotted date such as `2025.01.10` is cleaned into the dashed form `2025-01-10`. */
  lemma CleanDottedDate(year: string, month: string, day: string)
    requires |year| == 4 && |month| == 2 && |day| == 2
    requires AllDigits(year) && AllDigits(month) && AllDigits(day)
    ensures CleanDayValue(year + "." + month + "." + day) == year + "-" + month + "-" + day
  {
    var dotted := year + "." + month + "." + day;
    var dashed := year + "-" + month + "-" + day;
    assert dotted[0] == year[0] && dotted[|dotted| - 1] == day[1];
    assert !IsSpace(dotted[0]) && !IsSpace(dotted[|dotted| - 1]);
    StripUnpadded(dotted);
    assert ',' !in dotted by {
      forall k | 0 <= k < |dotted| ensures dotted[k] != ',' {
        if k < 4 { assert dotted[k] == year[k]; }
        else if 5 <= k < 7 { assert dotted[k] == month[k - 5]; }
        else if 8 <= k { assert dotted[k] == day[k - 8]; }
      }
    }
    var v := ReplaceChar(dotted, '.', '-');
    forall k | 0 <= k < |dotted|
      ensures v[k] == dashed[k]
    {
      if k < 4 { assert dotted[k] == year[k] && dashed[k] == year[k]; }
      else if 5 <= k < 7 { assert dotted[k] == month[k - 5] && dashed[k] == month[k - 5]; }
      else if 8 <= k { assert dotted[k] == day[k - 8] && dashed[k] == day[k - 8]; }
    }
  }

  /** A text with no whitespace at either end is its own strip. */
  lemma StripUnpadded(s: string)
    requires s != [] && !IsSpace(s[0]) && !IsSpace(s[|s| - 1])
    ensures Strip(s) == s
  {
    var r := Strip(s);
    var i, j :| && 0 <= i <= j <= |s| && r == s[i..j]
                && (forall k :: 0 <= k < i ==> IsSpace(s[k]))
                && (forall k :: j <= k < |s| ==> IsSpace(s[k]));
  }

  /** A cleaned value: it holds neither a `,` nor a `.`. */
  predicate Cleaned(v: string) {
    ',' !in v && '.' !in v
  }

  /** The comprehension over all span texts of the page. */
  function CleanDayValues(spans: seq<string>): (values: seq<string>)
    ensures |values| == |spans|
    ensures forall k :: 0 <= k < |values| ==> Cleaned(values[k])
  {
    if spans == [] then []
    else
      var head := CleanDayValue(spans[0]);
      var rest := CleanDayValues(spans[1..]);
      assert forall k :: 0 < k <= |rest| ==> ([head] + rest)[k] == rest[k - 1];
      [head] + rest
  }

  /** Value `k` of the comprehension is span text `k`, cleaned. */
  lemma {:induction false} CleanDayValuesAt(spans: seq<string>)
    ensures forall k :: 0 <= k < |spans| ==> CleanDayValues(spans)[k] == CleanDayValue(spans[k])
    decreases |spans|
  {
    if spans != [] {
      CleanDayValuesAt(spans[1..]);
    }
  }

  /** Row `k` of a cleaned value list: date, close, delta, open, high, low, volume. */
  function DayRowAt(values: seq<string>, k: nat): DayRow
    requires 7 * k + 7 <= |values|
  {
    var i := 7 * k;
    DayRow(values[i], values[i + 1], values[i + 2], values[i + 3], values[i + 4], values[i + 5], values[i + 6])
  }

  /** The generator `parse` yields: one row per complete group of seven values. */
  function DayRows(values: seq<string>): (rows: seq<DayRow>)
    ensures |rows| == |values| / 7
    decreases |values|
  {
    if |values| < 7 then []
    else [DayRow(values[0], values[1], values[2], values[3], values[4], values[5], values[6])]
         + DayRows(values[7..])
  }

  /** `parse` yields floor(n / 7) rows in page order; a partial group at the end is dropped. */
  lemma {:induction false} DayRowsAt(values: seq<string>)
    ensures |DayRows(values)| == |values| / 7
    ensures forall k :: 0 <= k < |values| / 7 ==> DayRows(values)[k] == DayRowAt(values, k)
    decreases |values|
  {
    if |values| >= 7 {
      var tail := values[7..];
      DayRowsAt(tail);
      forall k | 1 <= k < |values| / 7
        ensures DayRows(values)[k] == DayRowAt(values, k)
      {
        assert DayRows(values)[k] == DayRows(tail)[k - 1];
        assert DayRowAt(tail, k - 1) == DayRowAt(values, k);
      }
    }
  }

  /** `parse`: one row per complete group of seven cleaned span texts, every field cleaned. */
  function Parse(spans: seq<string>): (rows: seq<DayRow>)
    ensures |rows| == |spans| / 7
    ensures forall k :: 0 <= k < |rows| ==>
              && Cleaned(rows[k].date) && Cleaned(rows[k].close) && Cleaned(rows[k].delta)
              && Cleaned(rows[k].open) && Cleaned(rows[k].high) && Cleaned(rows[k].low)
              && Cleaned(rows[k].volume)
  {
    var values := CleanDayValues(spans);
    DayRowsAt(values);
    DayRows(values)
  }

  /** Row `k` of `parse` holds span texts 7k .. 7k + 6, each cleaned, under their field names. */
  lemma ParseFieldsOfSpans(spans: seq<string>, k: nat)
    requires 7 * k + 7 <= |spans|
    ensures var rows := Parse(spans);
            && k < |rows|
            && rows[k] == DayRow(CleanDayValue(spans[7 * k]), CleanDayValue(spans[7 * k + 1]),
                                 CleanDayValue(spans[7 * k + 2]), CleanDayValue(spans[7 * k + 3]),
                                 CleanDayValue(spans[7 * k + 4]), CleanDayValue(spans[7 * k + 5]),
                                 CleanDayValue(spans[7 * k + 6]))
  {
    var values := CleanDayValues(spans);
    DayRowsAt(values);
    CleanDayValuesAt(spans);
    assert Parse(spans)[k] == DayRowAt(values, k);
  }

  // ---------------------------------------------------------------- selection

  /** The row-selection test: the requested date, and a non-zero opening price. */
  predicate Trading(row: DayRow, date: string) {
    row.date == date && row.open != "0"
  }

  /** The index of the first row passing `Trading`, the row the loop returns on. */
  function FirstTrading(rows: seq<DayRow>, date: string): (r: Option<nat>)
    ensures r.None? <==> forall k :: 0 <= k < |rows| ==> !Trading(rows[k], date)
    ensures r.Some? ==> r.value < |rows| && Trading(rows[r.value], date)
    ensures r.Some? ==> forall k :: 0 <= k < r.value ==> !Trading(rows[k], date)
    decreases |rows|
  {
    if rows == [] then None
    else if Trading(rows[0], date) then Some(0)
    else match FirstTrading(rows[1..], date)
      case None => None
      case Some(k) => Some(k + 1)
  }

  /** The output line of a selected row. */
  function DayLine(symbol: string, row: DayRow): string {
    Join([symbol, row.open, row.high, row.low, row.close, row.volume], '\t')
  }

  /**
   `fetch_symbol`: the line of the first trading row on the requested date, or
   `None` when the request fails or no such row exists.
   */
  function FetchSymbol(symbol: string, date: string, respond: DayQuery -> DayResponse): (r: Option<string>)
    ensures respond(DayQuery(symbol, 1)).DayFailed? ==> r.None?
    ensures respond(DayQuery(symbol, 1)).DayFetched? ==>
              var rows := Parse(respond(DayQuery(symbol, 1)).spans);
              && (r.None? <==> forall k :: 0 <= k < |rows| ==> !Trading(rows[k], date))
              && (r.Some? ==> exists k :: && 0 <= k < |rows| && Trading(rows[k], date)
                                          && (forall j :: 0 <= j < k ==> !Trading(rows[j], date))
                                          && r.value == DayLine(symbol, rows[k]))
  {
    match respond(DayQuery(symbol, 1))
    case DayFailed => None
    case DayFetched(spans) =>
      var rows := Parse(spans);
      match FirstTrading(rows, date)
      case None => None
      case Some(k) => Some(DayLine(symbol, rows[k]))
  }

  /** A requested date whose rows all open at `"0"` (a non-trading day) gives no line. */
  lemma ZeroOpenGivesNone(symbol: string, date: string, respond: DayQuery -> DayResponse)
    requires respond(DayQuery(symbol, 1)).DayFetched?
    requires var rows := Parse(respond(DayQuery(symbol, 1)).spans);
             forall k :: 0 <= k < |rows| && rows[k].date == date ==> rows[k].open == "0"
    ensures FetchSymbol(symbol, date, respond) == None
  {
  }

  /** A line whose fields hold no tab splits back into `symbol, open, high, low, close, volume`. */
  lemma DayLineFields(symbol: string, row: DayRow)
    requires '\t' !in symbol && '\t' !in row.open && '\t' !in row.high
    requires '\t' !in row.low && '\t' !in row.close && '\t' !in row.volume
    ensures Split(DayLine(symbol, row), '\t') == [symbol, row.open, row.high, row.low, row.close, row.volume]
  {
    SplitJoin([symbol, row.open, row.high, row.low, row.close, row.volume], '\t');
  }

  /** Every line has at least the five tabs between its six fields, so it is never empty. */
  lemma DayLineNonEmpty(symbol: string, row: DayRow)
    ensures |DayLine(symbol, row)| >= 5
  {
    JoinLength([symbol, row.open, row.high, row.low, row.close, row.volume], '\t');
  }

  // ---------------------------------------------------------------- batch

  /** The gathered results, one per input symbol and in input order. */
  function Results(symbols: seq<string>, date: string, respond: DayQuery -> DayResponse): (results: seq<Option<string>>)
    ensures |results| == |symbols|
    decreases |symbols|
  {
    if symbols == [] then []
    else [FetchSymbol(symbols[0], date, respond)] + Results(symbols[1..], date, respond)
  }

  /** `asyncio.gather` keeps task order: result `k` is that of symbol `k`. */
  lemma {:induction false} ResultsAt(symbols: seq<string>, date: string, respond: DayQuery -> DayResponse)
    ensures forall k :: 0 <= k < |symbols| ==>
              Results(symbols, date, respond)[k] == FetchSymbol(symbols[k], date, respond)
    decreases |symbols|
  {
    if symbols != [] {
      ResultsAt(symbols[1..], date, respond);
    }
  }

  /** The `if res:` filter: the truthy results (present and non-empty), in order. */
  function Printed(results: seq<Option<string>>): (lines: seq<string>)
    ensures |lines| <= |results|
    ensures forall s :: s in lines ==> s != "" && Some(s) in results
    decreases |results|
  {
    if results == [] then []
    else
      var rest := Printed(results[1..]);
      assert forall s :: Some(s) in results[1..] ==> Some(s) in results;
      if results[0].Some? && results[0].value != "" then [results[0].value] + rest else rest
  }

  /** The filter keeps order: results printed from a concatenation are the two outputs concatenated. */
  lemma {:induction false} PrintedConcat(a: seq<Option<string>>, b: seq<Option<string>>)
    ensures Printed(a + b) == Printed(a) + Printed(b)
    decreases |a|
  {
    if a != [] {
      assert (a + b)[1..] == a[1..] + b;
      PrintedConcat(a[1..], b);
    } else {
      assert a + b == b;
    }
  }

  /** `main_async`: fetch every symbol, then print the non-empty results in input order. */
  function MainAsync(symbols: seq<string>, date: string, respond: DayQuery -> DayResponse): (lines: seq<string>)
    ensures |lines| <= |symbols|
  {
    Printed(Results(symbols, date, respond))
  }

  /** The output for a concatenation of symbol lists is the concatenation of the outputs. */
  lemma {:induction false} MainAsyncConcat(s1: seq<string>, s2: seq<string>, date: string, respond: DayQuery -> DayResponse)
    ensures MainAsync(s1 + s2, date, respond) == MainAsync(s1, date, respond) + MainAsync(s2, date, respond)
    decreases |s1|
  {
    ResultsConcat(s1, s2, date, respond);
    PrintedConcat(Results(s1, date, respond), Results(s2, date, respond));
  }

  lemma {:induction false} ResultsConcat(s1: seq<string>, s2: seq<string>, date: string, respond: DayQuery -> DayResponse)
    ensures Results(s1 + s2, date, respond) == Results(s1, date, respond) + Results(s2, date, respond)
    decreases |s1|
  {
    if s1 != [] {
      assert (s1 + s2)[1..] == s1[1..] + s2;
      ResultsConcat(s1[1..], s2, date, respond);
    } else {
      assert s1 + s2 == s2;
    }
  }

  /** A line `fetch_symbol` returns is never empty, since it holds the five tabs between six fields. */
  lemma FetchedLineNonEmpty(symbol: string, date: string, respond: DayQuery -> DayResponse)
    ensures FetchSymbol(symbol, date, respond).Some? ==> FetchSymbol(symbol, date, respond).value != ""
  {
    if FetchSymbol(symbol, date, respond).Some? {
      var rows := Parse(respond(DayQuery(symbol, 1)).spans);
      var k := FirstTrading(rows, date).value;
      DayLineNonEmpty(symbol, rows[k]);
    }
  }

  /** The filter on two present, non-empty results prints both, in order. */
  lemma PrintedPair(ra: Option<string>, rb: Option<string>)
    requires ra.Some? && ra.value != "" && rb.Some? && rb.value != ""
    ensures Printed([ra, rb]) == [ra.value, rb.value]
  {
  }

  /**
   One symbol prints its line exactly when `fetch_symbol` returned one: the
   `if res:` test drops only `None`, since a line is never empty.
   */
  lemma MainAsyncSingle(symbol: string, date: string, respond: DayQuery -> DayResponse)
    ensures MainAsync([symbol], date, respond)
         == match FetchSymbol(symbol, date, respond) case None => [] case Some(line) => [line]
  {
    var r := FetchSymbol(symbol, date, respond);
    FetchedLineNonEmpty(symbol, date, respond);
    assert Results([symbol], date, respond) == [r];
  }

  /**
   Two symbols that both yield a line are printed in input order, whatever
   the lines' text order: the batch is not sorted.
   */
  lemma MainAsyncKeepsInputOrder(a: string, b: string, date: string, respond: DayQuery -> DayResponse)
    requires FetchSymbol(a, date, respond).Some? && FetchSymbol(b, date, respond).Some?
    ensures MainAsync([a, b], date, respond)
         == [FetchSymbol(a, date, respond).value, FetchSymbol(b, date, respond).value]
  {
    var ra := FetchSymbol(a, date, respond);
    var rb := FetchSymbol(b, date, respond);
    ResultsAt([a, b], date, respond);
    assert Results([a, b], date, respond) == [ra, rb];
    FetchedLineNonEmpty(a, date, respond);
    FetchedLineNonEmpty(b, date, respond);
    PrintedPair(ra, rb);
  }
}
