/**
 The intraday ("minute") fetcher for one symbol: page 1 is requested, its rows
 are parsed and the `pgRR` navigation cell gives the last page number; pages
 2..last are then requested, their rows appended in page order, deduplicated
 by time (first seen wins) and emitted in ascending time order as
 tab-separated lines `symbol, price, volume, time`.

 The HTTP exchange is the parameter `respond`, which answers each query with
 either `Failed` (non-200 status, timeout or exception) or the fetched page,
 given as the texts of its `<span class="tah">` cells and its `pgRR` cell.
 */
module Minute {

  import opened Wrappers
  import opened Text

  /** One output row: `[symbol, price, volume, time]`. */
  datatype Row = Row(symbol: string, price: string, volume: string, time: string)

  /** The `pgRR` cell of a page: absent, present without a usable link, or its link's href. */
  datatype PagerCell = NoPager | PagerWithoutHref | PagerHref(href: string)

  datatype Page = Page(spans: seq<string>, pager: PagerCell)

  datatype Response = Failed | Fetched(page: Page)

  /** The query parameters of one page request. */
  datatype Query = Query(page: int, code: string, thistime: string)

  /** What fetching one symbol does: the queries it issues, in order, and the rows it emits. */
  datatype Outcome = Outcome(requested: seq<Query>, rows: seq<Row>)

  // ---------------------------------------------------------------- parsing

  /** One span text as `parse_rows` cleans it: stripped, then every `,` dropped. */
  function CleanValue(text: string): (v: string)
    ensures ',' !in v
    ensures forall c :: c in v ==> c in text
  {
    RemoveChar(Strip(text), ',')
  }

  /** The comprehension over all span texts of a page. */
  function CleanValues(spans: seq<string>): (values: seq<string>)
    ensures |values| == |spans|
    ensures forall k :: 0 <= k < |spans| ==> values[k] == CleanValue(spans[k])
    ensures forall k :: 0 <= k < |values| ==> ',' !in values[k]
  {
    if spans == [] then [] else [CleanValue(spans[0])] + CleanValues(spans[1..])
  }

  /** Row `k` of a cleaned value list: columns Time, Price, Chg, Open, High, Low, Vol. */
  function RowAt(symbol: string, values: seq<string>, k: nat): Row
    requires 7 * k + 7 <= |values|
  {
    Row(symbol, values[7 * k + 1], values[7 * k + 6], values[7 * k])
  }

  /** The value list cut into groups of seven, each projected to one row. */
  function ParsedRows(symbol: string, values: seq<string>): (rows: seq<Row>)
    ensures |rows| == |values| / 7
    ensures forall k :: 0 <= k < |rows| ==> rows[k].symbol == symbol
    decreases |values|
  {
    if |values| < 7 then []
    else [Row(symbol, values[1], values[6], values[0])] + ParsedRows(symbol, values[7..])
  }

  /** Exactly one row per complete group of seven, in page order; a partial group is dropped. */
  lemma {:induction false} ParsedRowsAt(symbol: string, values: seq<string>)
    ensures |ParsedRows(symbol, values)| == |values| / 7
    ensures forall k :: 0 <= k < |values| / 7 ==> ParsedRows(symbol, values)[k] == RowAt(symbol, values, k)
    decreases |values|
  {
    if |values| >= 7 {
      var tail := values[7..];
      ParsedRowsAt(symbol, tail);
      forall k | 1 <= k < |values| / 7
        ensures ParsedRows(symbol, values)[k] == RowAt(symbol, values, k)
      {
        assert ParsedRows(symbol, values)[k] == ParsedRows(symbol, tail)[k - 1];
        assert RowAt(symbol, tail, k - 1) == RowAt(symbol, values, k);
      }
    }
  }

  /** `parse_rows`: clean the span texts, then walk them in steps of seven. */
  method ParseRows(symbol: string, spans: seq<string>) returns (result: seq<Row>)
    ensures result == ParsedRows(symbol, CleanValues(spans))
  {
    var values := CleanValues(spans);
    if |values| == 0 {
      return [];
    }
    result := ChunkRows(symbol, values);
  }

  /** The loop of `parse_rows`: a slice of seven per step, kept only when complete. */
  method ChunkRows(symbol: string, values: seq<string>) returns (result: seq<Row>)
    ensures result == ParsedRows(symbol, values)
  {
    result := [];
    var i := 0;
    while i < |values|
      invariant 0 <= i && 7 * |result| <= |values|
      invariant i == 7 * |result| || (i == 7 * |result| + 7 && |values| < i)
      invariant forall k :: 0 <= k < |result| ==> result[k] == RowAt(symbol, values, k)
    {
      if i + 7 <= |values| {
        assert i == 7 * |result|;
        var row := values[i..i + 7];
        var next := Row(symbol, row[1], row[6], row[0]);
        assert next == RowAt(symbol, values, |result|);
        result := result + [next];
      }
      i := i + 7;
    }
    ParsedRowsEq(symbol, values, result);
  }

  /** Row `k` of a page takes its time, price and volume from span texts 7k, 7k + 1 and 7k + 6, cleaned. */
  lemma ParsedFieldsOfSpans(symbol: string, spans: seq<string>, k: nat)
    requires 7 * k + 7 <= |spans|
    ensures var rows := ParsedRows(symbol, CleanValues(spans));
            && k < |rows|
            && rows[k] == Row(symbol, CleanValue(spans[7 * k + 1]), CleanValue(spans[7 * k + 6]),
                              CleanValue(spans[7 * k]))
  {
    ParsedRowsAt(symbol, CleanValues(spans));
  }

  /** A row list that agrees with `RowAt` at every complete group is `ParsedRows`. */
  lemma ParsedRowsEq(symbol: string, values: seq<string>, rows: seq<Row>)
    requires 7 * |rows| <= |values| < 7 * |rows| + 7
    requires forall k :: 0 <= k < |rows| ==> rows[k] == RowAt(symbol, values, k)
    ensures rows == ParsedRows(symbol, values)
  {
    ParsedRowsAt(symbol, values);
  }

  // ---------------------------------------------------------------- queries

  /** The `thistime` parameter: the date with every `-` removed, then `235959`. */
  function ThisTime(date: string): (t: string)
    ensures |t| >= 6 && t[|t| - 6..] == "235959"
    ensures '-' !in t[..|t| - 6]
  {
    var d := RemoveChar(date, '-');
    assert (d + "235959")[..|d|] == d;
    d + "235959"
  }

  /** For a `YYYY-MM-DD` date the parameter is `YYYYMMDD235959`, fourteen characters. */
  lemma ThisTimeOfIsoDate(year: string, month: string, day: string)
    requires |year| == 4 && |month| == 2 && |day| == 2
    requires '-' !in year && '-' !in month && '-' !in day
    ensures ThisTime(year + "-" + month + "-" + day) == year + month + day + "235959"
    ensures |ThisTime(year + "-" + month + "-" + day)| == 14
  {
    var dash := "-";
    assert RemoveChar(dash, '-') == [];
    var a := year + dash;
    RemoveCharConcat(year, dash, '-');
    assert RemoveChar(a, '-') == year;
    var b := a + month;
    RemoveCharConcat(a, month, '-');
    var c := b + dash;
    RemoveCharConcat(b, dash, '-');
    assert RemoveChar(c, '-') == year + month;
    RemoveCharConcat(c, day, '-');
    assert RemoveChar(c + day, '-') == year + month + day;
  }

  /** The query of page `page`; page 1 and the fan-out pages build it the same way. */
  function PageQuery(symbol: string, date: string, page: int): Query {
    Query(page, symbol, ThisTime(date))
  }

  /** The queries of pages 2..last (`range(2, last_page + 1)`), none when last <= 1. */
  function FanOutQueries(symbol: string, date: string, last: int): (qs: seq<Query>)
    ensures |qs| == if last > 1 then last - 1 else 0
  {
    seq(if last > 1 then last - 1 else 0, k => PageQuery(symbol, date, k + 2))
  }

  // ---------------------------------------------------------------- last page

  /** The regular expression `page=([0-9]+)` matches at position `i` of `s`. */
  predicate MatchAt(s: string, i: nat) {
    i + 6 <= |s| && s[i..i + 5] == "page=" && IsDigit(s[i + 5])
  }

  /** The leftmost match at or after `from`, as `re.search` finds it. */
  function FindMatch(s: string, from: nat): (r: Option<nat>)
    requires from <= |s|
    ensures r.Some? ==> from <= r.value && MatchAt(s, r.value)
    ensures r.Some? ==> forall k :: from <= k < r.value ==> !MatchAt(s, k)
    ensures r.None? ==> forall k :: from <= k ==> !MatchAt(s, k)
    decreases |s| - from
  {
    if from + 6 > |s| then None
    else if MatchAt(s, from) then Some(from)
    else FindMatch(s, from + 1)
  }

  /** The end of the run of digits starting at `from`; `[0-9]+` is greedy. */
  function DigitsEnd(s: string, from: nat): (e: nat)
    requires from <= |s|
    ensures from <= e <= |s|
    ensures forall k :: from <= k < e ==> IsDigit(s[k])
    ensures e < |s| ==> !IsDigit(s[e])
    decreases |s| - from
  {
    if from < |s| && IsDigit(s[from]) then DigitsEnd(s, from + 1) else from
  }

  /**
   The last page number: 1 without a `pgRR` cell or without a match in its
   href, otherwise `int()` of the digits of the leftmost match. `None` stands
   for the exception `pg_rr.a['href']` raises when the cell has no such link.
   */
  function LastPage(pager: PagerCell): (r: Option<int>)
    ensures r.None? <==> pager.PagerWithoutHref?
    ensures r.Some? ==> r.value >= 0
    ensures r.Some? && r.value != 1 ==> pager.PagerHref? && FindMatch(pager.href, 0).Some?
  {
    match pager
    case NoPager => Some(1)
    case PagerWithoutHref => None
    case PagerHref(href) =>
      match FindMatch(href, 0)
      case None => Some(1)
      case Some(i) =>
        var digits := href[i + 5..DigitsEnd(href, i + 5)];
        assert forall k :: 0 <= k < |digits| ==> digits[k] == href[i + 5 + k];
        Some(DecimalValue(digits))
  }

  /** An href without `page=` followed by a digit gives last page 1. */
  lemma LastPageWithoutMatch(href: string)
    requires forall k :: 0 <= k < |href| ==> !MatchAt(href, k)
    ensures LastPage(PagerHref(href)) == Some(1)
  {
  }

  /**
   A link `prefix + "page=" + str(n) + suffix` with no match starting inside
   `prefix` and whose suffix does not continue the digits gives last page `n`.
   */
  lemma LastPageOfLink(prefix: string, n: nat, suffix: string)
    requires forall k :: 0 <= k < |prefix| ==> !MatchAt(prefix + "page=" + NatToString(n) + suffix, k)
    requires suffix == [] || !IsDigit(suffix[0])
    ensures LastPage(PagerHref(prefix + "page=" + NatToString(n) + suffix)) == Some(n)
  {
    var d := NatToString(n);
    var href := prefix + "page=" + d + suffix;
    var i := |prefix|;
    LinkPieces(prefix, d, suffix);
    FindMatchLeftmost(href, 0, i);
    LastPageOfMatch(href, i);
    DecimalRoundTrip(n);
  }

  /** In `prefix + "page=" + d + suffix` a match starts right after the prefix, and its digits are `d`. */
  lemma LinkPieces(prefix: string, d: string, suffix: string)
    requires |d| >= 1 && AllDigits(d)
    requires suffix == [] || !IsDigit(suffix[0])
    ensures var href := prefix + "page=" + d + suffix;
            var i := |prefix|;
            && MatchAt(href, i)
            && DigitsEnd(href, i + 5) == i + 5 + |d|
            && href[i + 5..i + 5 + |d|] == d
  {
    var href := prefix + "page=" + d + suffix;
    var i := |prefix|;
    assert href[i..i + 5] == "page=";
    assert href[i + 5] == d[0];
    assert forall k :: 0 <= k < |d| ==> href[i + 5 + k] == d[k];
    if suffix != [] {
      assert href[i + 5 + |d|] == suffix[0];
    }
    DigitsEndOfRun(href, i + 5, |d|);
    assert href[i + 5..i + 5 + |d|] == d;
  }

  /** The last page read from the leftmost match at `i`: `int()` of the digit run after `page=`. */
  lemma LastPageOfMatch(href: string, i: nat)
    requires FindMatch(href, 0) == Some(i)
    ensures LastPage(PagerHref(href)) == Some(DecimalValue(href[i + 5..DigitsEnd(href, i + 5)]))
  {
  }

  /** A pager link with a `p` before its match, such as `/p?page=12`, still gives its number. */
  lemma LastPageOfShortLink()
    ensures LastPage(PagerHref("/p?page=12")) == Some(12)
  {
    assert NatToString(12) == "12";
    assert "/p?page=12" == "/p?" + "page=" + NatToString(12) + "";
    LastPageOfLink("/p?", 12, "");
  }

  /** `FindMatch` returns the first matching position when no earlier position matches. */
  lemma {:induction false} FindMatchLeftmost(s: string, from: nat, i: nat)
    requires from <= i && MatchAt(s, i)
    requires forall k :: from <= k < i ==> !MatchAt(s, k)
    ensures FindMatch(s, from) == Some(i)
    decreases i - from
  {
    if from < i {
      FindMatchLeftmost(s, from + 1, i);
    }
  }

  /** A run of `len` digits followed by a non-digit (or the end) ends at `from + len`. */
  lemma {:induction false} DigitsEndOfRun(s: string, from: nat, len: nat)
    requires from + len <= |s|
    requires forall k :: from <= k < from + len ==> IsDigit(s[k])
    requires from + len == |s| || !IsDigit(s[from + len])
    ensures DigitsEnd(s, from) == from + len
    decreases len
  {
    if len > 0 {
      DigitsEndOfRun(s, from + 1, len - 1);
    }
  }

  // ---------------------------------------------------------------- merge

  /** The set of times occurring in `rows`. */
  function Times(rows: seq<Row>): set<string> {
    set r | r in rows :: r.time
  }

  lemma TimesSnoc(rows: seq<Row>, r: Row)
    ensures Times(rows + [r]) == Times(rows) + {r.time}
  {
    assert forall x :: x in rows + [r] <==> x in rows || x == r;
  }

  lemma TimesConcat(a: seq<Row>, b: seq<Row>)
    ensures Times(a + b) == Times(a) + Times(b)
  {
    assert forall x :: x in a + b <==> x in a || x in b;
  }

  /** The index of the first row of `rows` whose time is `t`. */
  function FirstIndex(rows: seq<Row>, t: string): (k: nat)
    requires t in Times(rows)
    ensures k < |rows| && rows[k].time == t
    ensures forall j :: 0 <= j < k ==> rows[j].time != t
    decreases |rows|
  {
    var init := rows[..|rows| - 1];
    assert rows == init + [rows[|rows| - 1]];
    TimesSnoc(init, rows[|rows| - 1]);
    if t in Times(init) then
      FirstIndex(init, t)
    else
      assert forall j :: 0 <= j < |init| ==> init[j] in init;
      |rows| - 1
  }

  lemma FirstIndexSnoc(rows: seq<Row>, r: Row, t: string)
    requires t in Times(rows)
    ensures t in Times(rows + [r]) && FirstIndex(rows + [r], t) == FirstIndex(rows, t)
  {
    TimesSnoc(rows, r);
    assert (rows + [r])[..|rows|] == rows;
  }

  /** Strictly ascending times: sorted, and no time twice. */
  predicate Ascending(rows: seq<Row>) {
    forall i, j :: 0 <= i < j < |rows| ==> StrLess(rows[i].time, rows[j].time)
  }

  /**
   What the merge must produce from the concatenated rows `all`: strictly
   ascending times, exactly the times of `all`, and for each time the first
   row of `all` carrying it.
   */
  predicate IsMergeOf(all: seq<Row>, out: seq<Row>) {
    && Ascending(out)
    && Times(out) == Times(all)
    && forall k :: 0 <= k < |out| ==> out[k].time in Times(all) && out[k] == all[FirstIndex(all, out[k].time)]
  }

  /** Inserts `r` into a time-ascending sequence before the first later time. */
  function InsertByTime(sorted: seq<Row>, r: Row): seq<Row>
    decreases |sorted|
  {
    if sorted == [] then [r]
    else if StrLess(r.time, sorted[0].time) then [r] + sorted
    else [sorted[0]] + InsertByTime(sorted[1..], r)
  }

  /**
   Reference definition of the merge: read `all` from the front, skip a row
   whose time was seen already and insert each new one at its place in time order.
   */
  function Emitted(all: seq<Row>): seq<Row>
    decreases |all|
  {
    if all == [] then []
    else
      var prev := Emitted(all[..|all| - 1]);
      var r := all[|all| - 1];
      if r.time in Times(prev) then prev else InsertByTime(prev, r)
  }

  lemma {:induction false} InsertByTimeSpec(sorted: seq<Row>, r: Row)
    requires Ascending(sorted) && r.time !in Times(sorted)
    ensures Ascending(InsertByTime(sorted, r))
    ensures forall x :: x in InsertByTime(sorted, r) <==> x in sorted || x == r
    ensures Times(InsertByTime(sorted, r)) == Times(sorted) + {r.time}
    decreases |sorted|
  {
    var out := InsertByTime(sorted, r);
    if sorted == [] {
    } else if StrLess(r.time, sorted[0].time) {
      assert out == [r] + sorted;
      forall j | 0 <= j < |sorted|
        ensures StrLess(r.time, sorted[j].time)
      {
        if j > 0 { StrLessTransitive(r.time, sorted[0].time, sorted[j].time); }
      }
      ConsAscending(r, sorted);
      assert forall x :: x in out <==> x in sorted || x == r;
      TimesConcat([r], sorted);
    } else {
      var s0 := sorted[0];
      var tail := sorted[1..];
      assert sorted == [s0] + tail;
      assert s0 in sorted;
      StrLessTotal(r.time, s0.time);
      TimesConcat([s0], tail);
      InsertByTimeSpec(tail, r);
      var rest := InsertByTime(tail, r);
      assert out == [s0] + rest;
      forall j | 0 <= j < |rest|
        ensures StrLess(s0.time, rest[j].time)
      {
        assert rest[j] in rest;
        if rest[j] != r {
          var m :| 0 <= m < |tail| && tail[m] == rest[j];
          assert sorted[m + 1] == tail[m];
        }
      }
      ConsAscending(s0, rest);
      assert forall x :: x in out <==> x == s0 || x in rest;
      TimesConcat([s0], rest);
    }
  }

  /** A row below every row of an ascending sequence can be put in front of it. */
  lemma ConsAscending(r: Row, rows: seq<Row>)
    requires Ascending(rows)
    requires forall j :: 0 <= j < |rows| ==> StrLess(r.time, rows[j].time)
    ensures Ascending([r] + rows)
  {
    var out := [r] + rows;
    forall i, j | 0 <= i < j < |out|
      ensures StrLess(out[i].time, out[j].time)
    {
      assert out[j] == rows[j - 1];
      if i > 0 { assert out[i] == rows[i - 1]; }
    }
  }

  /** The reference merge meets the merge specification. */
  lemma {:induction false} EmittedIsMerge(all: seq<Row>)
    ensures IsMergeOf(all, Emitted(all))
    decreases |all|
  {
    if all != [] {
      var init := all[..|all| - 1];
      var r := all[|all| - 1];
      assert all == init + [r];
      EmittedIsMerge(init);
      var prev := Emitted(init);
      var out := Emitted(all);
      TimesSnoc(init, r);
      forall k | 0 <= k < |prev|
        ensures prev[k].time in Times(all) && prev[k] == all[FirstIndex(all, prev[k].time)]
      {
        FirstIndexSnoc(init, r, prev[k].time);
      }
      if r.time !in Times(prev) {
        InsertByTimeSpec(prev, r);
        forall k | 0 <= k < |out|
          ensures out[k].time in Times(all) && out[k] == all[FirstIndex(all, out[k].time)]
        {
          assert out[k] in out;
          if out[k] != r {
            var m :| 0 <= m < |prev| && prev[m] == out[k];
          }
        }
      }
    }
  }

  /** In a strictly ascending sequence the head's time does not occur in the tail. */
  lemma AscendingTail(a: seq<Row>)
    requires Ascending(a) && |a| > 0
    ensures Ascending(a[1..])
    ensures Times(a[1..]) == Times(a) - {a[0].time}
  {
    assert a == [a[0]] + a[1..];
    TimesConcat([a[0]], a[1..]);
    if a[0].time in Times(a[1..]) {
      var j :| 0 <= j < |a[1..]| && a[1..][j].time == a[0].time;
      assert StrLess(a[0].time, a[j + 1].time);
      StrLessIrreflexive(a[0].time);
    }
  }

  lemma TimesHead(a: seq<Row>)
    ensures a != [] ==> a[0].time in Times(a)
    ensures a == [] ==> Times(a) == {}
  {
    if a != [] { assert a[0] in a; }
  }

  /** Two strictly ascending sequences over the same set of times list those times alike. */
  lemma {:induction false} AscendingTimesUnique(a: seq<Row>, b: seq<Row>)
    requires Ascending(a) && Ascending(b) && Times(a) == Times(b)
    ensures |a| == |b|
    ensures forall k :: 0 <= k < |a| ==> a[k].time == b[k].time
    decreases |a|
  {
    TimesHead(a);
    TimesHead(b);
    if a != [] && b != [] {
      if a[0].time != b[0].time {
        assert b[0].time in Times(a);
        var ra :| ra in a && ra.time == b[0].time;
        var j :| 0 <= j < |a| && a[j] == ra;
        assert a[0].time in Times(b);
        var rb :| rb in b && rb.time == a[0].time;
        var i :| 0 <= i < |b| && b[i] == rb;
        assert StrLess(a[0].time, b[0].time);
        assert StrLess(b[0].time, a[0].time);
        StrLessTransitive(a[0].time, b[0].time, a[0].time);
        StrLessIrreflexive(a[0].time);
      }
      AscendingTail(a);
      AscendingTail(b);
      AscendingTimesUnique(a[1..], b[1..]);
      assert forall k :: 1 <= k < |a| ==> a[k] == a[1..][k - 1] && b[k] == b[1..][k - 1];
    }
  }

  /** The merge specification determines its result: any two merges of `all` are equal. */
  lemma MergeUnique(all: seq<Row>, a: seq<Row>, b: seq<Row>)
    requires IsMergeOf(all, a) && IsMergeOf(all, b)
    ensures a == b
  {
    AscendingTimesUnique(a, b);
  }

  /** The merge emits one row per distinct time. */
  lemma {:induction false} EmittedCount(all: seq<Row>)
    ensures |Emitted(all)| == |Times(all)|
    decreases |all|
  {
    if all != [] {
      var init := all[..|all| - 1];
      var r := all[|all| - 1];
      assert all == init + [r];
      EmittedCount(init);
      EmittedIsMerge(init);
      TimesSnoc(init, r);
      var prev := Emitted(init);
      if r.time !in Times(prev) {
        InsertByTimeLength(prev, r);
      }
    }
  }

  lemma {:induction false} InsertByTimeLength(sorted: seq<Row>, r: Row)
    ensures |InsertByTime(sorted, r)| == |sorted| + 1
    decreases |sorted|
  {
    if sorted != [] && !StrLess(r.time, sorted[0].time) {
      InsertByTimeLength(sorted[1..], r);
    }
  }

  /**
   Two pages that share `overlap` times merge into `|page1| + |page2| - overlap`
   distinct rows (for example 40 + 30 - 10 = 60).
   */
  lemma MergeOverlapCount(page1: seq<Row>, page2: seq<Row>)
    ensures |Emitted(page1 + page2)| + |Times(page1) * Times(page2)| == |Times(page1)| + |Times(page2)|
  {
    EmittedCount(page1 + page2);
    TimesConcat(page1, page2);
  }

  /** `unique` maps each time of `prefix` to the first row of `prefix` carrying it. */
  predicate FirstSeenMap(prefix: seq<Row>, unique: map<string, Row>) {
    && unique.Keys == Times(prefix)
    && forall t :: t in unique ==> unique[t] == prefix[FirstIndex(prefix, t)]
  }

  /** Adding a row to the dict only when its time is new keeps the first-seen row per time. */
  lemma FirstSeenStep(prefix: seq<Row>, r: Row, unique: map<string, Row>)
    requires FirstSeenMap(prefix, unique)
    ensures FirstSeenMap(prefix + [r], if r.time in unique then unique else unique[r.time := r])
  {
  }

  /**
   `rows` holds, in ascending time order, the entries of `unique` whose keys
   have left `keys`, each below every key still in `keys`.
   */
  predicate EmittedSoFar(unique: map<string, Row>, keys: set<string>, rows: seq<Row>) {
    && keys <= unique.Keys
    && Times(rows) + keys == unique.Keys
    && Ascending(rows)
    && (forall j, t :: 0 <= j < |rows| && t in keys ==> StrLess(rows[j].time, t))
    && (forall j :: 0 <= j < |rows| ==> rows[j].time in unique && rows[j] == unique[rows[j].time])
  }

  /** Emitting the least remaining key keeps the emitted rows ascending and below the rest. */
  lemma EmitLeast(unique: map<string, Row>, keys: set<string>, rows: seq<Row>, key: string)
    requires EmittedSoFar(unique, keys, rows)
    requires forall t :: t in unique ==> unique[t].time == t
    requires key in keys && forall k :: k in keys && k != key ==> StrLess(key, k)
    ensures EmittedSoFar(unique, keys - {key}, rows + [unique[key]])
  {
  }

  /** Once every key is emitted, the rows read from a first-seen dict are a merge of `all`. */
  lemma EmittedAllIsMerge(all: seq<Row>, unique: map<string, Row>, rows: seq<Row>)
    requires FirstSeenMap(all, unique) && EmittedSoFar(unique, {}, rows)
    ensures IsMergeOf(all, rows)
  {
  }

  /** The dedup-and-sort block: a dict keyed by time, filled first-seen-wins, read in key order. */
  method MergeRows(all: seq<Row>) returns (rows: seq<Row>)
    ensures IsMergeOf(all, rows)
    ensures rows == Emitted(all)
  {
    var unique: map<string, Row> := map[];
    var i := 0;
    while i < |all|
      invariant 0 <= i <= |all|
      invariant FirstSeenMap(all[..i], unique)
    {
      var res := all[i];
      var key := res.time;
      assert all[..i + 1] == all[..i] + [res];
      FirstSeenStep(all[..i], res, unique);
      if key !in unique {
        unique := unique[key := res];
      }
      i := i + 1;
    }
    assert all[..|all|] == all;
    var keys := unique.Keys;
    rows := [];
    while keys != {}
      invariant EmittedSoFar(unique, keys, rows)
      decreases |keys|
    {
      var key := LeastKey(keys);
      EmitLeast(unique, keys, rows, key);
      rows := rows + [unique[key]];
      keys := keys - {key};
    }
    EmittedAllIsMerge(all, unique, rows);
    EmittedIsMerge(all);
    MergeUnique(all, rows, Emitted(all));
  }

  // ---------------------------------------------------------------- fetch

  /** The rows one response contributes: none for a failed page. */
  function PageRows(symbol: string, response: Response): (rows: seq<Row>)
    ensures forall k :: 0 <= k < |rows| ==> rows[k].symbol == symbol
    ensures forall k :: 0 <= k < |rows| ==>
              ',' !in rows[k].price && ',' !in rows[k].volume && ',' !in rows[k].time
  {
    match response
    case Failed => []
    case Fetched(page) =>
      var values := CleanValues(page.spans);
      ParsedRowsAt(symbol, values);
      ParsedRows(symbol, values)
  }

  /** The pages' row lists joined in page order (`all_results.extend` per page). */
  function Flatten(pages: seq<seq<Row>>): seq<Row>
    decreases |pages|
  {
    if pages == [] then [] else Flatten(pages[..|pages| - 1]) + pages[|pages| - 1]
  }

  /** The row lists `asyncio.gather` returns, in the order of the queries. */
  function GatheredRows(symbol: string, queries: seq<Query>, respond: Query -> Response): (pages: seq<seq<Row>>)
    ensures |pages| == |queries|
    ensures forall k :: 0 <= k < |pages| ==> pages[k] == PageRows(symbol, respond(queries[k]))
    decreases |queries|
  {
    if queries == [] then []
    else
      var init := queries[..|queries| - 1];
      GatheredRows(symbol, init, respond) + [PageRows(symbol, respond(queries[|queries| - 1]))]
  }

  /**
   `fetch_symbol` as a function of the responses: nothing beyond page 1 is
   requested and nothing emitted when page 1 fails, has no rows, or its pager
   link cannot be read; otherwise pages 2..last are requested and all rows merged.
   */
  function Collect(symbol: string, date: string, respond: Query -> Response): (r: Outcome)
    ensures r.requested != [] && r.requested[0] == PageQuery(symbol, date, 1)
  {
    var q1 := PageQuery(symbol, date, 1);
    match respond(q1)
    case Failed => Outcome([q1], [])
    case Fetched(page) =>
      var first := ParsedRows(symbol, CleanValues(page.spans));
      if first == [] then Outcome([q1], [])
      else
        match LastPage(page.pager)
        case None => Outcome([q1], [])
        case Some(last) =>
          var others := FanOutQueries(symbol, date, last);
          Outcome([q1] + others, Emitted(first + Flatten(GatheredRows(symbol, others, respond))))
  }

  /** `fetch_page`: one query, its response parsed, a failure read as no rows. */
  method FetchPage(symbol: string, date: string, page: int, respond: Query -> Response)
    returns (query: Query, rows: seq<Row>)
    ensures query == PageQuery(symbol, date, page)
    ensures rows == PageRows(symbol, respond(query))
  {
    query := PageQuery(symbol, date, page);
    var response := respond(query);
    match response
    case Failed =>
      rows := [];
    case Fetched(p) =>
      rows := ParseRows(symbol, p.spans);
  }

  /** Page `n + 1` extends the fan-out of pages 2..n by one query at the end. */
  lemma FanOutSnoc(symbol: string, date: string, n: int)
    requires n >= 1
    ensures FanOutQueries(symbol, date, n + 1) == FanOutQueries(symbol, date, n) + [PageQuery(symbol, date, n + 1)]
  {
  }

  /**
   The fan-out: one `fetch_page` task per page 2..last, gathered so that the
   row lists come back in page order whatever order the tasks finish in.
   */
  method FetchOtherPages(symbol: string, date: string, last: int, respond: Query -> Response)
    returns (queries: seq<Query>, pages: seq<seq<Row>>)
    ensures queries == FanOutQueries(symbol, date, last)
    ensures pages == GatheredRows(symbol, queries, respond)
  {
    queries, pages := [], [];
    if last > 1 {
      var pg := 2;
      while pg <= last
        invariant 2 <= pg <= last + 1
        invariant queries == FanOutQueries(symbol, date, pg - 1)
        invariant pages == GatheredRows(symbol, queries, respond)
      {
        var q, rows := FetchPage(symbol, date, pg, respond);
        FanOutSnoc(symbol, date, pg - 1);
        assert (queries + [q])[..|queries|] == queries;
        queries, pages := queries + [q], pages + [rows];
        pg := pg + 1;
      }
    }
  }

  /** The output line of one row. */
  function MinuteLine(r: Row): string {
    Join([r.symbol, r.price, r.volume, r.time], '\t')
  }

  function Render(rows: seq<Row>): (lines: seq<string>)
    ensures |lines| == |rows|
  {
    seq(|rows|, k requires 0 <= k < |rows| => MinuteLine(rows[k]))
  }

  /** `fetch_symbol`: probe page 1, fan out over pages 2..last, merge, emit the lines. */
  method FetchSymbol(symbol: string, date: string, respond: Query -> Response)
    returns (requested: seq<Query>, lines: seq<string>)
    ensures requested == Collect(symbol, date, respond).requested
    ensures lines == Render(Collect(symbol, date, respond).rows)
  {
    var q1 := PageQuery(symbol, date, 1);
    requested := [q1];
    lines := [];
    var response := respond(q1);
    if response.Failed? {
      return;
    }
    var allResults := ParseRows(symbol, response.page.spans);
    if allResults == [] {
      return;
    }
    var lastPage := LastPage(response.page.pager);
    if lastPage.None? {
      return;
    }
    var last := lastPage.value;
    CollectFannedOut(symbol, date, respond, last);
    var others, pages := FetchOtherPages(symbol, date, last, respond);
    requested := requested + others;
    allResults := ExtendAll(allResults, pages);
    var rows := MergeRows(allResults);
    lines := Render(rows);
  }

  /** `all_results.extend(page_results)` for each gathered page, in order. */
  method ExtendAll(allResults: seq<Row>, pages: seq<seq<Row>>) returns (extended: seq<Row>)
    ensures extended == allResults + Flatten(pages)
  {
    extended := allResults;
    var i := 0;
    while i < |pages|
      invariant 0 <= i <= |pages|
      invariant extended == allResults + Flatten(pages[..i])
    {
      FlattenStep(pages, i);
      extended := extended + pages[i];
      i := i + 1;
    }
    assert pages[..|pages|] == pages;
  }

  lemma FlattenStep(pages: seq<seq<Row>>, i: nat)
    requires i < |pages|
    ensures Flatten(pages[..i + 1]) == Flatten(pages[..i]) + pages[i]
  {
    assert pages[..i + 1][..i] == pages[..i];
  }

  /** `Collect` once page 1 has rows and its pager gives `last`. */
  lemma CollectFannedOut(symbol: string, date: string, respond: Query -> Response, last: int)
    requires respond(PageQuery(symbol, date, 1)).Fetched?
    requires PageRows(symbol, respond(PageQuery(symbol, date, 1))) != []
    requires LastPage(respond(PageQuery(symbol, date, 1)).page.pager) == Some(last)
    ensures var first := PageRows(symbol, respond(PageQuery(symbol, date, 1)));
            var others := FanOutQueries(symbol, date, last);
            Collect(symbol, date, respond)
              == Outcome([PageQuery(symbol, date, 1)] + others,
                         Emitted(first + Flatten(GatheredRows(symbol, others, respond))))
  {
  }

  // ---------------------------------------------------------------- properties

  /** Without rows on page 1 nothing is emitted and no other page is requested. */
  lemma NoFirstPageRows(symbol: string, date: string, respond: Query -> Response)
    requires PageRows(symbol, respond(PageQuery(symbol, date, 1))) == []
    ensures Collect(symbol, date, respond) == Outcome([PageQuery(symbol, date, 1)], [])
  {
  }

  /**
   With rows on page 1 and a readable pager, exactly pages 1..last are requested
   (only page 1 when last <= 1), each with the symbol and the same `thistime`.
   */
  lemma RequestedPages(symbol: string, date: string, respond: Query -> Response)
    requires respond(PageQuery(symbol, date, 1)).Fetched?
    requires PageRows(symbol, respond(PageQuery(symbol, date, 1))) != []
    requires LastPage(respond(PageQuery(symbol, date, 1)).page.pager).Some?
    ensures var last := LastPage(respond(PageQuery(symbol, date, 1)).page.pager).value;
            var req := Collect(symbol, date, respond).requested;
            && |req| == (if last > 1 then last else 1)
            && forall k :: 0 <= k < |req| ==>
                 req[k].page == k + 1 && req[k].code == symbol && req[k].thistime == ThisTime(date)
  {
    var last := LastPage(respond(PageQuery(symbol, date, 1)).page.pager).value;
    CollectFannedOut(symbol, date, respond, last);
    PageOneThenFanOut(symbol, date, last);
  }

  /** Page 1 followed by the fan-out lists pages 1..last in order, only page 1 when last <= 1. */
  lemma PageOneThenFanOut(symbol: string, date: string, last: int)
    ensures var req := [PageQuery(symbol, date, 1)] + FanOutQueries(symbol, date, last);
            && |req| == (if last > 1 then last else 1)
            && forall k :: 0 <= k < |req| ==> req[k] == PageQuery(symbol, date, k + 1)
  {
    var others := FanOutQueries(symbol, date, last);
    var req := [PageQuery(symbol, date, 1)] + others;
    forall k | 0 < k < |req|
      ensures req[k] == PageQuery(symbol, date, k + 1)
    {
      assert req[k] == others[k - 1];
    }
  }

  /**
   With rows on page 1 and a readable pager, the emitted rows are non-empty and
   are the merge of the rows of all requested pages, page 1 first.
   */
  lemma CollectIsMerge(symbol: string, date: string, respond: Query -> Response)
    requires respond(PageQuery(symbol, date, 1)).Fetched?
    requires PageRows(symbol, respond(PageQuery(symbol, date, 1))) != []
    requires LastPage(respond(PageQuery(symbol, date, 1)).page.pager).Some?
    ensures var out := Collect(symbol, date, respond);
            var all := Flatten(GatheredRows(symbol, out.requested, respond));
            && out.rows != []
            && IsMergeOf(all, out.rows)
            && |out.rows| == |Times(all)|
  {
    var out := Collect(symbol, date, respond);
    var q1 := PageQuery(symbol, date, 1);
    var page := respond(q1).page;
    var first := ParsedRows(symbol, CleanValues(page.spans));
    var others := FanOutQueries(symbol, date, LastPage(page.pager).value);
    var gathered := GatheredRows(symbol, others, respond);
    assert out.requested == [q1] + others;
    GatheredCons(symbol, q1, others, respond);
    FlattenCons(first, gathered);
    EmittedIsMerge(first + Flatten(gathered));
    EmittedCount(first + Flatten(gathered));
    FirstPageTimesKept(symbol, date, respond);
    TimesHead(first);
    TimesHead(out.rows);
  }

  /** Nothing is emitted exactly when page 1 fails, holds no rows, or has a pager cell without a link. */
  lemma CollectEmptyExactly(symbol: string, date: string, respond: Query -> Response)
    ensures var page1 := respond(PageQuery(symbol, date, 1));
            (Collect(symbol, date, respond).rows == [])
              <==> (page1.Failed? || PageRows(symbol, page1) == [] || LastPage(page1.page.pager).None?)
  {
    var page1 := respond(PageQuery(symbol, date, 1));
    if page1.Fetched? && PageRows(symbol, page1) != [] && LastPage(page1.page.pager).Some? {
      CollectIsMerge(symbol, date, respond);
    }
  }

  lemma {:induction false} GatheredCons(symbol: string, q: Query, queries: seq<Query>, respond: Query -> Response)
    ensures GatheredRows(symbol, [q] + queries, respond)
         == [PageRows(symbol, respond(q))] + GatheredRows(symbol, queries, respond)
    decreases |queries|
  {
    if queries != [] {
      var init := queries[..|queries| - 1];
      assert ([q] + queries)[..|queries|] == [q] + init;
      GatheredCons(symbol, q, init, respond);
    }
  }

  lemma {:induction false} FlattenCons(p: seq<Row>, pages: seq<seq<Row>>)
    ensures Flatten([p] + pages) == p + Flatten(pages)
    decreases |pages|
  {
    if pages != [] {
      var init := pages[..|pages| - 1];
      assert ([p] + pages)[..|pages|] == [p] + init;
      FlattenCons(p, init);
    }
  }

  /** Failed pages contribute nothing, so every time on page 1 is emitted. */
  lemma FirstPageTimesKept(symbol: string, date: string, respond: Query -> Response)
    requires respond(PageQuery(symbol, date, 1)).Fetched?
    requires LastPage(respond(PageQuery(symbol, date, 1)).page.pager).Some?
    ensures Times(PageRows(symbol, respond(PageQuery(symbol, date, 1)))) <= Times(Collect(symbol, date, respond).rows)
  {
    var page := respond(PageQuery(symbol, date, 1)).page;
    var first := ParsedRows(symbol, CleanValues(page.spans));
    if first != [] {
      var others := FanOutQueries(symbol, date, LastPage(page.pager).value);
      var all := first + Flatten(GatheredRows(symbol, others, respond));
      EmittedIsMerge(all);
      TimesConcat(first, Flatten(GatheredRows(symbol, others, respond)));
    }
  }

  /** When every fanned-out page 2..last fails, the output is page 1's rows deduplicated and sorted. */
  lemma OthersFailed(symbol: string, date: string, respond: Query -> Response)
    requires respond(PageQuery(symbol, date, 1)).Fetched?
    requires LastPage(respond(PageQuery(symbol, date, 1)).page.pager).Some?
    requires forall p :: 2 <= p <= LastPage(respond(PageQuery(symbol, date, 1)).page.pager).value ==>
               respond(PageQuery(symbol, date, p)) == Failed
    ensures Collect(symbol, date, respond).rows == Emitted(PageRows(symbol, respond(PageQuery(symbol, date, 1))))
  {
    var page := respond(PageQuery(symbol, date, 1)).page;
    var first := ParsedRows(symbol, CleanValues(page.spans));
    if first != [] {
      var others := FanOutQueries(symbol, date, LastPage(page.pager).value);
      forall k | 0 <= k < |others|
        ensures respond(others[k]) == Failed
      {
        assert others[k] == PageQuery(symbol, date, k + 2);
      }
      GatheredFailed(symbol, others, respond);
      assert first + [] == first;
    }
  }

  lemma {:induction false} GatheredFailed(symbol: string, queries: seq<Query>, respond: Query -> Response)
    requires forall k :: 0 <= k < |queries| ==> respond(queries[k]) == Failed
    ensures Flatten(GatheredRows(symbol, queries, respond)) == []
    decreases |queries|
  {
    if queries != [] {
      var init := queries[..|queries| - 1];
      GatheredFailed(symbol, init, respond);
      var g := GatheredRows(symbol, queries, respond);
      assert g == GatheredRows(symbol, init, respond) + [[]];
      assert g[..|g| - 1] == GatheredRows(symbol, init, respond);
    }
  }

  /** A line whose fields hold no tab splits back into `symbol, price, volume, time`. */
  lemma MinuteLineFields(r: Row)
    requires '\t' !in r.symbol && '\t' !in r.price && '\t' !in r.volume && '\t' !in r.time
    ensures Split(MinuteLine(r), '\t') == [r.symbol, r.price, r.volume, r.time]
  {
    SplitJoin([r.symbol, r.price, r.volume, r.time], '\t');
  }
}
