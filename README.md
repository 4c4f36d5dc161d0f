# Daily and minute price fetchers, modelled in Dafny

The repository fetches Korean equity prices from a web price table. Two
command-line programs do this:

- `src/minute.py` fetches intraday rows for each symbol. It requests page 1
  and reads the last page number from the `pgRR` navigation cell. It then
  requests pages 2..last, appends their rows in page order, keeps the first
  row for each time, and prints `symbol, price, volume, time` lines in
  ascending time order.
- `src/day.py` fetches page 1 of the daily table for each symbol. It keeps
  the first row with the requested date whose opening price is not `"0"`. It
  prints `symbol, open, high, low, close, volume` lines in the order of the
  input symbols.

The model keeps the sequential data handling of both programs and replaces
everything around it with plain inputs:

- A page is the list of texts of its `<span class="tah">` cells plus its
  `pgRR` cell. The cell is absent, present without a readable link, or the
  link's href.
- The network is a total function `respond` from a query to a response.
  `Failed` stands for a non-200 status, a timeout or an exception.
- Output is returned as sequences of lines instead of being printed.

Files:

- `wrappers.dfy`: `Option`.
- `text.dfy` (module `Text`): the Python string built-ins used, written out
  over `seq<char>`. These are `str.strip()`, `str.replace` of one character,
  `str.join`, Python's string order and `int()` on ASCII digits. It also holds
  `Split` and `NatToString`, the inverses used to check `Join` and
  `DecimalValue`.
- `minute.dfy` (module `Minute`): `parse_rows`, the `thistime` parameter, the
  last-page regex, the fan-out, the merge/dedup/sort block and `fetch_symbol`.
  The code that updates variables step by step is written as methods with
  loops. Each method is proved equal to a specification function. The merge
  method fills a `map` first-seen-wins and reads it back in key order. It is
  proved equal to `Emitted`, an independent insertion-based definition.
- `day.dfy` (module `Day`): `parse`, the row selection of `fetch_symbol` and
  the result filter of `main_async`, as recursive functions with lemmas.

## Model

| member | source | states |
|---|---|---|
| `Text.Strip` | src/minute.py:18 | `strip()` returns the slice of the text left after cutting Python whitespace at both ends; the result neither starts nor ends with whitespace |
| `Text.IsSpace` | src/minute.py:18 | definition of the characters `str.strip()` removes: ASCII space, `\t`..`\r`, `\x1c`..`\x1f` and the Unicode spaces; `Text.Strip` is stated in terms of it |
| `Text.RemoveChar` | src/minute.py:18 | `replace(',', '')` leaves no `,`; every other character stays; a text without `,` is unchanged |
| `Text.RemoveCharConcat` | src/minute.py:18 | removing a character distributes over concatenation, so the remaining characters keep their order |
| `Text.ReplaceChar` | src/day.py:16 | `replace('.', '-')` keeps the length and changes exactly the positions holding `.` |
| `Text.JoinLength` | src/day.py:43 | a join of n fields has at least n - 1 characters (its separators) |
| `Text.Join` | src/minute.py:96 | definition of `sep.join(parts)` (also the daily line at `src/day.py:43`): the parts with one separator between neighbours, no contract of its own; `Text.JoinLength` and `Text.SplitJoin` state its properties |
| `Text.SplitJoin` | src/minute.py:96 | a tab-joined line whose fields contain no tab splits back into exactly those fields |
| `Text.StrLess` | src/minute.py:95 | definition of Python's `<` on strings: code-point order at the first difference, a proper prefix below the longer string; `Text.StrLessIrreflexive`, `Text.StrLessTransitive` and `Text.StrLessTotal` prove it a strict total order |
| `Text.StrLessIrreflexive` | src/minute.py:95 | Python's string order is irreflexive |
| `Text.StrLessTransitive` | src/minute.py:95 | Python's string order is transitive |
| `Text.StrLessTotal` | src/minute.py:95 | any two distinct strings are ordered one way or the other |
| `Text.LeastKey` | src/minute.py:95 | picks the key of a non-empty key set that is below every other key, the next key `sorted` yields |
| `Text.DecimalValue` | src/minute.py:75 | definition of `int()` on the run of ASCII digits the match captures, read most significant digit first; `Text.DecimalRoundTrip` proves it inverts `str()` |
| `Text.DecimalRoundTrip` | src/minute.py:75 | `int()` of the decimal text of a natural number gives back that number |
| `Minute.CleanValue` | src/minute.py:18 | a cleaned value contains no `,` and no character absent from the span text |
| `Minute.CleanValues` | src/minute.py:18 | one cleaned value per span text, in page order: value k is `CleanValue` of span text k, and none contains `,` |
| `Minute.RowAt` | src/minute.py:28 | definition of row k of the chunking, `[symbol, v[7k+1], v[7k+6], v[7k]]`; `Minute.ParsedRowsAt` ties the rows to it |
| `Minute.ParsedRows` | src/minute.py:24-30 | the chunking yields floor(n/7) rows, each carrying the symbol; `Minute.ParsedRowsAt` fixes their fields |
| `Minute.ParsedRowsAt` | src/minute.py:19-30 | `parse_rows` gives exactly floor(n/7) rows (none for an empty list, a partial group dropped); row k is `[symbol, v[7k+1], v[7k+6], v[7k]]` in page order |
| `Minute.ParsedFieldsOfSpans` | src/minute.py:18-28 | row k of the parsed page is `[symbol, clean(span 7k+1), clean(span 7k+6), clean(span 7k)]`, each field the stripped, comma-free span text |
| `Minute.ParseRows` | src/minute.py:16-30 | `parse_rows`, with its early return on an empty value list, builds exactly the chunked rows of the cleaned span texts |
| `Minute.ChunkRows` | src/minute.py:22-30 | the loop in steps of seven, keeping a slice only when it has seven values, builds exactly the chunked rows |
| `Minute.ThisTime` | src/minute.py:37 | `thistime` ends in `235959` and holds no `-` before it |
| `Minute.ThisTimeOfIsoDate` | src/minute.py:55 | for a `YYYY-MM-DD` date `thistime` is `YYYYMMDD235959`, fourteen characters |
| `Minute.PageQuery` | src/minute.py:34-38 | definition of the request parameters of one page, the same dict `fetch_symbol` builds for page 1 (`src/minute.py:52-56`): the page number, `code` = symbol and `thistime`, the same `thistime` value for every page of a symbol; `Minute.RequestedPages` and `Minute.FetchOtherPages` are stated in terms of it |
| `Minute.FanOutQueries` | src/minute.py:78-79 | `range(2, last_page + 1)` gives last - 1 queries when last > 1 and none otherwise |
| `Minute.MatchAt` | src/minute.py:74 | definition of a match of `page=([0-9]+)` starting at position i: `page=` followed by at least one ASCII digit; `Minute.FindMatch` finds the leftmost one |
| `Minute.FindMatch` | src/minute.py:74 | `re.search` gives the leftmost position where `page=` is followed by a digit, or none when there is no such position |
| `Minute.DigitsEnd` | src/minute.py:74 | `[0-9]+` is greedy: the run of digits ends at a non-digit or at the end of the href |
| `Minute.LastPage` | src/minute.py:70-75 | the last page is unreadable (None, the exception path) exactly for a `pgRR` cell without a link; a page count is never negative, and a count other than 1 comes only from an href holding a match |
| `Minute.LastPageOfMatch` | src/minute.py:74-75 | unfolding step of `LastPage`'s match branch: with the leftmost match at i, the last page is `int()` of the digit run up to `DigitsEnd`; the content is proved in `Minute.LastPageOfLink` with the `Minute.FindMatch` and `Minute.DigitsEnd` contracts |
| `Minute.LastPageWithoutMatch` | src/minute.py:74-75 | an href with no `page=<digit>` gives last page 1 |
| `Minute.LastPageOfLink` | src/minute.py:70-75 | an href `prefix + "page=" + str(n) + suffix` with no match starting inside `prefix` and no digit right after the number gives last page n |
| `Minute.LastPageOfShortLink` | src/minute.py:74-75 | the href `/p?page=12`, with a `p` before its match, gives last page 12 |
| `Minute.FirstIndex` | src/minute.py:87-91 | the first row in the concatenation carrying a given time: no earlier row has that time |
| `Minute.Emitted` | src/minute.py:84-96 | reference definition of the merge (insert each new time at its place, skip seen times), with no contract of its own; `Minute.EmittedIsMerge`, `Minute.EmittedCount` and `Minute.MergeUnique` state its properties |
| `Minute.FirstSeenStep` | src/minute.py:87-91 | inserting a row only when its time is not yet a key keeps, for every time seen so far, the first row with that time |
| `Minute.EmitLeast` | src/minute.py:95-96 | emitting the least remaining key keeps the emitted rows strictly ascending and below every key still to come |
| `Minute.EmittedIsMerge` | src/minute.py:84-96 | the reference merge has strictly ascending times, exactly the times of its input, and for each time the first input row with it |
| `Minute.MergeUnique` | src/minute.py:95 | these three properties determine the output completely, so the sorted emission is unique |
| `Minute.EmittedCount` | src/minute.py:86-91 | the merge emits one row per distinct time of the concatenation |
| `Minute.MergeOverlapCount` | src/minute.py:80-91 | two pages sharing `o` times merge into `|times(page1)| + |times(page2)| - o` rows |
| `Minute.MergeRows` | src/minute.py:84-96 | the dict loop plus the sorted-key loop produce strictly ascending, first-seen rows covering every time, equal to the reference merge |
| `Minute.PageRows` | src/minute.py:41-48 | the rows one response contributes all carry the symbol, and none of their price, volume or time fields holds a `,` |
| `Minute.Flatten` | src/minute.py:81-82 | definition of appending the gathered row lists in order, with no contract of its own; `Minute.ExtendAll` and `Minute.FlattenCons` state its behaviour |
| `Minute.GatheredRows` | src/minute.py:79-80 | `gather` returns one row list per query, list k being the rows of query k's response, whatever order the tasks finish in |
| `Minute.FetchPage` | src/minute.py:32-48 | `fetch_page` issues the query of its page with the shared `thistime`; a failed response gives no rows, a fetched one gives its parsed rows |
| `Minute.FetchOtherPages` | src/minute.py:77-80 | the fan-out requests exactly pages 2..last in order, and the gathered row lists come back in page order |
| `Minute.ExtendAll` | src/minute.py:81-82 | extending page 1's rows with each gathered list in turn gives page 1's rows followed by the pages' rows in page order |
| `Minute.Collect` | src/minute.py:50-99 | `fetch_symbol` as a function of the responses: page 1 is always the first request; the property lemmas below are stated about it |
| `Minute.MinuteLine` | src/minute.py:96 | definition of the tab-joined output line, with no contract of its own; `Minute.MinuteLineFields` proves it splits back into its fields |
| `Minute.Render` | src/minute.py:95-96 | one output line per emitted row |
| `Minute.FetchSymbol` | src/minute.py:50-99 | `fetch_symbol` issues exactly the queries of `Collect` and prints the lines of its rows. On failure, no rows or an unreadable pager it requests only page 1 and prints nothing |
| `Minute.CollectFannedOut` | src/minute.py:65-82 | unfolding step of `Collect`'s fan-out branch: with rows on page 1 and a readable pager, the queries are page 1 followed by `FanOutQueries` and the rows are `Emitted` of page 1's rows followed by the gathered ones; `Minute.RequestedPages` and `Minute.CollectIsMerge` state what that means |
| `Minute.NoFirstPageRows` | src/minute.py:65-67 | if page 1 yields no rows (or fails), nothing is emitted and only page 1 is requested |
| `Minute.RequestedPages` | src/minute.py:52-79 | with rows on page 1, request k asks for page k + 1, for the symbol, with `ThisTime(date)`. Pages 1..last are asked for, only page 1 when last <= 1 |
| `Minute.CollectIsMerge` | src/minute.py:65-96 | when page 1 has rows and a readable pager, the output is non-empty and is the merge of the rows of all requested pages, page 1 first and then in page order: distinct ascending times, first row per time, one row per distinct time |
| `Minute.CollectEmptyExactly` | src/minute.py:57-98 | a symbol emits nothing exactly when page 1 fails, page 1 has no rows, or its `pgRR` cell has no link |
| `Minute.FirstPageTimesKept` | src/minute.py:65-91 | when page 1 is fetched and its `pgRR` cell is missing or has a link, every time on page 1 is among the emitted times, whatever the other pages return |
| `Minute.OthersFailed` | src/minute.py:41-48 | when page 1 is fetched, its `pgRR` cell is missing or has a link, and every fanned-out page 2..last fails, the output is page 1's rows deduplicated and sorted |
| `Minute.MinuteLineFields` | src/minute.py:96 | an output line splits back into `symbol, price, volume, time` when no field contains a tab |
| `Day.CleanDayValue` | src/day.py:16 | a cleaned daily value contains neither `,` nor `.` |
| `Day.CleanDottedDate` | src/day.py:16 | a dotted date `YYYY.MM.DD` is cleaned into `YYYY-MM-DD`, the form of the requested date |
| `Day.CleanDayValues` | src/day.py:16 | one cleaned value per span text, none holding a `,` or a `.`; `Day.CleanDayValuesAt` fixes each value |
| `Day.CleanDayValuesAt` | src/day.py:16 | value k is `CleanDayValue` of span text k, in page order |
| `Day.DayRowAt` | src/day.py:21-29 | definition of row k of the generator: the seven values `v[7k]`..`v[7k+6]` as date, close, delta, open, high, low, volume; `Day.DayRowsAt` ties the rows to it |
| `Day.DayRows` | src/day.py:18-29 | the generator yields floor(n/7) rows; `Day.DayRowsAt` fixes their fields |
| `Day.Parse` | src/day.py:15-29 | `parse` yields floor(n/7) rows for n span texts, every field of every row free of `,` and `.` |
| `Day.DayRowsAt` | src/day.py:18-29 | `parse` yields floor(n/7) rows; row k has date=v[7k], close=v[7k+1], delta=v[7k+2], open=v[7k+3], high=v[7k+4], low=v[7k+5], volume=v[7k+6] |
| `Day.ParseFieldsOfSpans` | src/day.py:16-29 | row k of `parse` holds the cleaned span texts 7k..7k+6 as date, close, delta, open, high, low, volume; so its open is the cleaned span text 7k+3 |
| `Day.Trading` | src/day.py:42 | definition of the row test: the requested date and an open other than `"0"`; `Day.FirstTrading` and `Day.ZeroOpenGivesNone` are stated with it |
| `Day.FirstTrading` | src/day.py:41-42 | the index of the first row with the requested date and open other than `"0"`. None exactly when no row passes that test |
| `Day.FetchSymbol` | src/day.py:31-47 | a failed request gives None. Otherwise the result is the line of the first passing row, and None exactly when no row passes |
| `Day.ZeroOpenGivesNone` | src/day.py:42 | if every row on the requested date opens at `"0"`, the symbol gives no line |
| `Day.DayLine` | src/day.py:43 | definition of the tab-joined daily line, with no contract of its own; `Day.DayLineFields` and `Day.DayLineNonEmpty` state its properties |
| `Day.DayLineFields` | src/day.py:43 | a daily line splits back into `symbol, open, high, low, close, volume` when no field contains a tab |
| `Day.DayLineNonEmpty` | src/day.py:43 | a daily line is never empty, so the `if res:` test drops only None |
| `Day.Results` | src/day.py:53-54 | one result per input symbol |
| `Day.ResultsAt` | src/day.py:53-54 | `gather` keeps task order: result k is `fetch_symbol` of symbol k |
| `Day.FetchedLineNonEmpty` | src/day.py:43-57 | a line `fetch_symbol` returns is never empty, so `if res:` keeps every returned line |
| `Day.Printed` | src/day.py:56-58 | the filter prints at most one line per result, and only non-empty lines that are among the results |
| `Day.PrintedConcat` | src/day.py:56-58 | the filter keeps order: filtering a concatenation gives the concatenated outputs |
| `Day.MainAsync` | src/day.py:53-58 | `main_async` prints at most as many lines as there are symbols |
| `Day.MainAsyncConcat` | src/day.py:53-58 | the output for `s1 + s2` is the output for `s1` followed by that for `s2`: input order, no reordering |
| `Day.MainAsyncSingle` | src/day.py:43-58 | one symbol prints its line exactly when `fetch_symbol` returned one |
| `Day.MainAsyncKeepsInputOrder` | src/day.py:54-58 | two symbols that both yield a line are printed in input order, whatever the text order of the lines |

## Behaviour worth noting

- The daily batch is printed in input-symbol order and nothing sorts it
  (`src/day.py:56-58`, `Day.MainAsyncKeepsInputOrder`).
- An unreadable last-page link does not fall back to one page. A `pgRR` cell
  without an `<a>`, or with an `<a>` that has no `href`, makes
  `pg_rr.a['href']` raise (`src/minute.py:74`). The handler at
  `src/minute.py:98` catches the exception and the symbol prints nothing,
  even when page 1 had rows (`PagerWithoutHref`, `LastPage` = None,
  `Minute.CollectEmptyExactly`). When `pgRR` is missing altogether, the
  last page is 1 (`src/minute.py:71-72`). With a link present, the fallback to
  1 happens only when the href has no `page=<digits>`; an href whose first
  match is `page=1` or `page=01` also reads as last page 1.
- The pages are concatenated in task order (`src/minute.py:79-82`), not in
  completion order. So "first seen" means the lowest page number, then the
  earliest row on that page.
- The daily request carries only `code` and `page=1` and no `thistime`
  (`src/day.py:34`). A date that is not on page 1 gives no line.

## Left out

- HTTP: aiohttp sessions, the connector, headers, timeouts and status codes. Each page is an input, and any failure is `Failed`, which contributes no rows.
- Concurrency: the `asyncio.Semaphore` cap, task scheduling and `asyncio.gather`. Only gather's consequence is kept: results come back in task order. The page 1 request in `src/minute.py:58` does not take the semaphore; this is not modelled either.
- HTML extraction with BeautifulSoup/lxml (`find_all('span', class_='tah')`, `find('td', class_='pgRR')`). Its results are the `spans` and `pager` inputs. Body decoding is BeautifulSoup's, also outside the model.
- Minute-mode `main_async` (`src/minute.py:101-112`): each symbol prints its lines as one contiguous block, because the print loop at `src/minute.py:95-96` has no `await`. The order of the blocks depends on which task finishes first. The model gives each symbol's block (`Minute.FetchSymbol`) but not the order of the blocks.
- The error message printed to stderr at `src/minute.py:99`, the argparse command line, reading the symbol file, the `datetime.now()` default date and `print` itself. Outputs are returned sequences of lines.
- `test_minute.py`: a network debugging script. Its `parse_minute_rows` repeats `parse_rows` apart from a debug print.
- `Text.LeastKey`: `sorted` is Timsort in Python. The model picks the least remaining key each time instead. Distinct keys under a strict total order have only one sorted order (`Minute.MergeUnique`), so the output is the same.
- `Text.IsSpace`: lists the characters for which Python's `str.isspace()` holds. Lone surrogates, which a Python string can hold but a Dafny `char` cannot, are not covered.
- `Minute.LastPage`: reads a digit run of any length. CPython 3.11 and later (and the 2022 security releases of older versions) make `int()` raise `ValueError` on a decimal text longer than `sys.get_int_max_str_digits()`, 4300 by default. The handler at `src/minute.py:98` would then print nothing for that symbol. The model does not capture this version-dependent limit.
