# log_analizator pipeline, modelled in Dafny

This project models the analysis pipeline of the `log_analizator` command-line
tool:

- The line classifier (`fetch_endpoint`, `fetch_log_level`) searches the
  whitespace tokens of a log line for the first endpoint token (one that starts
  and ends with `/`) and the first level name (`DEBUG`, `INFO`, `WARNING`,
  `ERROR` or `CRITICAL`).
- The aggregator (`analyze_logs`) walks the input files in order and each
  file's lines in order. It counts, per endpoint and per level, the lines that
  name both. The counts go in a dict whose records are created on first use
  with every level at 0. A file that raises `FileLoadError` is skipped.
- The totals (`count_total_log_levels`, `count_total_requests`) are the
  column-wise sums of the records and the sum of those sums.
- The formatter (`format_report`) renders the dict and its totals as a
  fixed-width text table.

Modules, one file each:

- `options.dfy` holds `Option`.
- `text.dfy` (module `Text`) models the Python string built-ins the pipeline
  relies on:
  - `str.split()` with no argument, with Python's whitespace set;
  - `str.strip()`;
  - `"\n".join(...)` and `str.split("\n")`;
  - the format field `f"{x:<w}"`, which pads and never truncates;
  - `str(n)` for a natural number.
- `log_utils.dfy` (module `LogUtils`) holds the classifier. Both functions are
  pure first-match searches and are modelled as recursive functions.
- `analyzers.dfy` (module `Analyzers`) holds the aggregator and the totals.
  - A per-endpoint record is a five-field datatype `Counts`.
  - The report dict is the sequence of its entries in iteration order, which is
    insertion order. It holds no endpoint twice (`IsDict`).
  - `report[e][l] += 1` on the `defaultdict` is `Bump`.
  - Both loops of `analyze_logs` and of `count_total_log_levels` are methods
    (`AnalyzeLogs`, `CountLines`, `CountTotalLogLevels`). Each is proved
    against a specification function: `Analyze` (the increments of all events,
    in order) or `ColumnSums`.
  - The properties of the result are lemmas about those functions.
- `formatters.dfy` (module `Formatters`) holds the formatter.
  - `FormatReport` builds the list of lines with a loop and joins it.
  - It is proved equal to the specification `Render`.
  - The layout properties are lemmas about `Render`.
- `samples.dfy` (modules `SampleSteps` and `Samples`) restates the expectations
  of the repository's unit tests on the model.

Two facts about the layout follow from the format strings:

- The header row puts a space before each level title and is 110 characters
  wide (`HeaderWidth`).
- Data and totals rows have no separator and are 105 characters wide when the
  numbers and the endpoint fit their columns (`RowColumns`, `RowReadBack`).

So from the second column on, the titles are one to five characters to the
right of the numbers under them. The model keeps this layout exactly as
written.

Characters are Unicode scalar values, which is what Python strings are made of.
So the width properties hold for any endpoint text, not only ASCII.

Where the code and the design description disagree, the model follows the code:

- `load_log_file` turns only a missing file (`FileNotFoundError`) into
  `FileLoadError` (src/log_analyzer/core/load_log_file.py:24-25).
- Other I/O errors are not caught by `analyze_logs` and would end the run.
- A `LogFile` here is either loaded lines or a `FileLoadError`.

## Model

| member | source | states |
|---|---|---|
| LogUtils.FetchEndpointFirst | src/log_analyzer/utils/log_utils.py:9-11 | `fetch_endpoint` gives None exactly when no token starts and ends with `/`, an empty token list included. Otherwise it gives the token at the first position that does. |
| LogUtils.FetchEndpointFound | src/log_analyzer/utils/log_utils.py:9-11 | A returned endpoint is one of the tokens, at a position before which no token is an endpoint. |
| LogUtils.FetchLogLevelFirst | src/log_analyzer/utils/log_utils.py:19-21 | `fetch_log_level` gives None exactly when no token is one of the five level names, an empty list included. Otherwise it gives the level the first such token names. |
| LogUtils.FetchLogLevelNamed | src/log_analyzer/utils/log_utils.py:19-21 | A returned level's name occurs verbatim among the tokens. |
| LogUtils.LevelOfName | src/log_analyzer/utils/log_utils.py:20 | Exactly the five names DEBUG, INFO, WARNING, ERROR, CRITICAL are level names, and each reads back as its own level. |
| Text.SplitGivesWords | src/log_analyzer/services/analyzers.py:35-36 | Every token `split()` returns is non-empty and free of whitespace. So a found endpoint or level is truthy, and the `if log_level and endpoint` test is "both found". |
| Text.SplitJoinWords | src/log_analyzer/services/analyzers.py:35-36 | Splitting words joined by single spaces gives back the words. |
| Text.SplitStrip | src/log_analyzer/core/load_log_file.py:23 | Stripping a line before splitting it does not change its tokens. So the loader's `strip()` cannot change a classification. |
| Text.LeftJustify | src/log_analyzer/services/formatters.py:23 | `f"{s:<w}"` has length max(\|s\|, w), starts with `s` (never truncated) and is spaces after it. |
| Text.NatToString | src/log_analyzer/services/formatters.py:21 | `str(n)` is a non-empty string of decimal digits with no leading zero. |
| Text.ParseNatToString | src/log_analyzer/services/formatters.py:21 | Reading back the decimal digits of `str(n)` gives `n`. |
| Text.NatToStringLength | src/log_analyzer/services/formatters.py:30-34 | `str(n)` has at most k digits exactly when n < 10^k. |
| Text.SplitAtJoinWith | src/log_analyzer/services/formatters.py:45 | Splitting a newline join, whose parts hold no newline, on the newline gives back the parts. |
| Text.TrimLeftJustify | src/log_analyzer/services/formatters.py:29 | Dropping the padding of a left-justified field gives back the text, when the text does not end in a space. |
| Analyzers.Counts.Add | src/log_analyzer/services/analyzers.py:40 | `record[l] += n` raises level `l` by `n` and leaves the other four levels. |
| Analyzers.TotalRequests | src/log_analyzer/services/analyzers.py:84 | `count_total_requests` is 0 exactly for the all-zero record, and no counter exceeds it. |
| Analyzers.BumpKeys | src/log_analyzer/services/analyzers.py:39-40 | The increment keeps the report a dict. A first-seen endpoint becomes the last key, and otherwise keys and their order stay. |
| Analyzers.BumpCounts | src/log_analyzer/services/analyzers.py:39-40 | The increment raises `report[e][l]` by exactly 1 and changes no other counter of any endpoint. |
| Analyzers.BumpPositive | src/log_analyzer/services/analyzers.py:27-40 | If every record has a positive sum before the increment, every record has one after it, the new record included. |
| Analyzers.LineStep | src/log_analyzer/services/analyzers.py:35-40 | One more line changes the report only if it names both a level and an endpoint, and then by that one increment. |
| Analyzers.FileStep | src/log_analyzer/services/analyzers.py:29-44 | A file raising `FileLoadError` leaves the report as it was and adds its path to the logged failures. A loaded file adds the increments of its lines to the report built so far. |
| Analyzers.CountLines | src/log_analyzer/services/analyzers.py:33-40 | The inner loop over one file's lines leaves the report equal to the start report with that file's events counted in, in line order. |
| Analyzers.AnalyzeLogs | src/log_analyzer/services/analyzers.py:10-46 | `analyze_logs` returns `Analyze(files)`, which is every event of every loaded file counted into an empty dict in order. It also returns the paths whose load failed, in order. |
| Analyzers.TallyAppend | src/log_analyzer/services/analyzers.py:29-40 | Counting two runs of events one after the other is counting their concatenation. |
| Analyzers.TallyDict | src/log_analyzer/services/analyzers.py:27-40 | Counting events into a dict gives a dict: no endpoint is ever keyed twice. |
| Analyzers.TallyCounts | src/log_analyzer/services/analyzers.py:27-40 | After counting, `report[e][l]` is its old value plus the number of events for `(e, l)`. |
| Analyzers.TallyKeysGrow | src/log_analyzer/services/analyzers.py:27-40 | Counting more events never removes or reorders keys: the old keys stay a prefix. |
| Analyzers.TallyKeysFrom | src/log_analyzer/services/analyzers.py:27-40 | An endpoint is a key after counting exactly when it was one before or some counted event names it. |
| Analyzers.TallyPositive | src/log_analyzer/services/analyzers.py:27-40 | Counting keeps every record's sum positive. |
| Analyzers.AnalyzeCounts | src/log_analyzer/services/analyzers.py:29-46 | In the result, `report[e][l]` is the number of lines of loaded files classified as endpoint `e` at level `l`. It is 0 for an endpoint that is not a key. |
| Analyzers.AnalyzeKeys | src/log_analyzer/services/analyzers.py:27-46 | The result is a dict and every record has a positive sum. Its keys are exactly the endpoints of classifiable lines of loaded files. |
| Analyzers.AnalyzeKeyOrder | src/log_analyzer/services/analyzers.py:27-46 | Keys are in order of first occurrence: a key listed earlier occurs in an event before any event of a key listed later. |
| Analyzers.EventsAppend | src/log_analyzer/services/analyzers.py:29-33 | The events of two runs of files are the events of the first followed by those of the second. |
| Analyzers.FailedPathsAppend | src/log_analyzer/services/analyzers.py:42-44 | The logged failures of two runs of files are those of the first followed by those of the second. |
| Analyzers.AnalyzeAppend | src/log_analyzer/services/analyzers.py:29-44 | Later files only add to the result of earlier ones: the earlier keys stay a prefix and no counter goes down. |
| Analyzers.AnalyzeSkipsFailed | src/log_analyzer/services/analyzers.py:42-44 | A file that raises `FileLoadError`, anywhere in the list, contributes nothing and processing continues. Its path is logged in its place among the failures. |
| Analyzers.AnalyzeEmpty | src/log_analyzer/services/analyzers.py:27-46 | The result is empty exactly when no line of a loaded file is classifiable, so for no files at all. |
| Analyzers.ColumnSumsPermutation | src/log_analyzer/services/analyzers.py:65-67 | The column sums do not depend on the order of the report's entries. |
| Analyzers.ColumnSumBump | src/log_analyzer/services/analyzers.py:40 | One increment raises the column sum of its level by 1 and leaves the other columns. |
| Analyzers.TallyColumnSum | src/log_analyzer/services/analyzers.py:62-67 | After counting events, a column sum grows by the number of counted events at that level. |
| Analyzers.CountTotalLogLevels | src/log_analyzer/services/analyzers.py:62-67 | `count_total_log_levels` returns, for each level, the sum of that level's counter over all records. For an empty report it returns all zeros. |
| Analyzers.AnalyzeTotals | src/log_analyzer/services/analyzers.py:29-67 | Each total of the result counts the classifiable lines at its level. The total request count is the number of classifiable lines of all loaded files. |
| Analyzers.AnalyzeNoData | src/log_analyzer/cli/cli_commands/report_commands.py:15-19 | The total request count is 0 exactly when the report is empty, that is, when no line of a loaded file is classifiable. |
| Formatters.FormatReport | src/log_analyzer/services/formatters.py:18-45 | The loop that appends one row per entry, then the separator and the totals row, and joins with newlines, returns `Render`. |
| Formatters.EndpointRowsSnoc | src/log_analyzer/services/formatters.py:28-34 | One data row per report entry, in iteration order: each entry adds its row after those of the entries before it. |
| Formatters.RenderLayout | src/log_analyzer/services/formatters.py:21-45 | Because the first element ends in a newline before the join, the text is the join of the following lines: `Total requests: N`, an empty line, the header, the separator, the data rows, the separator and the totals row. |
| Formatters.RenderLines | src/log_analyzer/services/formatters.py:19-45 | When no endpoint holds a newline, splitting the output on newlines gives exactly those lines. There are \|report\| + 6 of them, with the separators right after the header and right before the totals row. |
| Formatters.RenderNoTrailingNewline | src/log_analyzer/services/formatters.py:38-45 | The output is non-empty and does not end in a newline. |
| Formatters.RowChars | src/log_analyzer/services/formatters.py:29-34 | A row holds a newline only if its endpoint does. |
| Formatters.HeaderChars | src/log_analyzer/services/formatters.py:23 | The header row holds no newline. |
| Formatters.HeaderWidth | src/log_analyzer/services/formatters.py:18-23 | The header row is 30 + 5 × (1 + 15) = 110 characters. The title after HANDLER at position `k` is the name of the level in column `k`. |
| Formatters.TitleCellsWidth | src/log_analyzer/services/formatters.py:23 | Each level title takes one space plus 15 characters. |
| Formatters.CountsFitBound | src/log_analyzer/services/formatters.py:30-43 | Every counter fits its 15-character column exactly when each is below 10^15. |
| Formatters.CellReadBack | src/log_analyzer/services/formatters.py:30-34 | Trimming a counter cell gives `str(n)`, and reading its digits gives `n` back. |
| Formatters.LevelCellsColumns | src/log_analyzer/services/formatters.py:30-34 | When the counters fit, the counter cells take 15 characters each, in level order. |
| Formatters.RowColumns | src/log_analyzer/services/formatters.py:29-34 | A row starts with the endpoint, never truncated, and is max(\|endpoint\|, 30) + 75 characters when the counters fit. The counter of level `l` fills the 15 characters starting 15 × its column after the endpoint field. |
| Formatters.RowReadBack | src/log_analyzer/services/formatters.py:29-43 | With an endpoint of at most 30 characters (for example `Total`) and fitting counters, a row is exactly 105 characters. Its first 30 characters trim to the endpoint, and each 15-character column reads back as that level's count. |
| Samples.GetReviewsSplit | src/tests/test_utils.py:15-17 | The sample request line, written with single spaces, splits into its nine tokens. |
| Samples.DeadlockSplit | src/tests/test_utils.py:29-31 | The sample management line splits into its seven tokens. |
| Samples.RequestLineSample | src/tests/test_utils.py:57-71 | On the request line's tokens, `fetch_endpoint` gives `/api/v1/reviews/` and `fetch_log_level` gives INFO. |
| Samples.ManagementLineSample | src/tests/test_utils.py:58 | On the management line's tokens, `fetch_endpoint` gives None and `fetch_log_level` gives CRITICAL. |
| Samples.BlankLineSample | src/tests/test_utils.py:43-59 | A blank line splits into no tokens, and both searches give None. |
| Samples.PostReviewsSplit | src/tests/test_analyzers.py:20 | The second sample line splits into its eleven tokens. |
| Samples.GetCommentsSplit | src/tests/test_analyzers.py:21 | The third sample line splits into its nine tokens. |
| Samples.DeleteReviewsSplit | src/tests/test_analyzers.py:22 | The fourth sample line splits into its ten tokens. |
| Samples.AnalyzeSample | src/tests/test_analyzers.py:18-60 | One file of four lines that split like the sample lines gives `/api/v1/reviews/` with INFO, WARNING and ERROR at 1, then `/api/v1/comments/` with INFO at 1. Every other counter is 0 and no failure is logged. |
| Samples.LoadErrorSample | src/tests/test_analyzers.py:78-87 | A single file that raises `FileLoadError` gives an empty report and logs its path. |
| Samples.ColumnSumsSample | src/tests/test_analyzers.py:98-107 | The totals of the two-entry sample report are DEBUG 0, INFO 2, WARNING 1, ERROR 1, CRITICAL 0. |
| Samples.TotalRequestsSample | src/tests/test_analyzers.py:117-128 | The total request count of 3, 1, 3, 7, 3 is 17. |

## Left out

- Reading files (src/log_analyzer/core/load_log_file.py) is I/O. Each input file
  is given as its path and either its lines or a `FileLoadError`. The
  `strip()` of each line is covered by `Text.SplitStrip`: it cannot change
  which tokens a line has.
- I/O errors other than a missing file are not modelled. The loader does not
  turn them into `FileLoadError`, so `analyze_logs` does not catch them and
  they end the run.
- The `logging.error` call and its message text
  (src/log_analyzer/services/analyzers.py:43). `AnalyzeLogs` returns the failed
  paths in order instead.
- `fetch_log_level` returns the level name as a string. The model returns a
  `Level`, and `Name` maps it back to that string (`LogUtils.FetchLogLevelNamed`).
- `log.split()` is evaluated twice per line in the source. Splitting is pure,
  so the model splits once.
- The command-line layer (main.py, src/log_analyzer/cli/): argument parsing,
  printing, the "no data" message and appending to `<name>.txt`. The one
  decision in it, the zero-total gate, is stated by `Analyzers.AnalyzeNoData`.
- Python's general format mini-language. Only left-justification of text and
  of `str(n)` for a natural number is modelled, which is all the formatter
  uses.
- `format_report` takes `total_requests` as given. Nothing ties it to `total`,
  in the source or in the model.
- Samples.AnalyzeSample: stated for any four lines whose `split()` gives the
  sample tokens, not for the literal test strings. The `*Split` lemmas show
  that the lines written with single spaces have those tokens.
- Samples.RequestLineSample and Samples.ManagementLineSample: stated on the
  lines' tokens, as the tests apply the searches to `line.split()`.
