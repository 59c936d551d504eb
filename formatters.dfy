/**
 * The report table of src/log_analyzer/services/formatters.py: a fixed-width
 * text table, built line by line and joined with newlines.
 */
module Formatters {
  import opened Text
  import opened LogUtils
  import opened Analyzers

  /** Width of the endpoint column (`:<30`). */
  const HandlerWidth: nat := 30
  /** Width of each counter column (`:<15`). */
  const CellWidth: nat := 15
  /** Length of the two rules (`"-" * 100`). */
  const RuleWidth: nat := 100

  /** `f"Total requests: {total_requests}\n"`: the line carries its own newline. */
  function TotalRequestsLine(n: nat): string {
    "Total requests: " + NatToString(n) + "\n"
  }

  /** The column titles, `headers`: the handler column, then the five levels in order. */
  const Headers: seq<string> := ["HANDLER", "DEBUG", "INFO", "WARNING", "ERROR", "CRITICAL"]

  /** A space, then the title left-justified, for each title in turn. */
  function TitleCells(titles: seq<string>): string {
    if titles == [] then "" else " " + LeftJustify(titles[0], CellWidth) + TitleCells(titles[1..])
  }

  /** The header: the first title in the handler column, then the five level titles. */
  function HeaderRow(): string {
    LeftJustify(Headers[0], HandlerWidth) + TitleCells(Headers[1..])
  }

  function Rule(): string {
    Repeat('-', RuleWidth)
  }

  /** One counter, `f"{n:<15}"`. */
  function Cell(n: nat): string {
    LeftJustify(NatToString(n), CellWidth)
  }

  /** The counter cells of a record for the given levels, in order, with no separator. */
  function LevelCells(c: Counts, ls: seq<Level>): string {
    if ls == [] then "" else Cell(c.Get(ls[0])) + LevelCells(c, ls[1..])
  }

  /** A data or totals row: the handler column, then the DEBUG, INFO, WARNING, ERROR and CRITICAL cells. */
  function Row(handler: string, c: Counts): string {
    LeftJustify(handler, HandlerWidth) + LevelCells(c, Levels)
  }

  /** One row per report entry, in iteration order. */
  function EndpointRows(report: Report): (rows: seq<string>)
    ensures |rows| == |report|
  {
    seq(|report|, i requires 0 <= i < |report| => Row(report[i].endpoint, report[i].levels))
  }

  /** The list `report_lines` once every line has been appended. */
  function ReportLines(report: Report, total: Counts, totalRequests: nat): seq<string> {
    [TotalRequestsLine(totalRequests), HeaderRow(), Rule()] + EndpointRows(report) + [Rule(), Row("Total", total)]
  }

  /** What `format_report` returns: `"\n".join(report_lines)`. */
  function Render(report: Report, total: Counts, totalRequests: nat): string {
    JoinWith(ReportLines(report, total, totalRequests), '\n')
  }

  lemma EndpointRowsSnoc(report: Report, i: nat)
    requires i < |report|
    ensures EndpointRows(report[..i + 1]) == EndpointRows(report[..i]) + [Row(report[i].endpoint, report[i].levels)]
  {
  }

  /** Appending two lines one after the other appends both. */
  lemma ReportLinesAppended(lines: seq<string>, a: string, b: string)
    ensures lines + [a] + [b] == lines + [a, b]
  {
  }

  /**
   * `format_report`: the three fixed lines, one appended row per entry of the
   * report, the closing rule and the totals row, then the join.
   */
  method FormatReport(report: Report, total: Counts, totalRequests: nat) returns (s: string)
    ensures s == Render(report, total, totalRequests)
  {
    var head := [TotalRequestsLine(totalRequests), HeaderRow(), Rule()];
    var reportLines := head;
    for i := 0 to |report|
      invariant reportLines == head + EndpointRows(report[..i])
    {
      var entry := report[i];
      EndpointRowsSnoc(report, i);
      reportLines := reportLines + [Row(entry.endpoint, entry.levels)];
    }
    assert report[..|report|] == report;
    reportLines := reportLines + [Rule()];
    reportLines := reportLines + [Row("Total", total)];
    ReportLinesAppended(head + EndpointRows(report), Rule(), Row("Total", total));
    s := JoinWith(reportLines, '\n');
  }

  /** A counter cell holds only digits and spaces. */
  lemma CellChars(n: nat, ch: char)
    requires ch != ' ' && !('0' <= ch <= '9')
    ensures ch !in Cell(n)
  {
    LeftJustifyChars(NatToString(n), CellWidth, ch);
  }

  lemma {:induction false} LevelCellsChars(c: Counts, ls: seq<Level>)
    ensures '\n' !in LevelCells(c, ls)
    decreases |ls|
  {
    if ls != [] {
      CellChars(c.Get(ls[0]), '\n');
      LevelCellsChars(c, ls[1..]);
    }
  }

  /** A row holds a newline only if its handler text does. */
  lemma RowChars(handler: string, c: Counts)
    requires '\n' !in handler
    ensures '\n' !in Row(handler, c)
  {
    LeftJustifyChars(handler, HandlerWidth, '\n');
    LevelCellsChars(c, Levels);
  }

  /** The lines of the report as they read once the text is split at its newlines. */
  function Layout(report: Report, total: Counts, totalRequests: nat): seq<string> {
    ["Total requests: " + NatToString(totalRequests), "", HeaderRow(), Rule()]
    + EndpointRows(report) + [Rule(), Row("Total", total)]
  }

  /** Joining the lines with the empty line made explicit gives the same text. */
  lemma RenderLayout(report: Report, total: Counts, totalRequests: nat)
    ensures Render(report, total, totalRequests) == JoinWith(Layout(report, total, totalRequests), '\n')
  {
    var first := "Total requests: " + NatToString(totalRequests);
    var rest := [HeaderRow(), Rule()] + EndpointRows(report) + [Rule(), Row("Total", total)];
    assert ReportLines(report, total, totalRequests) == [first + ['\n']] + rest;
    assert Layout(report, total, totalRequests) == [first, ""] + rest;
    JoinWithEmptyPart(first, rest, '\n');
  }

  lemma {:induction false} TitleCellsChars(titles: seq<string>, ch: char)
    requires ch != ' '
    requires forall k :: 0 <= k < |titles| ==> ch !in titles[k]
    ensures ch !in TitleCells(titles)
    decreases |titles|
  {
    if titles != [] {
      LeftJustifyChars(titles[0], CellWidth, ch);
      TitleCellsChars(titles[1..], ch);
    }
  }

  lemma HeaderChars()
    ensures '\n' !in HeaderRow()
  {
    LeftJustifyChars(Headers[0], HandlerWidth, '\n');
    TitleCellsChars(Headers[1..], '\n');
  }

  /**
   * Split at its newlines, the report reads: the total-requests line, an empty
   * line, the header, a rule, one row per entry in iteration order, a rule and
   * the totals row; so it has `|report| + 6` lines. This needs endpoints
   * without newlines, which `split()` tokens never hold.
   */
  lemma RenderLines(report: Report, total: Counts, totalRequests: nat)
    requires forall i :: 0 <= i < |report| ==> '\n' !in report[i].endpoint
    ensures SplitAt(Render(report, total, totalRequests), '\n') == Layout(report, total, totalRequests)
    ensures |SplitAt(Render(report, total, totalRequests), '\n')| == |report| + 6
  {
    var layout := Layout(report, total, totalRequests);
    var rows := EndpointRows(report);
    RenderLayout(report, total, totalRequests);
    forall k | 0 <= k < |layout|
      ensures '\n' !in layout[k]
    {
      if k == 0 {
        assert '\n' !in NatToString(totalRequests);
      } else if k == 2 {
        HeaderChars();
      } else if 4 <= k < 4 + |report| {
        assert layout[k] == rows[k - 4];
        RowChars(report[k - 4].endpoint, report[k - 4].levels);
      } else if k == |layout| - 1 {
        RowChars("Total", total);
      }
    }
    SplitAtJoinWith(layout, '\n');
  }

  /** The text never ends with a newline: it ends with the totals row, whose last character is a digit or a space. */
  lemma RenderNoTrailingNewline(report: Report, total: Counts, totalRequests: nat)
    ensures var s := Render(report, total, totalRequests);
            |s| > 0 && s[|s| - 1] != '\n'
  {
    var lines := ReportLines(report, total, totalRequests);
    var last := Row("Total", total);
    JoinWithLast(lines, '\n');
    RowChars("Total", total);
    var s := Render(report, total, totalRequests);
    assert s[|s| - |last|..] == last;
    assert s[|s| - 1] == last[|last| - 1];
  }

  /** Every counter of the record fits its column: at most 15 digits. */
  predicate CountsFit(c: Counts) {
    forall l :: |NatToString(c.Get(l))| <= CellWidth
  }

  /** A record fits its columns exactly when every counter is below 10^15. */
  lemma CountsFitBound(c: Counts)
    ensures CountsFit(c) <==> forall l :: c.Get(l) < Pow10(CellWidth)
  {
    forall l {
      NatToStringLength(c.Get(l), CellWidth);
    }
  }

  lemma {:induction false} TitleCellsWidth(titles: seq<string>)
    requires forall k :: 0 <= k < |titles| ==> |titles[k]| <= CellWidth
    ensures |TitleCells(titles)| == (CellWidth + 1) * |titles|
    decreases |titles|
  {
    if titles != [] {
      TitleCellsWidth(titles[1..]);
    }
  }

  /** The header is 110 characters: 30 for `HANDLER`, then 16 (a space and 15) for each level title, which names that level. */
  lemma HeaderWidth()
    ensures |HeaderRow()| == HandlerWidth + 5 * (CellWidth + 1) == 110
    ensures forall l :: Headers[1 + Position(l)] == Name(l)
  {
    TitleCellsWidth(Headers[1..]);
  }

  /** A counter cell gives the counter back once its padding is trimmed. */
  lemma CellReadBack(n: nat)
    ensures TrimSpaces(Cell(n)) == NatToString(n)
    ensures ParseDigits(TrimSpaces(Cell(n))) == n
  {
    TrimLeftJustify(NatToString(n), CellWidth);
    ParseNatToString(n);
  }

  /** With every counter fitting, the cell for `ls[k]` fills the 15 characters from `15 * k`. */
  lemma {:induction false} LevelCellsColumns(c: Counts, ls: seq<Level>, k: nat)
    requires CountsFit(c) && k < |ls|
    ensures |LevelCells(c, ls)| == CellWidth * |ls|
    ensures LevelCells(c, ls)[CellWidth * k..CellWidth * k + CellWidth] == Cell(c.Get(ls[k]))
    decreases |ls|
  {
    var first := Cell(c.Get(ls[0]));
    assert |NatToString(c.Get(ls[0]))| <= CellWidth;
    if |ls| == 1 {
      assert LevelCells(c, ls[1..]) == "";
    } else if k == 0 {
      LevelCellsColumns(c, ls[1..], 0);
    } else {
      LevelCellsColumns(c, ls[1..], k - 1);
      SliceShift(first, LevelCells(c, ls[1..]), CellWidth * (k - 1), CellWidth * (k - 1) + CellWidth);
    }
  }

  /**
   * The columns of a data or totals row: the handler text comes first,
   * padded and never truncated, and the counter for level `l` fills the
   * 15 characters that start `15 * Position(l)` after the handler column.
   */
  lemma RowColumns(handler: string, c: Counts, l: Level)
    requires CountsFit(c)
    ensures var row, o := Row(handler, c), Max(|handler|, HandlerWidth) + CellWidth * Position(l);
            |row| == Max(|handler|, HandlerWidth) + 5 * CellWidth
            && row[..|handler|] == handler
            && row[o..o + CellWidth] == Cell(c.Get(l))
  {
    var p := LeftJustify(handler, HandlerWidth);
    var k := Position(l);
    LevelCellsColumns(c, Levels, k);
    SliceShift(p, LevelCells(c, Levels), CellWidth * k, CellWidth * k + CellWidth);
    assert Row(handler, c)[..|handler|] == p[..|handler|];
  }

  /**
   * Reading a row back: with a handler of at most 30 characters that does not
   * end in a space (an endpoint ends in `/`), the row is 105 characters, its
   * first 30 trim to the handler and each counter column parses to its count.
   */
  lemma RowReadBack(handler: string, c: Counts, l: Level)
    requires CountsFit(c)
    requires |handler| <= HandlerWidth && (handler == [] || handler[|handler| - 1] != ' ')
    ensures var row, o := Row(handler, c), HandlerWidth + CellWidth * Position(l);
            |row| == 105
            && TrimSpaces(row[..HandlerWidth]) == handler
            && TrimSpaces(row[o..o + CellWidth]) == NatToString(c.Get(l))
            && ParseDigits(TrimSpaces(row[o..o + CellWidth])) == c.Get(l)
  {
    RowColumns(handler, c, l);
    var row := Row(handler, c);
    assert row[..HandlerWidth] == LeftJustify(handler, HandlerWidth);
    TrimLeftJustify(handler, HandlerWidth);
    CellReadBack(c.Get(l));
  }
}
