/**
 * The visualize endpoint's own logic: the reply parser, which reduces any
 * answer of the model to "no chart" or to chart code with a title, the
 * block of query rows the prompt carries, and the handler's short cut for
 * empty results.
 */
module Visualize {
  import opened Wrappers
  import opened JsonValue
  import opened Text
  import opened Fences
  import opened Patterns
  import opened Render

  /** The deepest brace nesting the visualize parser's block pattern accepts. */
  const BlockDepth: nat := 3

  /** The most rows the prompt shows. */
  const RowCap: nat := 50

  const DefaultTitle := "Chart"

  /** What the endpoint answers: no chart, or JSX code with a title. */
  datatype ChartReply = NoChart | Chart(code: string, title: string)

  /** The dict sent back: `{"chartCode": None}` or `{"chartCode": code, "chartTitle": title}`. */
  function ReplyJson(c: ChartReply): Fields {
    match c
    case NoChart => [("chartCode", Null)]
    case Chart(code, title) => [("chartCode", Str(code)), ("chartTitle", Str(title))]
  }

  /**
   * What the parser makes of the decoded value: a chart only from a dict
   * whose `chartCode` is a string with something besides whitespace; the
   * title is the reply's when it is a string, else "Chart".
   */
  function ChartOf(parsed: Option<Json>): ChartReply {
    match parsed
    case Some(Obj(o)) =>
      var code := GetOr(o, "chartCode", Null);
      if !code.Str? || IsBlank(code.s) then NoChart
      else
        var title := GetOr(o, "chartTitle", Str(DefaultTitle));
        Chart(code.s, if title.Str? then title.s else DefaultTitle)
    case _ => NoChart
  }

  /** `parse_visualize_response` */
  function ParseVisualize(decode: string -> Option<Json>, raw: string): ChartReply {
    ChartOf(DecodeOrBlock(decode, StripFences(raw), BlockDepth))
  }

  /**
   * The handler: empty columns or rows answer "no chart" without asking the
   * model; otherwise `reply`, the model's answer, is parsed.
   */
  function HandleVisualize(decode: string -> Option<Json>, columns: seq<string>, rows: seq<Fields>, reply: string): ChartReply {
    if columns == [] || rows == [] then NoChart else ParseVisualize(decode, reply)
  }

  // ---------------------------------------------------------------------
  // Properties of the reply parser
  // ---------------------------------------------------------------------

  /** The dict sent back has exactly `chartCode`, null when there is no chart, and `chartTitle` with a chart. */
  lemma ReplyJsonShape(c: ChartReply)
    ensures Keys(ReplyJson(c)) == if c.NoChart? then ["chartCode"] else ["chartCode", "chartTitle"]
    ensures c.NoChart? ==> Get(ReplyJson(c), "chartCode") == Some(Null)
    ensures c.Chart? ==> Get(ReplyJson(c), "chartCode") == Some(Str(c.code))
    ensures c.Chart? ==> Get(ReplyJson(c), "chartTitle") == Some(Str(c.title))
  {
    assert "chartCode"[5] != "chartTitle"[5];
    match c {
      case NoChart =>
        GetCons("chartCode", Null, [], "chartCode");
        assert [("chartCode", Null)] + [] == ReplyJson(c);
      case Chart(code, title) =>
        var rest: Fields := [("chartTitle", Str(title))];
        GetCons("chartTitle", Str(title), [], "chartTitle");
        assert [("chartTitle", Str(title))] + [] == rest;
        GetCons("chartCode", Str(code), rest, "chartCode");
        GetCons("chartCode", Str(code), rest, "chartTitle");
        assert [("chartCode", Str(code))] + rest == ReplyJson(c);
    }
  }

  /**
   * A chart comes back exactly when the decoded value is a dict whose
   * `chartCode` is a string with something besides whitespace; its code is
   * that string unchanged, and its title is the reply's `chartTitle` when
   * that is a string, the empty one included, and "Chart" otherwise.
   */
  lemma ChartExactlyWhenCode(parsed: Option<Json>)
    ensures ChartOf(parsed).Chart? <==>
            parsed.Some? && parsed.value.Obj? && HasString(parsed.value.fields, "chartCode") &&
            !AllSpace(Get(parsed.value.fields, "chartCode").value.s)
    ensures ChartOf(parsed).Chart? ==>
            ChartOf(parsed).code == Get(parsed.value.fields, "chartCode").value.s &&
            ChartOf(parsed).title == if HasString(parsed.value.fields, "chartTitle")
                                     then Get(parsed.value.fields, "chartTitle").value.s
                                     else DefaultTitle
  {
    if parsed.Some? && parsed.value.Obj? {
      var o := parsed.value.fields;
      var code := GetOr(o, "chartCode", Null);
      if code.Str? {
        BlankIsAllSpace(code.s);
      }
    }
  }

  /** A reply fenced as a markdown block parses as the bare body would. */
  lemma FencedReplyAsBare(decode: string -> Option<Json>, info: string, body: string)
    requires '\n' !in info
    requires !StartsWith(Strip(body), Fence)
    ensures ParseVisualize(decode, Fence + info + "\n" + body + "\n" + Fence) == ParseVisualize(decode, body)
  {
    FenceRoundTrip(info, body);
  }

  /** Empty columns or rows never give a chart, whatever the model would answer; otherwise the reply is parsed. */
  lemma EmptyResultsNoChart(decode: string -> Option<Json>, columns: seq<string>, rows: seq<Fields>, reply: string)
    ensures HandleVisualize(decode, columns, rows, reply).Chart? ==>
            columns != [] && rows != [] && HandleVisualize(decode, columns, rows, reply) == ParseVisualize(decode, reply)
    ensures columns != [] && rows != [] ==> HandleVisualize(decode, columns, rows, reply) == ParseVisualize(decode, reply)
  {
  }

  // ---------------------------------------------------------------------
  // The rows block of the prompt
  // ---------------------------------------------------------------------

  /** The lines of the first fifty rows, one "| v1 | v2 |" line each. */
  function RowsText(columns: seq<string>, rows: seq<Fields>, show: Json -> string): string {
    Join(RowLines(Capped(rows, RowCap), columns, show), "\n")
  }

  /** The start of the line that reports how many rows there are in all. */
  function CountHead(total: nat): string {
    "QUERY RESULTS (" + NatToString(total) + " total rows"
  }

  function CountLine(total: nat): string {
    CountHead(total) + ", showing up to 50):\n"
  }

  /** The column list and the table header. */
  function HeaderLines(columns: seq<string>): string {
    "Columns: " + Join(columns, ", ") + "\n| " + Join(columns, " | ") + " |\n"
  }

  /**
   * The part of the prompt that carries the data: the total row count, the
   * columns, the header and the first fifty rows. The fixed instructions
   * around it are not modelled.
   */
  function RowsBlock(columns: seq<string>, rows: seq<Fields>, show: Json -> string): string {
    CountLine(|rows|) + HeaderLines(columns) + RowsText(columns, rows, show)
  }

  /** `build_visualize_prompt`, whose loop collects the lines of the capped rows. */
  method BuildRowsBlock(columns: seq<string>, rows: seq<Fields>, show: Json -> string) returns (block: string)
    ensures block == RowsBlock(columns, rows, show)
  {
    var capped := Capped(rows, RowCap);
    var header := Join(columns, " | ");
    var rowLines := RenderRows(capped, columns, show);
    var rowsText := Join(rowLines, "\n");
    var count := "QUERY RESULTS (" + NatToString(|rows|) + " total rows" + ", showing up to 50):\n";
    var headerLines := "Columns: " + Join(columns, ", ") + "\n| " + header + " |\n";
    assert count == CountLine(|rows|);
    assert headerLines == HeaderLines(columns);
    block := count + headerLines + rowsText;
  }

  /** Rows past the fiftieth never reach the prompt. */
  lemma RowsPastCapIgnored(columns: seq<string>, first: seq<Fields>, more: seq<Fields>, show: Json -> string)
    requires |first| >= RowCap
    ensures RowsText(columns, first + more, show) == RowsText(columns, first, show)
  {
    CappedIgnoresTail(first, more, RowCap);
  }

  /**
   * The count the prompt reports is the number of all rows, not of those
   * shown: its digits read back as `len(rows)`.
   */
  lemma ReportsTotalRows(columns: seq<string>, rows: seq<Fields>, show: Json -> string)
    ensures StartsWith(RowsBlock(columns, rows, show), "QUERY RESULTS (" + NatToString(|rows|) + " total rows")
    ensures DigitsValue(NatToString(|rows|)) == |rows|
  {
    NatToStringValue(|rows|);
    var head, line, lines := CountHead(|rows|), CountLine(|rows|), CountLine(|rows|) + HeaderLines(columns);
    StartsWithAppend(head, ", showing up to 50):\n");
    StartsWithAppend(line, HeaderLines(columns));
    StartsWithAppend(lines, RowsText(columns, rows, show));
    StartsWithTrans(lines, line, head);
    StartsWithTrans(RowsBlock(columns, rows, show), lines, head);
  }

  /** Each of the first fifty rows is shown, values in column order, missing ones as NULL. */
  lemma ShowsEachCappedRow(columns: seq<string>, rows: seq<Fields>, show: Json -> string, k: nat)
    requires k < |rows| && k < RowCap
    ensures Contains(RowsBlock(columns, rows, show), RowLine(rows[k], columns, show))
  {
    var capped := Capped(rows, RowCap);
    var lines := RowLines(capped, columns, show);
    assert capped[k] == rows[k];
    JoinContains(lines, "\n", k);
    var pre := CountLine(|rows|) + HeaderLines(columns);
    ContainsAfter(pre, RowsText(columns, rows, show), lines[k]);
    assert RowsBlock(columns, rows, show) == pre + RowsText(columns, rows, show);
  }
}
