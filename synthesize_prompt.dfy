/**
 * The query-results block of the synthesis prompt: one section per plan
 * entry, with its error, or its result capped at 20 rows, or a note that
 * it returned nothing.
 */
module SynthesizePrompt {
  import opened Wrappers
  import opened JsonValue
  import opened Text
  import opened Render

  /** A query result: its column names and its rows. */
  datatype QueryResult = QueryResult(columns: seq<string>, rows: seq<Fields>)

  /**
   * One entry of the plan with its results. An empty `error` stands for a
   * missing or empty one (both are falsy); `result` is None when it is
   * missing or an empty dict.
   */
  datatype PlanEntry = PlanEntry(id: string, title: string, sql: string, error: string, result: Option<QueryResult>)

  /** The most rows of one result that reach the prompt. */
  const RowCap: nat := 20

  /** `f"  {' | '.join(cells)}\n"` */
  function ResultLine(row: Fields, cols: seq<string>, show: Json -> string): string {
    "  " + Join(Cells(row, cols, show), " | ") + "\n"
  }

  /** One line per row, in row order. */
  function ResultLines(rows: seq<Fields>, cols: seq<string>, show: Json -> string): (r: seq<string>)
    ensures |r| == |rows|
    ensures forall k :: 0 <= k < |rows| ==> r[k] == ResultLine(rows[k], cols, show)
  {
    seq(|rows|, k requires 0 <= k < |rows| => ResultLine(rows[k], cols, show))
  }

  /** The lines of the given rows, concatenated. */
  function RowBlock(rows: seq<Fields>, cols: seq<string>, show: Json -> string): string {
    Concat(ResultLines(rows, cols, show))
  }

  function EntryHeader(e: PlanEntry): string {
    "\n### " + e.title + " (id: " + e.id + ")\n" + "SQL: " + e.sql + "\n"
  }

  /** What follows the header: the error, else the capped rows, else the empty-result note. */
  function EntryDetail(e: PlanEntry, show: Json -> string): string {
    if e.error != "" then "ERROR: " + e.error + "\n"
    else
      match e.result
      case None => ""
      case Some(r) =>
        if r.columns != [] && r.rows != [] then
          "Columns: " + Join(r.columns, ", ") + "\n" + RowBlock(Capped(r.rows, RowCap), r.columns, show)
        else "No results returned.\n"
  }

  function Section(e: PlanEntry, show: Json -> string): string {
    EntryHeader(e) + EntryDetail(e, show)
  }

  /** One section per entry, in plan order. */
  function Sections(entries: seq<PlanEntry>, show: Json -> string): (r: seq<string>)
    ensures |r| == |entries|
    ensures forall k :: 0 <= k < |entries| ==> r[k] == Section(entries[k], show)
  {
    seq(|entries|, k requires 0 <= k < |entries| => Section(entries[k], show))
  }

  /** `results_text`: the sections of all entries, one after another. */
  function ResultsText(entries: seq<PlanEntry>, show: Json -> string): string {
    Concat(Sections(entries, show))
  }

  /** The loop that accumulates `results_text`. */
  method BuildResultsText(entries: seq<PlanEntry>, show: Json -> string) returns (text: string)
    ensures text == ResultsText(entries, show)
  {
    text := "";
    var i := 0;
    while i < |entries|
      invariant 0 <= i <= |entries|
      invariant text == ResultsText(entries[..i], show)
    {
      ResultsTextSnoc(entries, i, show);
      text := AppendSection(text, entries[i], show);
      i := i + 1;
    }
    assert entries[..i] == entries;
  }

  /** One turn of the loop: the header, then the error, the rows or the empty-result note. */
  method AppendSection(text: string, e: PlanEntry, show: Json -> string) returns (out: string)
    ensures out == text + Section(e, show)
  {
    var header := "\n### " + e.title + " (id: " + e.id + ")\n";
    var sqlLine := "SQL: " + e.sql + "\n";
    assert EntryHeader(e) == header + sqlLine;
    out := text + header;
    out := out + sqlLine;
    var detail := "";
    if e.error != "" {
      detail := "ERROR: " + e.error + "\n";
    } else if e.result.Some? {
      var r := e.result.value;
      if r.columns != [] && r.rows != [] {
        detail := AppendRows("Columns: " + Join(r.columns, ", ") + "\n", Capped(r.rows, RowCap), r.columns, show);
      } else {
        detail := "No results returned.\n";
      }
    }
    assert detail == EntryDetail(e, show);
    out := out + detail;
  }

  /** The inner loop over `rows[:20]`. */
  method AppendRows(text: string, rows: seq<Fields>, cols: seq<string>, show: Json -> string) returns (out: string)
    ensures out == text + RowBlock(rows, cols, show)
  {
    out := text;
    var j := 0;
    while j < |rows|
      invariant 0 <= j <= |rows|
      invariant out == text + RowBlock(rows[..j], cols, show)
    {
      RowBlockSnoc(rows, j, cols, show);
      out := out + ("  " + Join(Cells(rows[j], cols, show), " | ") + "\n");
      j := j + 1;
    }
    assert rows[..j] == rows;
  }

  // ---------------------------------------------------------------------
  // Properties of the results block
  // ---------------------------------------------------------------------

  /** One more row adds its line at the end. */
  lemma RowBlockSnoc(rows: seq<Fields>, j: nat, cols: seq<string>, show: Json -> string)
    requires j < |rows|
    ensures RowBlock(rows[..j + 1], cols, show) == RowBlock(rows[..j], cols, show) + ResultLine(rows[j], cols, show)
  {
    var done, line := ResultLines(rows[..j], cols, show), ResultLine(rows[j], cols, show);
    var all := ResultLines(rows[..j + 1], cols, show);
    assert all == done + [line] by {
      forall k | 0 <= k < |all|
        ensures all[k] == (done + [line])[k]
      {
        assert rows[..j + 1][k] == if k < j then rows[..j][k] else rows[j];
      }
    }
    assert all[..|done|] == done;
  }

  /** One more entry adds its section at the end. */
  lemma ResultsTextSnoc(entries: seq<PlanEntry>, i: nat, show: Json -> string)
    requires i < |entries|
    ensures ResultsText(entries[..i + 1], show) == ResultsText(entries[..i], show) + Section(entries[i], show)
  {
    var done, one := Sections(entries[..i], show), Section(entries[i], show);
    var all := Sections(entries[..i + 1], show);
    assert all == done + [one] by {
      forall k | 0 <= k < |all|
        ensures all[k] == (done + [one])[k]
      {
        assert entries[..i + 1][k] == if k < i then entries[..i][k] else entries[i];
      }
    }
    assert all[..|done|] == done;
  }

  /** The block of a concatenation of rows is the concatenation of their blocks. */
  lemma RowBlockConcat(a: seq<Fields>, b: seq<Fields>, cols: seq<string>, show: Json -> string)
    ensures RowBlock(a + b, cols, show) == RowBlock(a, cols, show) + RowBlock(b, cols, show)
  {
    var la, lb, all := ResultLines(a, cols, show), ResultLines(b, cols, show), ResultLines(a + b, cols, show);
    assert all == la + lb by {
      forall k | 0 <= k < |all|
        ensures all[k] == (la + lb)[k]
      {
        assert (a + b)[k] == if k < |a| then a[k] else b[k - |a|];
      }
    }
    ConcatAppend(la, lb);
  }

  /** An entry with an error shows only the error, whatever its result holds. */
  lemma ErrorTakesPrecedence(e: PlanEntry, r: Option<QueryResult>, show: Json -> string)
    requires e.error != ""
    ensures Section(e, show) == Section(e.(result := r), show)
  {
  }

  /** Rows past the twentieth never reach the prompt. */
  lemma RowsPastCapIgnored(e: PlanEntry, cols: seq<string>, first: seq<Fields>, more: seq<Fields>, show: Json -> string)
    requires |first| >= RowCap
    ensures Section(e.(result := Some(QueryResult(cols, first + more))), show) ==
            Section(e.(result := Some(QueryResult(cols, first))), show)
  {
    CappedIgnoresTail(first, more, RowCap);
  }

  /** The block for a concatenation of entries is the concatenation of their blocks. */
  lemma ResultsTextConcat(a: seq<PlanEntry>, b: seq<PlanEntry>, show: Json -> string)
    ensures ResultsText(a + b, show) == ResultsText(a, show) + ResultsText(b, show)
  {
    var sa, sb, all := Sections(a, show), Sections(b, show), Sections(a + b, show);
    assert all == sa + sb by {
      forall k | 0 <= k < |all|
        ensures all[k] == (sa + sb)[k]
      {
        if k < |a| {
          assert (a + b)[k] == a[k];
        } else {
          assert (a + b)[k] == b[k - |a|];
        }
      }
    }
    ConcatAppend(sa, sb);
  }

  /** Every entry's section appears, between the sections before it and those after it. */
  lemma SectionInPlace(entries: seq<PlanEntry>, k: nat, show: Json -> string)
    requires k < |entries|
    ensures ResultsText(entries, show) ==
            ResultsText(entries[..k], show) + Section(entries[k], show) + ResultsText(entries[k + 1..], show)
  {
    var pre, one, post := entries[..k], [entries[k]], entries[k + 1..];
    assert entries == (pre + one) + post;
    ResultsTextConcat(pre + one, post, show);
    ResultsTextConcat(pre, one, show);
    var x := Section(entries[k], show);
    assert Sections(one, show) == [x];
    assert Concat([x]) == x by {
      assert [x][..0] == [];
    }
  }
}
