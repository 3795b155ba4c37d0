/**
 * Rendering schemas and result rows into prompt text, shared by the chat
 * schema block, the synthesis results and the visualize rows block: a
 * column becomes "- name (type)", a row becomes "| v1 | v2 |" with one
 * cell per column, in column order.
 */
module Render {
  import opened Wrappers
  import opened JsonValue
  import opened Text

  /** A column of a table schema. */
  datatype Column = Column(name: string, sqlType: string)

  /** `f"- {col['name']} ({col['type']})"` */
  function ColumnLine(c: Column): string {
    "- " + c.name + " (" + c.sqlType + ")"
  }

  /** One line per column, in column order. */
  function ColumnLines(cols: seq<Column>): (r: seq<string>)
    ensures |r| == |cols|
    ensures forall k :: 0 <= k < |cols| ==> r[k] == ColumnLine(cols[k])
  {
    seq(|cols|, k requires 0 <= k < |cols| => ColumnLine(cols[k]))
  }

  function Names(cols: seq<Column>): (r: seq<string>)
    ensures |r| == |cols|
    ensures forall k :: 0 <= k < |cols| ==> r[k] == cols[k].name
  {
    seq(|cols|, k requires 0 <= k < |cols| => cols[k].name)
  }

  /**
   * `str(v)`: a string shows as itself, any other value through `show`,
   * which stands for Python's `str`.
   */
  function Shown(v: Json, show: Json -> string): (r: string)
    ensures v.Str? ==> r == v.s
  {
    if v.Str? then v.s else show(v)
  }

  /** `str(row.get(col, "NULL"))`: a missing key shows as NULL. */
  function Cell(row: Fields, col: string, show: Json -> string): (r: string)
    ensures !Has(row, col) ==> r == "NULL"
    ensures Has(row, col) ==> r == Shown(Get(row, col).value, show)
  {
    match Get(row, col)
    case None => "NULL"
    case Some(v) => Shown(v, show)
  }

  /** The cells of one row, one per column, in column order. */
  function Cells(row: Fields, cols: seq<string>, show: Json -> string): (r: seq<string>)
    ensures |r| == |cols|
    ensures forall k :: 0 <= k < |cols| ==> r[k] == Cell(row, cols[k], show)
  {
    seq(|cols|, k requires 0 <= k < |cols| => Cell(row, cols[k], show))
  }

  /** `f"| {' | '.join(cells)} |"` */
  function RowLine(row: Fields, cols: seq<string>, show: Json -> string): string {
    "| " + Join(Cells(row, cols, show), " | ") + " |"
  }

  /** One rendered line per row, in row order. */
  function RowLines(rows: seq<Fields>, cols: seq<string>, show: Json -> string): (r: seq<string>)
    ensures |r| == |rows|
    ensures forall k :: 0 <= k < |rows| ==> r[k] == RowLine(rows[k], cols, show)
  {
    seq(|rows|, k requires 0 <= k < |rows| => RowLine(rows[k], cols, show))
  }

  /** `rows[:n]` */
  function Capped<T>(rows: seq<T>, n: nat): (r: seq<T>)
    ensures |r| == if |rows| <= n then |rows| else n
    ensures r == rows[..|r|]
  {
    if |rows| <= n then rows else rows[..n]
  }

  /** Rows past the cap never matter: capping a longer list sees only its first n rows. */
  lemma CappedIgnoresTail<T>(a: seq<T>, b: seq<T>, n: nat)
    requires |a| >= n
    ensures Capped(a + b, n) == Capped(a, n)
  {
    assert (a + b)[..n] == a[..n];
  }

  /** The loop that appends one rendered line per row. */
  method RenderRows(rows: seq<Fields>, cols: seq<string>, show: Json -> string) returns (lines: seq<string>)
    ensures lines == RowLines(rows, cols, show)
  {
    lines := [];
    var i := 0;
    while i < |rows|
      invariant 0 <= i <= |rows|
      invariant lines == RowLines(rows[..i], cols, show)
    {
      lines := lines + [RowLine(rows[i], cols, show)];
      i := i + 1;
    }
    assert rows[..i] == rows;
  }
}
