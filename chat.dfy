/**
 * The chat endpoint's own logic: the reply parser, which turns whatever the
 * model answered into `{sql, explanation, ...}`, the schema block of the
 * system prompt, and the window of recent messages sent along with it.
 */
module Chat {
  import opened Wrappers
  import opened JsonValue
  import opened Text
  import opened Fences
  import opened Patterns
  import opened Render

  const FallbackExplanation := "I couldn't generate a valid response. Please try rephrasing your question."
  const NoExplanation := "No explanation provided."

  /** The deepest brace nesting the chat parser's block pattern accepts. */
  const BlockDepth: nat := 2

  /** An answer with no SQL and the given explanation, keys in that order. */
  function Answer(explanation: string): Fields {
    [("sql", Str("")), ("explanation", Str(explanation))]
  }

  /** A fresh copy of FALLBACK_RESPONSE. */
  function Fallback(): Fields {
    Answer(FallbackExplanation)
  }

  /** A conversational reply: typed "chat", or carrying a message and no sql. */
  predicate IsChatReply(o: Fields) {
    Get(o, "type") == Some(Str("chat")) || (Has(o, "message") && !Has(o, "sql"))
  }

  /** The chat branch: the message becomes the explanation when it is a non-empty string. */
  function ChatAnswer(o: Fields): Fields {
    var message := GetOr(o, "message", Str(""));
    if message.Str? && message.s != "" then Answer(message.s) else Fallback()
  }

  /**
   * The sql branch, on the decoded dict itself: `sql` defaulted to "" when
   * missing or not a string, `explanation` to the stock text only when
   * missing (a present value of another type is written back unchanged),
   * and `chart` popped.
   */
  function SqlAnswer(o: Fields): Fields {
    var withSql := if HasString(o, "sql") then o else Set(o, "sql", Str(""));
    var withExplanation :=
      if HasString(withSql, "explanation") then withSql
      else Set(withSql, "explanation", GetOr(withSql, "explanation", Str(NoExplanation)));
    Remove(withExplanation, "chart")
  }

  /** What the parser makes of the decoded value. */
  function AnswerOf(parsed: Option<Json>): Fields {
    match parsed
    case Some(Obj(o)) => if IsChatReply(o) then ChatAnswer(o) else SqlAnswer(o)
    case _ => Fallback()
  }

  /** `parse_llm_response` */
  function ParseChat(decode: string -> Option<Json>, raw: string): Fields {
    AnswerOf(DecodeOrBlock(decode, StripFences(raw), BlockDepth))
  }

  /** The parser, updating the decoded dict in place on the sql path. */
  method ParseLlmResponse(decode: string -> Option<Json>, raw: string) returns (r: Fields)
    ensures r == ParseChat(decode, raw)
  {
    var text := StripFences(raw);
    var parsed := DecodeOrBlock(decode, text, BlockDepth);
    if !(parsed.Some? && parsed.value.Obj?) {
      return Fallback();
    }
    var fields := parsed.value.fields;
    if IsChatReply(fields) {
      var message := GetOr(fields, "message", Str(""));
      if message.Str? && message.s != "" {
        return Answer(message.s);
      }
      return Fallback();
    }
    if !HasString(fields, "sql") {
      fields := Set(fields, "sql", Str(""));
    }
    if !HasString(fields, "explanation") {
      fields := Set(fields, "explanation", GetOr(fields, "explanation", Str(NoExplanation)));
    }
    fields := Remove(fields, "chart");
    r := fields;
  }

  // ---------------------------------------------------------------------
  // Properties of the reply parser
  // ---------------------------------------------------------------------

  /** A fresh answer holds exactly an empty sql and the explanation. */
  lemma AnswerShape(explanation: string)
    ensures Keys(Answer(explanation)) == ["sql", "explanation"]
    ensures Get(Answer(explanation), "sql") == Some(Str(""))
    ensures Get(Answer(explanation), "explanation") == Some(Str(explanation))
    ensures Get(Answer(explanation), "chart") == None
  {
    var rest: Fields := [("explanation", Str(explanation))];
    assert "sql"[0] != "explanation"[0] && "sql"[0] != "chart"[0] && "explanation"[0] != "chart"[0];
    GetCons("explanation", Str(explanation), [], "sql");
    GetCons("explanation", Str(explanation), [], "explanation");
    GetCons("explanation", Str(explanation), [], "chart");
    assert [("explanation", Str(explanation))] + [] == rest;
    GetCons("sql", Str(""), rest, "sql");
    GetCons("sql", Str(""), rest, "explanation");
    GetCons("sql", Str(""), rest, "chart");
    assert [("sql", Str(""))] + rest == Answer(explanation);
  }

  /**
   * The sql branch: `sql` is the reply's own when it is a string and ""
   * otherwise; `explanation` is the reply's own whenever present, of any
   * type; `chart` is gone; every other key keeps its value; and the keys
   * keep their order, with missing `sql` and `explanation` appended in that
   * order.
   */
  lemma SqlAnswerShape(o: Fields)
    ensures Get(SqlAnswer(o), "sql") == if HasString(o, "sql") then Get(o, "sql") else Some(Str(""))
    ensures Get(SqlAnswer(o), "explanation") ==
            if Has(o, "explanation") then Get(o, "explanation") else Some(Str(NoExplanation))
    ensures Get(SqlAnswer(o), "chart") == None
    ensures forall k :: k != "sql" && k != "explanation" && k != "chart" ==> Get(SqlAnswer(o), k) == Get(o, k)
    ensures Keys(SqlAnswer(o)) ==
            Without(Keys(o) + (if Has(o, "sql") then [] else ["sql"])
                            + (if Has(o, "explanation") then [] else ["explanation"]), "chart")
  {
    assert "sql"[0] != "explanation"[0] && "sql"[0] != "chart"[0] && "explanation"[0] != "chart"[0];
    var withSql := if HasString(o, "sql") then o else Set(o, "sql", Str(""));
    SqlDefaulted(o);
    var withExplanation :=
      if HasString(withSql, "explanation") then withSql
      else Set(withSql, "explanation", GetOr(withSql, "explanation", Str(NoExplanation)));
    ExplanationDefaulted(withSql);
    assert SqlAnswer(o) == Remove(withExplanation, "chart");
    assert Has(withSql, "explanation") == Has(o, "explanation") by {
      assert Get(withSql, "explanation") == Get(o, "explanation");
    }
    assert Get(withExplanation, "sql") == Get(withSql, "sql");
    assert Keys(withExplanation) == Keys(o) + (if Has(o, "sql") then [] else ["sql"])
                                            + (if Has(o, "explanation") then [] else ["explanation"]);
  }

  /** The first step of the SQL-reply branch: a missing or non-string `sql` becomes "". */
  lemma SqlDefaulted(o: Fields)
    ensures var w := if HasString(o, "sql") then o else Set(o, "sql", Str(""));
            Get(w, "sql") == (if HasString(o, "sql") then Get(o, "sql") else Some(Str(""))) &&
            (forall k :: k != "sql" ==> Get(w, k) == Get(o, k)) &&
            Keys(w) == Keys(o) + (if Has(o, "sql") then [] else ["sql"])
  {
    assert Keys(o) + [] == Keys(o);
    if HasString(o, "sql") {
      HasKeys(o, "sql");
    }
  }

  /** The second step: a missing `explanation` gets the default text, a non-string one stays. */
  lemma ExplanationDefaulted(o: Fields)
    ensures var w := if HasString(o, "explanation") then o
                     else Set(o, "explanation", GetOr(o, "explanation", Str(NoExplanation)));
            Get(w, "explanation") == (if Has(o, "explanation") then Get(o, "explanation") else Some(Str(NoExplanation))) &&
            (forall k :: k != "explanation" ==> Get(w, k) == Get(o, k)) &&
            Keys(w) == Keys(o) + (if Has(o, "explanation") then [] else ["explanation"])
  {
    assert Keys(o) + [] == Keys(o);
    HasKeys(o, "explanation");
  }

  /**
   * Whatever the reply, the answer has a string `sql`, an `explanation`
   * and no `chart`.
   */
  lemma AnswerAlwaysShaped(decode: string -> Option<Json>, raw: string)
    ensures HasString(ParseChat(decode, raw), "sql")
    ensures Has(ParseChat(decode, raw), "explanation")
    ensures !Has(ParseChat(decode, raw), "chart")
  {
    AnswerOfShaped(DecodeOrBlock(decode, StripFences(raw), BlockDepth));
  }

  /** The same three facts for whatever the decoding produced. */
  lemma AnswerOfShaped(parsed: Option<Json>)
    ensures HasString(AnswerOf(parsed), "sql")
    ensures Has(AnswerOf(parsed), "explanation")
    ensures !Has(AnswerOf(parsed), "chart")
  {
    AnswerShape(FallbackExplanation);
    match parsed {
      case Some(Obj(o)) =>
        if IsChatReply(o) {
          var message := GetOr(o, "message", Str(""));
          if message.Str? && message.s != "" {
            AnswerShape(message.s);
          }
        } else {
          SqlAnswerShape(o);
        }
      case _ =>
    }
  }

  /**
   * A conversational reply never passes its own sql on: the answer holds
   * only an empty sql and the message, or the fallback text when the
   * message is missing, empty or not a string.
   */
  lemma ChatReplyHasNoSql(o: Fields)
    requires IsChatReply(o)
    ensures Keys(AnswerOf(Some(Obj(o)))) == ["sql", "explanation"]
    ensures Get(AnswerOf(Some(Obj(o))), "sql") == Some(Str(""))
    ensures Get(AnswerOf(Some(Obj(o))), "explanation") ==
            if HasString(o, "message") && Get(o, "message").value.s != "" then Get(o, "message")
            else Some(Str(FallbackExplanation))
  {
    var message := GetOr(o, "message", Str(""));
    if message.Str? && message.s != "" {
      AnswerShape(message.s);
    } else {
      AnswerShape(FallbackExplanation);
    }
  }

  /** A reply that is not a dict, or that nothing in decodes, gives the fallback. */
  lemma NotADictFallsBack(decode: string -> Option<Json>, raw: string)
    requires !DecodeOrBlock(decode, StripFences(raw), BlockDepth).Some? ||
             !DecodeOrBlock(decode, StripFences(raw), BlockDepth).value.Obj?
    ensures ParseChat(decode, raw) == Answer(FallbackExplanation)
  {
    var parsed := DecodeOrBlock(decode, StripFences(raw), BlockDepth);
    assert AnswerOf(parsed) == Fallback();
  }

  /**
   * A reply fenced as a markdown block parses as the bare body would, as
   * long as the body does not itself open with a fence.
   */
  lemma FencedReplyAsBare(decode: string -> Option<Json>, info: string, body: string)
    requires '\n' !in info
    requires !StartsWith(Strip(body), Fence)
    ensures ParseChat(decode, Fence + info + "\n" + body + "\n" + Fence) == ParseChat(decode, body)
  {
    FenceRoundTrip(info, body);
  }

  // ---------------------------------------------------------------------
  // The schema block of the system prompt
  // ---------------------------------------------------------------------

  /** The dataset description a chat request carries. */
  datatype Schema = Schema(tableName: string, columns: seq<Column>, rowCount: Option<Json>, sampleRows: seq<Fields>)

  /** `schema.get('rowCount', 'unknown')`, as the prompt shows it. */
  function RowCountText(s: Schema, show: Json -> string): string {
    match s.rowCount
    case None => "unknown"
    case Some(v) => Shown(v, show)
  }

  /** The sample rows, one "| v1 | v2 |" line each, values in column order. */
  function SampleRows(s: Schema, show: Json -> string): string {
    Join(RowLines(s.sampleRows, Names(s.columns), show), "\n")
  }

  /**
   * The part of the system prompt that describes the data: table, row
   * count, one "- name (type)" line per column, the header of column names
   * and the sample rows. The fixed instructions around it are not modelled.
   */
  function SchemaBlock(s: Schema, show: Json -> string): string {
    "TABLE: " + s.tableName + "\nTOTAL ROWS: " + RowCountText(s, show) + "\nCOLUMNS:\n"
    + Join(ColumnLines(s.columns), "\n")
    + "\n\nSAMPLE ROWS:\n| " + Join(Names(s.columns), " | ") + " |\n" + SampleRows(s, show)
  }

  /** `build_system_prompt`, whose loop collects the sample lines. */
  method BuildSchemaBlock(s: Schema, show: Json -> string) returns (block: string)
    ensures block == SchemaBlock(s, show)
  {
    var columnsDesc := Join(ColumnLines(s.columns), "\n");
    var header := Join(Names(s.columns), " | ");
    var sampleLines := RenderRows(s.sampleRows, Names(s.columns), show);
    var sampleRows := Join(sampleLines, "\n");
    block := "TABLE: " + s.tableName + "\nTOTAL ROWS: " + RowCountText(s, show) + "\nCOLUMNS:\n"
      + columnsDesc + "\n\nSAMPLE ROWS:\n| " + header + " |\n" + sampleRows;
  }

  /** Every column is listed with its type. */
  lemma SchemaListsEveryColumn(s: Schema, show: Json -> string, k: nat)
    requires k < |s.columns|
    ensures Contains(SchemaBlock(s, show), "- " + s.columns[k].name + " (" + s.columns[k].sqlType + ")")
  {
    var lines := ColumnLines(s.columns);
    var pre := "TABLE: " + s.tableName + "\nTOTAL ROWS: " + RowCountText(s, show) + "\nCOLUMNS:\n";
    var mid := Join(lines, "\n");
    var post := "\n\nSAMPLE ROWS:\n| " + Join(Names(s.columns), " | ") + " |\n" + SampleRows(s, show);
    JoinContains(lines, "\n", k);
    ContainsWithin(pre, mid, post, lines[k]);
    assert SchemaBlock(s, show) == pre + mid + post;
  }

  /** Every sample row is shown, its values in column order and missing ones as NULL. */
  lemma SchemaShowsEverySampleRow(s: Schema, show: Json -> string, k: nat)
    requires k < |s.sampleRows|
    ensures Contains(SchemaBlock(s, show), RowLine(s.sampleRows[k], Names(s.columns), show))
  {
    var lines := RowLines(s.sampleRows, Names(s.columns), show);
    var pre := "TABLE: " + s.tableName + "\nTOTAL ROWS: " + RowCountText(s, show) + "\nCOLUMNS:\n"
      + Join(ColumnLines(s.columns), "\n")
      + "\n\nSAMPLE ROWS:\n| " + Join(Names(s.columns), " | ") + " |\n";
    JoinContains(lines, "\n", k);
    ContainsAfter(pre, SampleRows(s, show), lines[k]);
    assert SchemaBlock(s, show) == pre + SampleRows(s, show);
  }

  // ---------------------------------------------------------------------
  // The message window
  // ---------------------------------------------------------------------

  /** How many of the latest messages are forwarded. */
  const HistoryWindow: nat := 10

  /** `messages[-10:]`: the latest ten messages, in their original order. */
  function RecentMessages<T>(msgs: seq<T>): (r: seq<T>)
    ensures |r| == if |msgs| <= HistoryWindow then |msgs| else HistoryWindow
    ensures r == msgs[|msgs| - |r|..]
  {
    if |msgs| <= HistoryWindow then msgs else msgs[|msgs| - HistoryWindow..]
  }

  /** Messages older than the last ten never matter. */
  lemma OlderMessagesIgnored<T>(older: seq<T>, latest: seq<T>)
    requires |latest| >= HistoryWindow
    ensures RecentMessages(older + latest) == RecentMessages(latest)
  {
    var all := older + latest;
    assert all[|all| - HistoryWindow..] == latest[|latest| - HistoryWindow..];
  }

  /** Taking the window twice takes it once. */
  lemma RecentIdempotent<T>(msgs: seq<T>)
    ensures RecentMessages(RecentMessages(msgs)) == RecentMessages(msgs)
  {
  }
}
