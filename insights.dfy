/**
 * The insights parser: the model's reply becomes a summary and a list of
 * validated insights. A reply cut off mid-array still yields the summary
 * and every insight object that was completed before the cut.
 */
module Insights {
  import opened Wrappers
  import opened JsonValue
  import opened Text
  import opened Fences
  import opened Patterns
  import opened BraceScan

  datatype Priority = High | Medium | Low

  /** The name a priority has in the reply and in the response. */
  function PriorityName(p: Priority): string {
    match p
    case High => "high"
    case Medium => "medium"
    case Low => "low"
  }

  /**
   * One validated insight. The chart code and title are present only when
   * the reply gave them; `sql` is passed through whatever its type.
   */
  datatype Insight = Insight(
    title: string,
    priority: Priority,
    finding: string,
    sql: Json,
    pythonCode: Option<string>,
    chartTitle: Option<string>)

  datatype Report = Report(summary: string, insights: seq<Insight>)

  /** An item that passes the type checks: a dict whose title and finding are strings. */
  predicate Eligible(item: Json) {
    item.Obj? && HasString(item.fields, "title") && HasString(item.fields, "finding")
  }

  /** A value the membership test against the set of priority names cannot hash. */
  predicate Unhashable(v: Json) {
    v.Arr? || v.Obj?
  }

  /** The priority an item asks for, "medium" when it names none. */
  function RawPriority(item: Fields): Json {
    GetOr(item, "priority", Str("medium"))
  }

  /**
   * A recognised priority name is kept and any other hashable value becomes
   * medium; a list or a dict makes the membership test raise TypeError.
   */
  function PriorityOf(item: Fields): (r: Result<Priority>)
    ensures r.Err? <==> Unhashable(RawPriority(item))
    ensures forall p :: RawPriority(item) == Str(PriorityName(p)) ==> r == Ok(p)
    ensures r.Ok? && r.value != Medium ==> RawPriority(item) == Str(PriorityName(r.value))
  {
    match RawPriority(item)
    case Str(s) => Ok(if s == "high" then High else if s == "low" then Low else Medium)
    case Arr(_) => Err("unhashable type: 'list'")
    case Obj(_) => Err("unhashable type: 'dict'")
    case _ => Ok(Medium)
  }

  /** A string field kept only when it has something besides whitespace. */
  function NonBlankString(item: Fields, key: string): (r: Option<string>)
    ensures r.Some? ==> Get(item, key) == Some(Str(r.value)) && !IsBlank(r.value)
    ensures r.None? ==> !(HasString(item, key) && !IsBlank(Get(item, key).value.s))
  {
    match Get(item, key)
    case Some(Str(c)) => if !IsBlank(c) then Some(c) else None
    case _ => None
  }

  /** What makes an insight well-formed: chart parts non-blank, and a chart title only with chart code. */
  predicate ChartPartsValid(e: Insight) {
    (e.pythonCode.Some? ==> !IsBlank(e.pythonCode.value)) &&
    (e.chartTitle.Some? ==> e.pythonCode.Some? && !IsBlank(e.chartTitle.value))
  }

  /** The validated form of one item: skipped (None), kept, or the TypeError of its priority. */
  function EntryFor(item: Json): (r: Result<Option<Insight>>)
    ensures r.Err? <==> Eligible(item) && Unhashable(RawPriority(item.fields))
    ensures !Eligible(item) ==> r == Ok(None)
    ensures Eligible(item) && r.Ok? ==> r.value.Some?
    ensures r.Ok? && r.value.Some? ==>
              var e := r.value.value;
              ChartPartsValid(e) &&
              Get(item.fields, "title") == Some(Str(e.title)) &&
              Get(item.fields, "finding") == Some(Str(e.finding)) &&
              Ok(e.priority) == PriorityOf(item.fields) &&
              e.sql == GetOr(item.fields, "sql", Str("")) &&
              e.pythonCode == NonBlankString(item.fields, "pythonCode") &&
              e.chartTitle == if e.pythonCode.Some? then NonBlankString(item.fields, "chartTitle") else None
  {
    if !Eligible(item) then Ok(None)
    else
      match PriorityOf(item.fields)
      case Err(e) => Err(e)
      case Ok(p) =>
        var code := NonBlankString(item.fields, "pythonCode");
        var chart := if code.Some? then NonBlankString(item.fields, "chartTitle") else None;
        Ok(Some(Insight(Get(item.fields, "title").value.s, p, Get(item.fields, "finding").value.s,
                        GetOr(item.fields, "sql", Str("")), code, chart)))
  }

  /** `done` followed by the outcome of the rest of the list. */
  function Prepend(done: seq<Insight>, rest: Result<seq<Insight>>): Result<seq<Insight>> {
    match rest
    case Ok(later) => Ok(done + later)
    case Err(e) => Err(e)
  }

  lemma PrependNothing(r: Result<seq<Insight>>)
    ensures Prepend([], r) == r
  {
    if r.Ok? {
      assert [] + r.value == r.value;
    }
  }

  lemma PrependTwice(a: seq<Insight>, b: seq<Insight>, r: Result<seq<Insight>>)
    ensures Prepend(a, Prepend(b, r)) == Prepend(a + b, r)
  {
    if r.Ok? {
      assert a + (b + r.value) == (a + b) + r.value;
    }
  }

  /** The validation loop's result: the kept insights in order, or the first TypeError. */
  function ValidInsights(items: seq<Json>): Result<seq<Insight>>
    decreases |items|
  {
    if items == [] then Ok([])
    else
      match EntryFor(items[0])
      case Err(e) => Err(e)
      case Ok(None) => ValidInsights(items[1..])
      case Ok(Some(e)) => Prepend([e], ValidInsights(items[1..]))
  }

  /** The validation loop. */
  method ValidateInsights(items: seq<Json>) returns (r: Result<seq<Insight>>)
    ensures r == ValidInsights(items)
  {
    var valid: seq<Insight> := [];
    var i := 0;
    assert items[0..] == items;
    PrependNothing(ValidInsights(items));
    while i < |items|
      invariant 0 <= i <= |items|
      invariant ValidInsights(items) == Prepend(valid, ValidInsights(items[i..]))
    {
      assert items[i..][1..] == items[i + 1..];
      var entry := ValidateItem(items[i]);
      match entry {
        case Err(e) =>
          return Err(e);
        case Ok(None) =>
        case Ok(Some(x)) =>
          PrependTwice(valid, [x], ValidInsights(items[i + 1..]));
          valid := valid + [x];
      }
      i := i + 1;
    }
    assert items[i..] == [];
    assert valid + [] == valid;
    r := Ok(valid);
  }

  /** One turn of the validation loop: the checks, the priority and the optional chart parts. */
  method ValidateItem(item: Json) returns (r: Result<Option<Insight>>)
    ensures r == EntryFor(item)
  {
    if !(item.Obj? && HasString(item.fields, "title") && HasString(item.fields, "finding")) {
      return Ok(None);
    }
    var raw := GetOr(item.fields, "priority", Str("medium"));
    var priority: Priority;
    if raw.Arr? {
      return Err("unhashable type: 'list'");
    } else if raw.Obj? {
      return Err("unhashable type: 'dict'");
    } else if raw == Str("high") {
      priority := High;
    } else if raw == Str("low") {
      priority := Low;
    } else {
      priority := Medium;
    }
    var code := NonBlankString(item.fields, "pythonCode");
    var chart: Option<string> := None;
    if code.Some? {
      chart := NonBlankString(item.fields, "chartTitle");
    }
    return Ok(Some(Insight(Get(item.fields, "title").value.s, priority, Get(item.fields, "finding").value.s,
                           GetOr(item.fields, "sql", Str("")), code, chart)));
  }

  /** The summary: a non-empty string as given, otherwise the default. */
  function FinalSummary(v: Json): (r: string)
    ensures r != []
    ensures v.Str? && v.s != [] ==> r == v.s
    ensures !(v.Str? && v.s != []) ==> r == Default
  {
    if v.Str? && v.s != [] then v.s else Default
  }

  /** A decoded dict that holds an `insights` list: the clean case. */
  predicate IsCleanReply(parsed: Option<Json>) {
    parsed.Some? && parsed.value.Obj? && Get(parsed.value.fields, "insights").Some? &&
    Get(parsed.value.fields, "insights").value.Arr?
  }

  /**
   * The raw summary and items: from the decoded dict when the reply was
   * clean, otherwise salvaged from the text by the summary pattern and the
   * brace scanner.
   */
  function SummaryAndItems(decode: string -> Option<Json>, text: string, parsed: Option<Json>): (Json, seq<Json>) {
    if IsCleanReply(parsed) then
      (GetOr(parsed.value.fields, "summary", Str("")), Get(parsed.value.fields, "insights").value.items)
    else
      (Str(ExtractSummary(text)), InsightObjects(decode, text))
  }

  function ReportFrom(decode: string -> Option<Json>, text: string, parsed: Option<Json>): Result<Report> {
    var (summary, items) := SummaryAndItems(decode, text, parsed);
    match ValidInsights(items)
    case Err(e) => Err(e)
    case Ok(valid) => Ok(Report(FinalSummary(summary), valid))
  }

  /** The parser's outcome: the report, or the TypeError it raises. */
  function ParseInsights(decode: string -> Option<Json>, raw: string): Result<Report> {
    var text := StripFences(raw);
    ReportFrom(decode, text, DecodeOrExtract(decode, text))
  }

  method ParseInsightsResponse(decode: string -> Option<Json>, raw: string) returns (r: Result<Report>)
    ensures r == ParseInsights(decode, raw)
  {
    var text := StripFences(raw);
    var parsed := decode(text);
    if parsed.None? {
      parsed := ExtractJsonObject(decode, text);
    }
    r := ReportOf(decode, text, parsed);
  }

  /** The part of the parser after decoding. */
  method ReportOf(decode: string -> Option<Json>, text: string, parsed: Option<Json>) returns (r: Result<Report>)
    ensures r == ReportFrom(decode, text, parsed)
  {
    var summary: Json;
    var items: seq<Json>;
    if parsed.Some? && parsed.value.Obj? && Get(parsed.value.fields, "insights").Some? &&
       Get(parsed.value.fields, "insights").value.Arr? {
      items := Get(parsed.value.fields, "insights").value.items;
      summary := GetOr(parsed.value.fields, "summary", Str(""));
    } else {
      summary := Str(ExtractSummary(text));
      items := ExtractInsightObjects(decode, text);
    }
    var valid := ValidateInsights(items);
    match valid
    case Err(e) => return Err(e);
    case Ok(v) => return Ok(Report(FinalSummary(summary), v));
  }

  // ---------------------------------------------------------------------
  // Properties of the validation
  // ---------------------------------------------------------------------

  /** An item that is kept only as far as its priority, which raises. */
  predicate RaisesOn(item: Json) {
    Eligible(item) && Unhashable(RawPriority(item.fields))
  }

  /** Validation fails exactly when some eligible item has a list or dict priority. */
  lemma {:induction false} ValidInsightsFails(items: seq<Json>)
    ensures ValidInsights(items).Err? <==> exists k :: 0 <= k < |items| && RaisesOn(items[k])
    decreases |items|
  {
    if items != [] {
      ValidInsightsFails(items[1..]);
      assert forall k :: 1 <= k < |items| ==> items[k] == items[1..][k - 1];
      if exists k :: 0 <= k < |items[1..]| && RaisesOn(items[1..][k]) {
        var k :| 0 <= k < |items[1..]| && RaisesOn(items[1..][k]);
        assert RaisesOn(items[k + 1]);
      }
    }
  }

  /** Validation of a concatenation is the validation of each part, in order. */
  lemma {:induction false} ValidInsightsConcat(a: seq<Json>, b: seq<Json>)
    ensures ValidInsights(a + b) == match ValidInsights(a)
                                    case Err(e) => Err(e)
                                    case Ok(x) => Prepend(x, ValidInsights(b))
    decreases |a|
  {
    if a == [] {
      assert a + b == b;
      PrependNothing(ValidInsights(b));
    } else {
      var ab := a + b;
      assert ab[1..] == a[1..] + b;
      assert ab[0] == a[0];
      ValidInsightsConcat(a[1..], b);
      match EntryFor(a[0])
      case Err(e) =>
      case Ok(None) =>
      case Ok(Some(x)) => PrependThen([x], ValidInsights(a[1..]), ValidInsights(b));
    }
  }

  /** Prepending commutes with continuing a successful result. */
  lemma PrependThen(p: seq<Insight>, r: Result<seq<Insight>>, s: Result<seq<Insight>>)
    ensures Prepend(p, match r case Err(e) => Err(e) case Ok(x) => Prepend(x, s)) ==
            match Prepend(p, r) case Err(e) => Err(e) case Ok(y) => Prepend(y, s)
  {
    if r.Ok? && s.Ok? {
      assert p + (r.value + s.value) == (p + r.value) + s.value;
    }
  }

  /**
   * Insights validated from a prefix of the items come first, unchanged,
   * among those validated from the whole list: salvaging more objects
   * never changes or drops the earlier insights.
   */
  lemma ValidInsightsPrefix(a: seq<Json>, b: seq<Json>)
    requires ValidInsights(a + b).Ok?
    ensures ValidInsights(a).Ok? && ValidInsights(a).value <= ValidInsights(a + b).value
  {
    ValidInsightsConcat(a, b);
  }

  /** Every kept insight is well-formed, and there is one per eligible item. */
  lemma {:induction false} ValidInsightsShape(items: seq<Json>)
    requires ValidInsights(items).Ok?
    ensures |ValidInsights(items).value| == EligibleCount(items)
    ensures forall j :: 0 <= j < |ValidInsights(items).value| ==> ChartPartsValid(ValidInsights(items).value[j])
    decreases |items|
  {
    if items != [] {
      ValidInsightsShape(items[1..]);
    }
  }

  /** The number of eligible items. */
  function EligibleCount(items: seq<Json>): (n: nat)
    ensures n <= |items|
    decreases |items|
  {
    if items == [] then 0 else (if Eligible(items[0]) then 1 else 0) + EligibleCount(items[1..])
  }

  /** A clean reply is validated item by item with its own summary. */
  lemma CleanInsights(decode: string -> Option<Json>, raw: string, o: Fields, items: seq<Json>)
    requires decode(StripFences(raw)) == Some(Obj(o))
    requires Get(o, "insights") == Some(Arr(items))
    ensures ParseInsights(decode, raw) == match ValidInsights(items)
                                         case Err(e) => Err(e)
                                         case Ok(v) => Ok(Report(FinalSummary(GetOr(o, "summary", Str(""))), v))
  {
  }

  /**
   * A reply that does not decode to a dict with an insights list is
   * salvaged: the summary pattern gives the summary and the completed
   * objects after the `"insights": [` marker give the items.
   */
  lemma SalvagedInsights(decode: string -> Option<Json>, raw: string)
    requires var text := StripFences(raw); !IsCleanReply(DecodeOrExtract(decode, text))
    ensures var text := StripFences(raw);
            ParseInsights(decode, raw) == match ValidInsights(InsightObjects(decode, text))
                                          case Err(e) => Err(e)
                                          case Ok(v) => Ok(Report(FinalSummary(Str(ExtractSummary(text))), v))
  {
  }
}
