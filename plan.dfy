/**
 * The analysis-plan parser: it turns the model's reply into
 * `{"queries": [...]}`, keeping only well-formed query entries and giving
 * every kept entry an id.
 */
module Plan {
  import opened Wrappers
  import opened JsonValue
  import opened Text
  import opened Fences
  import opened Patterns
  import opened BraceScan

  /** An entry worth keeping: an object whose `title` and `sql` are strings. */
  predicate WellFormedQuery(q: Json) {
    q.Obj? && HasString(q.fields, "title") && HasString(q.fields, "sql")
  }

  /** The id made up for an entry at 0-based position `idx` of the unfiltered list. */
  function FallbackId(idx: nat): string {
    "q" + NatToString(idx + 1)
  }

  /**
   * A non-empty string id is kept; a number (a bool included) is shown as
   * Python's `str` shows it; anything else gives the positional id.
   */
  function QueryId(q: Fields, idx: nat, show: Json -> string): (id: string)
    ensures (Get(q, "id").Some? && Get(q, "id").value.Str? && Get(q, "id").value.s != "") ==> id == Get(q, "id").value.s
    ensures (Get(q, "id").Some? && IsNumber(Get(q, "id").value)) ==> id == show(Get(q, "id").value)
    ensures (Get(q, "id").None? || !(Get(q, "id").value.Str? || IsNumber(Get(q, "id").value)) || Get(q, "id") == Some(Str(""))) ==>
              id == FallbackId(idx)
  {
    match Get(q, "id")
    case Some(Str(s)) => if s != "" then s else FallbackId(idx)
    case Some(v) => if IsNumber(v) then show(v) else FallbackId(idx)
    case None => FallbackId(idx)
  }

  /** The entry kept for a well-formed query found at unfiltered position `idx`. */
  function PlanItem(q: Fields, idx: nat, show: Json -> string): Json
    requires HasString(q, "title") && HasString(q, "sql")
  {
    Obj([("id", Str(QueryId(q, idx, show))),
         ("title", Get(q, "title").value),
         ("sql", Get(q, "sql").value),
         ("rationale", GetOr(q, "rationale", Str("")))])
  }

  /**
   * A kept entry has exactly the keys id, title, sql and rationale, in that
   * order; title and sql are the query's own, and rationale is "" only when
   * the query has none (a non-string rationale passes through).
   */
  lemma PlanItemShape(q: Fields, idx: nat, show: Json -> string)
    requires HasString(q, "title") && HasString(q, "sql")
    ensures var r := PlanItem(q, idx, show);
            r.Obj? && Keys(r.fields) == ["id", "title", "sql", "rationale"] &&
            Get(r.fields, "id") == Some(Str(QueryId(q, idx, show))) &&
            Get(r.fields, "title") == Get(q, "title") && Get(r.fields, "sql") == Get(q, "sql") &&
            (Has(q, "rationale") ==> Get(r.fields, "rationale") == Get(q, "rationale")) &&
            (!Has(q, "rationale") ==> Get(r.fields, "rationale") == Some(Str("")))
  {
    assert "id"[0] == 'i' && "title"[0] == 't' && "sql"[0] == 's' && "rationale"[0] == 'r';
    var f := PlanItem(q, idx, show).fields;
    RecordOfFour(f[0].0, f[0].1, f[1].0, f[1].1, f[2].0, f[2].1, f[3].0, f[3].1);
  }

  /** Keys and lookups in a four-entry dict with distinct keys. */
  lemma RecordOfFour(k0: string, v0: Json, k1: string, v1: Json, k2: string, v2: Json, k3: string, v3: Json)
    requires k0 != k1 && k0 != k2 && k0 != k3 && k1 != k2 && k1 != k3 && k2 != k3
    ensures var f := [(k0, v0), (k1, v1), (k2, v2), (k3, v3)];
            Keys(f) == [k0, k1, k2, k3] &&
            Get(f, k0) == Some(v0) && Get(f, k1) == Some(v1) && Get(f, k2) == Some(v2) && Get(f, k3) == Some(v3)
  {
    var f3: Fields := [(k3, v3)];
    var f2 := [(k2, v2)] + f3;
    var f1 := [(k1, v1)] + f2;
    var f := [(k0, v0)] + f1;
    assert f == [(k0, v0), (k1, v1), (k2, v2), (k3, v3)];
    assert Keys(f) == [k0, k1, k2, k3] by {
      GetCons(k3, v3, [], k3);
      assert Keys(f3) == [k3];
      GetCons(k2, v2, f3, k3);
      GetCons(k1, v1, f2, k3);
      GetCons(k0, v0, f1, k3);
    }
    assert Get(f, k3) == Some(v3) by {
      GetCons(k3, v3, [], k3);
      GetCons(k2, v2, f3, k3);
      GetCons(k1, v1, f2, k3);
      GetCons(k0, v0, f1, k3);
    }
    assert Get(f, k2) == Some(v2) by {
      GetCons(k2, v2, f3, k2);
      GetCons(k1, v1, f2, k2);
      GetCons(k0, v0, f1, k2);
    }
    assert Get(f, k1) == Some(v1) by {
      GetCons(k1, v1, f2, k1);
      GetCons(k0, v0, f1, k1);
    }
    GetCons(k0, v0, f1, k0);
  }

  /** The validated entries of `qs`, each with its position in the unfiltered list. */
  function ValidQueries(qs: seq<Json>, show: Json -> string): seq<Json>
    decreases |qs|
  {
    if qs == [] then []
    else
      var i := |qs| - 1;
      ValidQueries(qs[..i], show) + (if WellFormedQuery(qs[i]) then [PlanItem(qs[i].fields, i, show)] else [])
  }

  /** The positions of the well-formed entries, in increasing order. */
  function Kept(qs: seq<Json>): (r: seq<nat>)
    ensures |r| <= |qs|
    ensures forall k :: 0 <= k < |r| ==> r[k] < |qs| && WellFormedQuery(qs[r[k]])
    decreases |qs|
  {
    if qs == [] then []
    else
      var i := |qs| - 1;
      var front := Kept(qs[..i]);
      assert forall k :: 0 <= k < |front| ==> qs[front[k]] == qs[..i][front[k]];
      front + (if WellFormedQuery(qs[i]) then [i] else [])
  }

  /** Kept lists every well-formed position, in increasing order. */
  lemma {:induction false} KeptSpec(qs: seq<Json>)
    ensures forall i :: 0 <= i < |qs| && WellFormedQuery(qs[i]) ==> i in Kept(qs)
    ensures forall k, l :: 0 <= k < l < |Kept(qs)| ==> Kept(qs)[k] < Kept(qs)[l]
    decreases |qs|
  {
    if qs != [] {
      var i := |qs| - 1;
      var front := qs[..i];
      KeptSpec(front);
      var r := Kept(qs);
      var kf := Kept(front);
      assert r == kf + (if WellFormedQuery(qs[i]) then [i] else []);
      forall j | 0 <= j < |qs| && WellFormedQuery(qs[j])
        ensures j in r
      {
        if j < i {
          assert front[j] == qs[j];
          assert j in kf;
        } else {
          assert r[|r| - 1] == i;
        }
      }
    }
  }

  /**
   * Validation keeps exactly the well-formed entries, in input order, and
   * turns the one at unfiltered position p into PlanItem(.., p, ..).
   */
  lemma {:induction false} ValidQueriesAt(qs: seq<Json>, show: Json -> string)
    ensures |ValidQueries(qs, show)| == |Kept(qs)| <= |qs|
    ensures forall k :: 0 <= k < |Kept(qs)| ==>
              ValidQueries(qs, show)[k] == PlanItem(qs[Kept(qs)[k]].fields, Kept(qs)[k], show)
    decreases |qs|
  {
    if qs != [] {
      var i := |qs| - 1;
      ValidQueriesAt(qs[..i], show);
      assert forall j :: 0 <= j < i ==> qs[..i][j] == qs[j];
    }
  }

  /** The validation loop. */
  method ValidateQueries(queries: seq<Json>, show: Json -> string) returns (valid: seq<Json>)
    ensures valid == ValidQueries(queries, show)
  {
    valid := [];
    var idx := 0;
    while idx < |queries|
      invariant 0 <= idx <= |queries|
      invariant valid == ValidQueries(queries[..idx], show)
    {
      var q := queries[idx];
      assert queries[..idx + 1][..idx] == queries[..idx];
      if q.Obj? && HasString(q.fields, "title") && HasString(q.fields, "sql") {
        var qid: string;
        var rawId := Get(q.fields, "id");
        if rawId.Some? && rawId.value.Str? && rawId.value.s != "" {
          qid := rawId.value.s;
        } else if rawId.Some? && IsNumber(rawId.value) {
          qid := show(rawId.value);
        } else {
          qid := "q" + NatToString(idx + 1);
        }
        valid := valid + [Obj([("id", Str(qid)),
                               ("title", Get(q.fields, "title").value),
                               ("sql", Get(q.fields, "sql").value),
                               ("rationale", GetOr(q.fields, "rationale", Str("")))])];
      }
      idx := idx + 1;
    }
    assert queries[..idx] == queries;
  }

  /** A list whose first element is an object: the shape a renamed queries key is recognised by. */
  predicate IsRecordList(v: Json) {
    v.Arr? && |v.items| > 0 && v.items[0].Obj?
  }

  /** The first value, in key order, that is a record list. */
  function FirstRecordList(o: Fields): (r: Option<Json>)
    ensures r.Some? ==> IsRecordList(r.value) &&
                        exists k :: 0 <= k < |o| && o[k].1 == r.value &&
                                    forall j :: 0 <= j < k ==> !IsRecordList(o[j].1)
    ensures r.None? ==> forall k :: 0 <= k < |o| ==> !IsRecordList(o[k].1)
    decreases |o|
  {
    if o == [] then None
    else if IsRecordList(o[0].1) then
      assert o[0].1 == o[0].1;
      Some(o[0].1)
    else
      var r := FirstRecordList(o[1..]);
      assert forall k :: 1 <= k < |o| ==> o[k] == o[1..][k - 1];
      r
  }

  /** The loop over `parsed.items()` that looks for a record list. */
  method FindRecordList(o: Fields) returns (r: Option<Json>)
    ensures r == FirstRecordList(o)
  {
    r := None;
    var k := 0;
    while k < |o|
      invariant 0 <= k <= |o|
      invariant FirstRecordList(o) == FirstRecordList(o[k..])
    {
      assert o[k..][1..] == o[k + 1..];
      var v := o[k].1;
      if v.Arr? && |v.items| > 0 && v.items[0].Obj? {
        r := Some(v);
        break;
      }
      k := k + 1;
    }
  }

  /** The list to validate: `queries` when it is a list, else the first record list. */
  function QueriesOf(o: Fields): Option<seq<Json>> {
    match Get(o, "queries")
    case Some(Arr(a)) => Some(a)
    case _ =>
      match FirstRecordList(o)
      case Some(Arr(a)) => Some(a)
      case _ => None
  }

  /**
   * When no object came out: the greedy bracket span, if it decodes to a
   * list, is returned as the queries without validating any entry.
   */
  function ArrayFallback(decode: string -> Option<Json>, text: string): seq<Json> {
    match BracketSpan(text)
    case None => []
    case Some(span) =>
      match decode(span)
      case Some(Arr(a)) => a
      case _ => []
  }

  /** The `queries` list made from what decoding the reply gave. */
  function PlanFromParsed(decode: string -> Option<Json>, show: Json -> string, text: string, parsed: Option<Json>): seq<Json> {
    match parsed
    case Some(Obj(o)) =>
      (match QueriesOf(o)
       case None => []
       case Some(qs) => ValidQueries(qs, show))
    case _ => ArrayFallback(decode, text)
  }

  /** The `queries` list of the parsed plan. */
  function ParsePlan(decode: string -> Option<Json>, show: Json -> string, raw: string): seq<Json> {
    var text := StripFences(raw);
    PlanFromParsed(decode, show, text, DecodeOrExtract(decode, text))
  }

  /** The response the parser returns: a dict holding only the queries list. */
  function PlanResponse(queries: seq<Json>): Json {
    Obj([("queries", Arr(queries))])
  }

  method ParsePlanResponse(decode: string -> Option<Json>, show: Json -> string, raw: string) returns (r: Json)
    ensures r == PlanResponse(ParsePlan(decode, show, raw))
  {
    var text := StripFences(raw);
    var parsed := decode(text);
    if parsed.None? {
      parsed := ExtractJsonObject(decode, text);
    }
    r := PlanFrom(decode, show, text, parsed);
  }

  /** The part of the parser after decoding: the fallbacks and the validation. */
  method PlanFrom(decode: string -> Option<Json>, show: Json -> string, text: string, parsed: Option<Json>) returns (r: Json)
    ensures r == PlanResponse(PlanFromParsed(decode, show, text, parsed))
  {
    if !(parsed.Some? && parsed.value.Obj?) {
      var span := BracketSpan(text);
      if span.Some? {
        var arr := decode(span.value);
        if arr.Some? && arr.value.Arr? {
          return PlanResponse(arr.value.items);
        }
      }
      return PlanResponse([]);
    }
    var queries := FindQueries(parsed.value.fields);
    if queries.None? {
      return PlanResponse([]);
    }
    var valid := ValidateQueries(queries.value, show);
    return PlanResponse(valid);
  }

  /** `parsed.get("queries")`, replaced by the first record list when it is not a list. */
  method FindQueries(fields: Fields) returns (queries: Option<seq<Json>>)
    ensures queries == QueriesOf(fields)
  {
    var found := Get(fields, "queries");
    if !(found.Some? && found.value.Arr?) {
      found := FindRecordList(fields);
    }
    if found.Some? && found.value.Arr? {
      queries := Some(found.value.items);
    } else {
      queries := None;
    }
  }

  // ---------------------------------------------------------------------
  // Properties of the parsed plan
  // ---------------------------------------------------------------------

  /** Every kept entry has exactly the keys id, title, sql and rationale, and a string id. */
  lemma PlanItemsShaped(qs: seq<Json>, show: Json -> string)
    ensures forall k :: 0 <= k < |ValidQueries(qs, show)| ==>
              var item := ValidQueries(qs, show)[k];
              item.Obj? && Keys(item.fields) == ["id", "title", "sql", "rationale"] &&
              HasString(item.fields, "id") && HasString(item.fields, "title") && HasString(item.fields, "sql")
  {
    ValidQueriesAt(qs, show);
    var valid := ValidQueries(qs, show);
    forall k | 0 <= k < |valid|
      ensures valid[k].Obj? && Keys(valid[k].fields) == ["id", "title", "sql", "rationale"] &&
              HasString(valid[k].fields, "id") && HasString(valid[k].fields, "title") && HasString(valid[k].fields, "sql")
    {
      var p := Kept(qs)[k];
      PlanItemShape(qs[p].fields, p, show);
      assert valid[k] == PlanItem(qs[p].fields, p, show);
    }
  }

  /**
   * The positional id counts entries that were dropped: a malformed entry
   * followed by a well-formed one without an id yields a single item with
   * id "q2".
   */
  lemma IdCountsDroppedEntries(bad: Json, q: Fields, show: Json -> string)
    requires !WellFormedQuery(bad)
    requires HasString(q, "title") && HasString(q, "sql") && !Has(q, "id")
    ensures ValidQueries([bad, Obj(q)], show) == [PlanItem(q, 1, show)]
    ensures Get(ValidQueries([bad, Obj(q)], show)[0].fields, "id") == Some(Str("q2"))
  {
    var qs := [bad, Obj(q)];
    assert ValidQueries(qs, show) == [PlanItem(q, 1, show)] by {
      assert qs[..1] == [bad];
      assert ValidQueries([bad], show) == [] by {
        assert [bad][..0] == [];
      }
    }
    assert QueryId(q, 1, show) == "q2" by {
      assert DigitChar(2) == '2';
      assert FallbackId(1) == "q2";
    }
    PlanItemShape(q, 1, show);
  }

  /**
   * A reply that decodes to an object with a `queries` list is validated
   * entry by entry.
   */
  lemma CleanPlan(decode: string -> Option<Json>, show: Json -> string, raw: string, o: Fields, qs: seq<Json>)
    requires decode(StripFences(raw)) == Some(Obj(o))
    requires Get(o, "queries") == Some(Arr(qs))
    ensures ParsePlan(decode, show, raw) == ValidQueries(qs, show)
  {
  }

  /**
   * A reply that is a bare JSON list is returned as the queries unchanged:
   * its entries are not validated and get no ids.
   */
  lemma ListReplyUnvalidated(decode: string -> Option<Json>, show: Json -> string, raw: string, a: seq<Json>)
    requires var text := StripFences(raw);
             |text| >= 2 && text[0] == '[' && text[|text| - 1] == ']' && decode(text) == Some(Arr(a))
    ensures ParsePlan(decode, show, raw) == a
  {
    ListTextUnvalidated(decode, show, StripFences(raw), a);
  }

  /** The same for the fence-stripped text. */
  lemma ListTextUnvalidated(decode: string -> Option<Json>, show: Json -> string, text: string, a: seq<Json>)
    requires |text| >= 2 && text[0] == '[' && text[|text| - 1] == ']' && decode(text) == Some(Arr(a))
    ensures PlanFromParsed(decode, show, text, DecodeOrExtract(decode, text)) == a
  {
    assert DecodeOrExtract(decode, text) == Some(Arr(a));
    assert BracketSpan(text) == Some(text) by {
      assert FirstIndexOf(text, '[') == Some(0);
      assert LastIndexOf(text, ']') == Some(|text| - 1);
      assert text[0..|text|] == text;
    }
  }

  /**
   * A reply none of whose three readings yields anything gives the empty
   * plan: the whole fence-stripped text does not decode, the object
   * extractor finds nothing, and the bracketed span is absent or does not
   * decode to a list.
   */
  lemma UndecodableGivesEmptyPlan(decode: string -> Option<Json>, show: Json -> string, raw: string)
    requires decode(StripFences(raw)).None? && JsonObjectIn(decode, StripFences(raw)).None?
    requires NoListSpan(decode, StripFences(raw))
    ensures ParsePlan(decode, show, raw) == []
  {
    NothingDecoded(decode, show, StripFences(raw));
  }

  /** The bracketed span is absent or does not decode to a list. */
  predicate NoListSpan(decode: string -> Option<Json>, text: string) {
    BracketSpan(text).None? || decode(BracketSpan(text).value).None? || !decode(BracketSpan(text).value).value.Arr?
  }

  /** The plan from a fence-stripped reply none of whose readings decodes usefully. */
  lemma NothingDecoded(decode: string -> Option<Json>, show: Json -> string, text: string)
    requires decode(text).None? && JsonObjectIn(decode, text).None? && NoListSpan(decode, text)
    ensures PlanFromParsed(decode, show, text, DecodeOrExtract(decode, text)) == []
  {
    assert DecodeOrExtract(decode, text).None?;
    assert ArrayFallback(decode, text) == [];
  }

  /**
   * When `queries` is not a list, the first record list in key order is
   * validated instead; without one the plan is empty.
   */
  lemma RenamedQueriesKey(decode: string -> Option<Json>, show: Json -> string, raw: string, o: Fields)
    requires decode(StripFences(raw)) == Some(Obj(o))
    requires !(Get(o, "queries").Some? && Get(o, "queries").value.Arr?)
    ensures FirstRecordList(o).Some? ==> ParsePlan(decode, show, raw) == ValidQueries(FirstRecordList(o).value.items, show)
    ensures FirstRecordList(o).None? ==> ParsePlan(decode, show, raw) == []
  {
  }
}
