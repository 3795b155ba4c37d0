/**
 * How the synthesis handler finds the query result an insight's chart is
 * drawn from: an index of the plan results by normalised SQL, then an
 * exact match, a containment match in index order, or the result at the
 * insight's position.
 */
module ResultLookup {
  import opened Wrappers
  import opened JsonValue
  import opened Text
  import opened SynthesizePrompt
  import Insights

  /** `" ".join(s.lower().split())`: lower case, whitespace runs collapsed to one space. */
  function NormalizeSql(s: string): (r: string)
    ensures IsLowered(r)
    ensures r == [] || (!IsSpace(r[0]) && !IsSpace(r[|r| - 1]))
  {
    var ws := Words(Lower(s));
    LowerIsLowered(s);
    WordsKeepLowered(Lower(s));
    JoinKeepsLowered(ws);
    WordsAreProper(Lower(s));
    JoinEnds(ws);
    Join(ws, " ")
  }

  /**
   * The normal form keeps the words of the lowered SQL, in order, and
   * separates them by single spaces: every whitespace character in it is a
   * space and no two of them are adjacent.
   */
  lemma NormalFormShape(s: string)
    ensures var r := NormalizeSql(s);
            Words(r) == Words(Lower(s)) &&
            (forall k :: 0 <= k < |r| && IsSpace(r[k]) ==> r[k] == ' ') &&
            (forall i, j :: 0 <= i && j == i + 1 && j < |r| ==> !IsSpace(r[i]) || !IsSpace(r[j]))
  {
    var ws := Words(Lower(s));
    WordsAreProper(Lower(s));
    JoinSpacing(ws);
    WordsJoin(ws);
  }

  lemma LowerIsLowered(s: string)
    ensures IsLowered(Lower(s))
  {
  }

  lemma LowerOfLowered(s: string)
    requires IsLowered(s)
    ensures Lower(s) == s
  {
  }

  /** A join of proper words neither starts nor ends with whitespace. */
  lemma {:induction false} JoinEnds(ws: seq<string>)
    requires ProperWords(ws)
    ensures var j := Join(ws, " "); j == [] || (!IsSpace(j[0]) && !IsSpace(j[|j| - 1]))
    decreases |ws|
  {
    if |ws| > 1 {
      JoinCons(ws[0], ws[1..], " ");
      assert [ws[0]] + ws[1..] == ws;
      assert ProperWords(ws[1..]) by {
        forall i | 0 <= i < |ws[1..]| ensures ws[1..][i] != [] && NoSpace(ws[1..][i]) {
          assert ws[1..][i] == ws[i + 1];
        }
      }
      JoinEnds(ws[1..]);
      JoinStartsWith(ws[1..], " ");
    }
  }

  /** In a join of proper words every whitespace character is a single space between two words. */
  lemma {:induction false} JoinSpacing(ws: seq<string>)
    requires ProperWords(ws)
    ensures var s := Join(ws, " ");
            (forall k :: 0 <= k < |s| && IsSpace(s[k]) ==> s[k] == ' ') &&
            (forall i, j :: 0 <= i && j == i + 1 && j < |s| ==> !IsSpace(s[i]) || !IsSpace(s[j]))
    decreases |ws|
  {
    if |ws| > 1 {
      var w, tail := ws[0], ws[1..];
      assert ProperWords(tail) by {
        forall i | 0 <= i < |tail| ensures tail[i] != [] && NoSpace(tail[i]) {
          assert tail[i] == ws[i + 1];
        }
      }
      var rest := Join(tail, " ");
      JoinCons(w, tail, " ");
      assert [w] + tail == ws;
      JoinSpacing(tail);
      JoinEnds(tail);
      JoinStartsWith(tail, " ");
      assert rest != [];
      var j := Join(ws, " ");
      assert j == w + " " + rest;
      forall k | 0 <= k < |j| && IsSpace(j[k]) ensures j[k] == ' ' {
        if k < |w| {
          assert false;
        } else if k > |w| {
          assert j[k] == rest[k - |w| - 1];
        }
      }
      forall a, b | 0 <= a && b == a + 1 && b < |j| ensures !IsSpace(j[a]) || !IsSpace(j[b]) {
        if b < |w| {
          assert j[a] == w[a];
        } else if b == |w| {
          assert j[a] == w[|w| - 1];
        } else if a == |w| {
          assert j[b] == rest[0];
        } else {
          assert j[a] == rest[a - |w| - 1];
          assert j[b] == rest[b - |w| - 1];
        }
      }
    }
  }

  /** Normalising twice is normalising once. */
  lemma NormalizeIdempotent(s: string)
    ensures NormalizeSql(NormalizeSql(s)) == NormalizeSql(s)
  {
    var n := NormalizeSql(s);
    var ws := Words(Lower(s));
    LowerOfLowered(n);
    WordsAreProper(Lower(s));
    WordsJoin(ws);
  }

  /** Text made only of whitespace normalises to the empty string. */
  lemma BlankNormalizesEmpty(s: string)
    requires AllSpace(s)
    ensures NormalizeSql(s) == ""
  {
    assert AllSpace(Lower(s));
    BlankIsAllSpace(Lower(s));
    TrimLeftEmpty(Lower(s));
  }

  // ---------------------------------------------------------------------
  // The index of plan results
  // ---------------------------------------------------------------------

  /** A dict from normalised SQL to result, in insertion order. */
  type ResultIndex = seq<(string, QueryResult)>

  /** `d.get(key)`: the value stored under `key`, nothing exactly when the key is absent. */
  function IndexGet(index: ResultIndex, key: string): (r: Option<QueryResult>)
    ensures r.Some? ==> (key, r.value) in index
    ensures r.None? <==> forall j :: 0 <= j < |index| ==> index[j].0 != key
    decreases |index|
  {
    if index == [] then None
    else if index[0].0 == key then Some(index[0].1)
    else IndexGet(index[1..], key)
  }

  /** `d[key] = v`: an existing key keeps its place and takes the new value, a new one is appended. */
  function IndexPut(index: ResultIndex, key: string, v: QueryResult): (r: ResultIndex)
    ensures IndexGet(r, key) == Some(v)
    ensures forall k :: k != key ==> IndexGet(r, k) == IndexGet(index, k)
    ensures forall j :: 0 <= j < |r| ==> r[j] == (key, v) || r[j] in index
    ensures IndexGet(index, key).None? ==> r == index + [(key, v)]
    ensures IndexGet(index, key).Some? ==>
              |r| == |index| && forall j :: 0 <= j < |index| ==> r[j].0 == index[j].0 && (r[j] == index[j] || r[j] == (key, v))
    decreases |index|
  {
    if index == [] then [(key, v)]
    else if index[0].0 == key then
      var r := [(key, v)] + index[1..];
      assert r[1..] == index[1..];
      r
    else
      var rest := IndexPut(index[1..], key, v);
      var r := [index[0]] + rest;
      assert r[1..] == rest;
      r
  }

  /** Only results with rows are indexed. */
  predicate HasRows(e: PlanEntry) {
    e.result.Some? && e.result.value.rows != []
  }

  /** `plan_results_by_sql` after the loop over the plan entries. */
  function IndexOf(entries: seq<PlanEntry>): ResultIndex
    decreases |entries|
  {
    if entries == [] then []
    else
      var n := |entries| - 1;
      var e := entries[n];
      if HasRows(e) then IndexPut(IndexOf(entries[..n]), NormalizeSql(e.sql), e.result.value)
      else IndexOf(entries[..n])
  }

  /** `plan_results_list` after the loop: the results with rows, in plan order. */
  function ResultList(entries: seq<PlanEntry>): (r: seq<QueryResult>)
    ensures |r| <= |entries|
    ensures forall k :: 0 <= k < |r| ==> r[k].rows != []
    decreases |entries|
  {
    if entries == [] then []
    else
      var n := |entries| - 1;
      var e := entries[n];
      ResultList(entries[..n]) + (if HasRows(e) then [e.result.value] else [])
  }

  /** The result list of a concatenation is the concatenation of the result lists. */
  lemma {:induction false} ResultListConcat(a: seq<PlanEntry>, b: seq<PlanEntry>)
    ensures ResultList(a + b) == ResultList(a) + ResultList(b)
    decreases |b|
  {
    if b != [] {
      var n := |b| - 1;
      assert (a + b)[..|a| + n] == a + b[..n];
      ResultListConcat(a, b[..n]);
    } else {
      assert a + b == a;
    }
  }

  /** One entry contributes its result exactly when that result has rows. */
  lemma ResultListOne(e: PlanEntry)
    ensures ResultList([e]) == if HasRows(e) then [e.result.value] else []
  {
    assert [e][..0] == [];
  }

  /** The loop that fills the index and the list. */
  method BuildResultIndex(entries: seq<PlanEntry>) returns (bySql: ResultIndex, list: seq<QueryResult>)
    ensures bySql == IndexOf(entries) && list == ResultList(entries)
  {
    bySql := [];
    list := [];
    var i := 0;
    while i < |entries|
      invariant 0 <= i <= |entries|
      invariant bySql == IndexOf(entries[..i]) && list == ResultList(entries[..i])
    {
      var e := entries[i];
      assert entries[..i + 1][..i] == entries[..i];
      if e.result.Some? && e.result.value.rows != [] {
        bySql := IndexPut(bySql, NormalizeSql(e.sql), e.result.value);
        list := list + [e.result.value];
      }
      i := i + 1;
    }
    assert entries[..i] == entries;
  }

  /** The reference reading of the index: the last entry with rows whose SQL normalises to `key`. */
  function LastWithKey(entries: seq<PlanEntry>, key: string): Option<QueryResult>
    decreases |entries|
  {
    if entries == [] then None
    else
      var n := |entries| - 1;
      var e := entries[n];
      if HasRows(e) && NormalizeSql(e.sql) == key then Some(e.result.value)
      else LastWithKey(entries[..n], key)
  }

  /** Looking up the index finds the last entry with that normalised SQL: later entries overwrite. */
  lemma {:induction false} IndexFindsLast(entries: seq<PlanEntry>, key: string)
    ensures IndexGet(IndexOf(entries), key) == LastWithKey(entries, key)
    decreases |entries|
  {
    if entries != [] {
      IndexFindsLast(entries[..|entries| - 1], key);
    }
  }

  /** Every indexed result has rows. */
  lemma {:induction false} IndexedHaveRows(entries: seq<PlanEntry>)
    ensures forall j :: 0 <= j < |IndexOf(entries)| ==> IndexOf(entries)[j].1.rows != []
    decreases |entries|
  {
    if entries != [] {
      var n := |entries| - 1;
      IndexedHaveRows(entries[..n]);
      var before := IndexOf(entries[..n]);
      if HasRows(entries[n]) {
        var after := IndexOf(entries);
        forall j | 0 <= j < |after| ensures after[j].1.rows != [] {
          if after[j] in before {
            var t :| 0 <= t < |before| && before[t] == after[j];
          }
        }
      }
    }
  }

  // ---------------------------------------------------------------------
  // The lookup
  // ---------------------------------------------------------------------

  /** The first indexed result, in index order, whose SQL contains the insight's or is contained in it. */
  function FuzzyMatch(index: ResultIndex, norm: string): (r: Option<QueryResult>)
    ensures r.Some? ==> exists j :: 0 <= j < |index| && index[j].1 == r.value &&
                                    (Contains(index[j].0, norm) || Contains(norm, index[j].0)) &&
                                    forall t :: 0 <= t < j ==> !(Contains(index[t].0, norm) || Contains(norm, index[t].0))
    ensures r.None? ==> forall j :: 0 <= j < |index| ==> !(Contains(index[j].0, norm) || Contains(norm, index[j].0))
    decreases |index|
  {
    if index == [] then None
    else if Contains(index[0].0, norm) || Contains(norm, index[0].0) then
      assert index[0].1 == index[0].1;
      Some(index[0].1)
    else
      var r := FuzzyMatch(index[1..], norm);
      assert forall j :: 1 <= j < |index| ==> index[j] == index[1..][j - 1];
      r
  }

  /**
   * The result an insight at position `idx` with SQL `sql` is charted from:
   * exact normalised match, else the first containment match, else the
   * result at the same position. A SQL that is not a string makes the
   * normalisation raise, which the handler catches by skipping the chart.
   */
  function ResultFor(index: ResultIndex, list: seq<QueryResult>, idx: nat, sql: Json): Option<QueryResult> {
    if !sql.Str? then None
    else
      var norm := NormalizeSql(sql.s);
      match IndexGet(index, norm)
      case Some(r) => Some(r)
      case None =>
        match FuzzyMatch(index, norm)
        case Some(r) => Some(r)
        case None => if idx < |list| then Some(list[idx]) else None
  }

  /** The loop over the index that looks for a containment match. */
  method FindFuzzy(index: ResultIndex, norm: string) returns (r: Option<QueryResult>)
    ensures r == FuzzyMatch(index, norm)
  {
    r := None;
    var k := 0;
    while k < |index|
      invariant 0 <= k <= |index|
      invariant FuzzyMatch(index, norm) == FuzzyMatch(index[k..], norm)
    {
      assert index[k..][1..] == index[k + 1..];
      var (planSql, planResult) := index[k];
      if Contains(planSql, norm) || Contains(norm, planSql) {
        r := Some(planResult);
        break;
      }
      k := k + 1;
    }
  }

  method LookupResult(index: ResultIndex, list: seq<QueryResult>, idx: nat, sql: Json) returns (r: Option<QueryResult>)
    ensures r == ResultFor(index, list, idx, sql)
  {
    if !sql.Str? {
      return None;
    }
    var norm := NormalizeSql(sql.s);
    r := IndexGet(index, norm);
    if r.None? {
      r := FindFuzzy(index, norm);
    }
    if r.None? && idx < |list| {
      r := Some(list[idx]);
    }
  }

  /**
   * The data each insight's chart is drawn from: only insights with chart
   * code look one up, by their position among all insights.
   */
  function ChartSources(insights: seq<Insights.Insight>, entries: seq<PlanEntry>): (r: seq<Option<QueryResult>>)
    ensures |r| == |insights|
    ensures forall i :: 0 <= i < |insights| ==>
              r[i] == if insights[i].pythonCode.Some? then ResultFor(IndexOf(entries), ResultList(entries), i, insights[i].sql) else None
  {
    seq(|insights|, i requires 0 <= i < |insights| =>
      if insights[i].pythonCode.Some? then ResultFor(IndexOf(entries), ResultList(entries), i, insights[i].sql) else None)
  }

  /** The handler's loop over the insights, after the index is built. */
  method FindChartSources(insights: seq<Insights.Insight>, entries: seq<PlanEntry>) returns (sources: seq<Option<QueryResult>>)
    ensures sources == ChartSources(insights, entries)
  {
    var bySql, list := BuildResultIndex(entries);
    ghost var want := ChartSources(insights, entries);
    sources := [];
    var idx := 0;
    while idx < |insights|
      invariant 0 <= idx <= |insights|
      invariant sources == want[..idx]
    {
      var source: Option<QueryResult> := None;
      if insights[idx].pythonCode.Some? {
        source := LookupResult(bySql, list, idx, insights[idx].sql);
      }
      assert source == want[idx];
      assert want[..idx + 1] == want[..idx] + [want[idx]];
      sources := sources + [source];
      idx := idx + 1;
    }
  }

  // ---------------------------------------------------------------------
  // Properties of the lookup
  // ---------------------------------------------------------------------

  /** A chart is only ever drawn from a result that has rows. */
  lemma ChartDataHasRows(insights: seq<Insights.Insight>, entries: seq<PlanEntry>, i: nat)
    requires i < |insights| && ChartSources(insights, entries)[i].Some?
    ensures ChartSources(insights, entries)[i].value.rows != []
  {
    var index := IndexOf(entries);
    IndexedHaveRows(entries);
    var sql := insights[i].sql;
    var norm := NormalizeSql(sql.s);
    var exact := IndexGet(index, norm);
    if exact.Some? {
      var t :| 0 <= t < |index| && index[t] == (norm, exact.value);
    } else if FuzzyMatch(index, norm).Some? {
      var t :| 0 <= t < |index| && index[t].1 == FuzzyMatch(index, norm).value;
    }
  }

  /**
   * An insight whose SQL is blank matches the first indexed result: its
   * normal form is empty, and the empty string is contained in every SQL.
   */
  lemma BlankSqlMatchesFirst(index: ResultIndex, list: seq<QueryResult>, idx: nat, s: string)
    requires AllSpace(s) && index != [] && IndexGet(index, "").None?
    ensures ResultFor(index, list, idx, Str(s)) == Some(index[0].1)
  {
    BlankNormalizesEmpty(s);
    assert Contains(index[0].0, "") by {
      assert index[0].0[..0] == "";
    }
  }

  /** With neither an exact nor a containment match, the result at the insight's position is used. */
  lemma PositionalFallback(index: ResultIndex, list: seq<QueryResult>, idx: nat, s: string)
    requires forall j :: 0 <= j < |index| ==> !Contains(index[j].0, NormalizeSql(s)) && !Contains(NormalizeSql(s), index[j].0)
    ensures ResultFor(index, list, idx, Str(s)) == if idx < |list| then Some(list[idx]) else None
  {
    var norm := NormalizeSql(s);
    assert Contains(norm, norm) by {
      assert norm[..|norm|] == norm;
    }
    assert IndexGet(index, norm).None?;
  }

  /**
   * SQL that differs only in case and whitespace (the same words once
   * lowered) finds the same result.
   */
  lemma SameNormalFormSameResult(index: ResultIndex, list: seq<QueryResult>, idx: nat, a: string, b: string)
    requires Words(Lower(a)) == Words(Lower(b))
    ensures ResultFor(index, list, idx, Str(a)) == ResultFor(index, list, idx, Str(b))
  {
  }
}
