/**
 * The string-aware brace scanner of the insights parser, which salvages JSON
 * objects from replies that carry extra prose or were cut off mid-array. It
 * walks the text keeping a brace depth, whether it is inside a string
 * literal, and whether the previous character was an escaping backslash.
 */
module BraceScan {
  import opened Wrappers
  import opened JsonValue
  import opened Patterns

  datatype ScanState = ScanState(depth: int, inString: bool, escape: bool)

  const Start := ScanState(0, false, false)

  /**
   * One turn of the character loop: an escaped character is skipped; a
   * backslash escapes the next character only inside a string; a quote
   * toggles the string state; outside strings `{` and `}` move the depth.
   */
  function Step(st: ScanState, ch: char): ScanState {
    if st.escape then st.(escape := false)
    else if ch == '\\' then (if st.inString then st.(escape := true) else st)
    else if ch == '"' then st.(inString := !st.inString)
    else if st.inString then st
    else if ch == '{' then st.(depth := st.depth + 1)
    else if ch == '}' then st.(depth := st.depth - 1)
    else st
  }

  /** The character `ch` read in state `st` brings the depth back to zero. */
  predicate Closes(st: ScanState, ch: char) {
    !st.escape && !st.inString && ch == '}' && st.depth == 1
  }

  /** The scanner's state after reading text[s..k]. */
  function StateAt(text: string, s: nat, k: nat): ScanState
    requires s <= k <= |text|
    decreases k - s
  {
    if k == s then Start else Step(StateAt(text, s, k - 1), text[k - 1])
  }

  /** The index of the closing brace the scan from `i` in state `st` stops at. */
  function CloseFrom(text: string, i: nat, st: ScanState): (r: Option<nat>)
    requires i <= |text|
    ensures r.Some? ==> i <= r.value < |text| && text[r.value] == '}'
    decreases |text| - i
  {
    if i == |text| then None
    else if Closes(st, text[i]) then Some(i)
    else CloseFrom(text, i + 1, Step(st, text[i]))
  }

  /** The predicate of a first close: it closes, and no index before it in the scan does. */
  predicate IsFirstClose(text: string, s: nat, i: nat, j: nat)
    requires s <= i
  {
    i <= j < |text| && Closes(StateAt(text, s, j), text[j]) &&
    forall k :: i <= k < j ==> !Closes(StateAt(text, s, k), text[k])
  }

  lemma {:induction false} CloseFromFirst(text: string, s: nat, i: nat, j: nat)
    requires s <= i <= |text|
    ensures CloseFrom(text, i, StateAt(text, s, i)) == Some(j) <==> IsFirstClose(text, s, i, j)
    decreases |text| - i
  {
    if i < |text| && !Closes(StateAt(text, s, i), text[i]) {
      assert StateAt(text, s, i + 1) == Step(StateAt(text, s, i), text[i]);
      CloseFromFirst(text, s, i + 1, j);
    }
  }

  /**
   * The scan from `s` stops exactly at the first index whose character,
   * read in the state the preceding text left, closes the outermost brace.
   */
  lemma ScanFindsFirstClose(text: string, s: nat, j: nat)
    requires s <= |text|
    ensures CloseFrom(text, s, Start) == Some(j) <==> IsFirstClose(text, s, s, j)
  {
    CloseFromFirst(text, s, s, j);
  }

  lemma {:induction false} DepthStaysPositive(text: string, s: nat, k: nat)
    requires s < k <= |text| && text[s] == '{'
    requires forall t :: s <= t < k ==> !Closes(StateAt(text, s, t), text[t])
    ensures StateAt(text, s, k).depth >= 1
    decreases k - s
  {
    if k > s + 1 {
      DepthStaysPositive(text, s, k - 1);
    }
  }

  /**
   * From an opening brace, the depth stays at least one until the close the
   * scan stops at, and the close leaves it at zero: the candidate text[s..j+1]
   * is balanced outside string literals. Without a close, the depth never
   * returns to zero before the text ends.
   */
  lemma CandidateBalanced(text: string, s: nat)
    requires s < |text| && text[s] == '{'
    ensures CloseFrom(text, s, Start).Some? ==>
              var j := CloseFrom(text, s, Start).value;
              StateAt(text, s, j + 1).depth == 0 &&
              forall k :: s < k <= j ==> StateAt(text, s, k).depth >= 1
    ensures CloseFrom(text, s, Start).None? ==>
              forall k :: s < k <= |text| ==> StateAt(text, s, k).depth >= 1
  {
    var r := CloseFrom(text, s, Start);
    var end := if r.Some? then r.value else |text|;
    if r.Some? {
      ScanFindsFirstClose(text, s, r.value);
    } else {
      NoCloseFound(text, s, s);
    }
    forall k | s < k <= end ensures StateAt(text, s, k).depth >= 1 {
      DepthStaysPositive(text, s, k);
    }
  }

  /** A scan that finds no close passes no character that closes. */
  lemma {:induction false} NoCloseFound(text: string, s: nat, i: nat)
    requires s <= i <= |text|
    requires CloseFrom(text, i, StateAt(text, s, i)).None?
    ensures forall j :: i <= j < |text| ==> !Closes(StateAt(text, s, j), text[j])
    decreases |text| - i
  {
    if i < |text| {
      assert StateAt(text, s, i + 1) == Step(StateAt(text, s, i), text[i]);
      NoCloseFound(text, s, i + 1);
    }
  }

  /**
   * The character loop itself: from the `{` at `start`, the index of the
   * brace that closes it, or None when the text ends first.
   */
  method ScanToClose(text: string, start: nat) returns (close: Option<nat>)
    requires start <= |text|
    ensures close == CloseFrom(text, start, Start)
  {
    var depth := 0;
    var inString := false;
    var escape := false;
    var i := start;
    while i < |text|
      invariant start <= i <= |text|
      invariant CloseFrom(text, i, ScanState(depth, inString, escape)) == CloseFrom(text, start, Start)
      decreases |text| - i
    {
      var ch := text[i];
      if escape {
        escape := false;
      } else if ch == '\\' {
        if inString {
          escape := true;
        }
      } else if ch == '"' {
        inString := !inString;
      } else if inString {
      } else if ch == '{' {
        depth := depth + 1;
      } else if ch == '}' {
        depth := depth - 1;
        if depth == 0 {
          return Some(i);
        }
      }
      i := i + 1;
    }
    return None;
  }

  // ---------------------------------------------------------------------
  // _extract_json_object
  // ---------------------------------------------------------------------

  /**
   * The span the object extractor decodes: from the first `{` in the text to
   * the brace the scan stops at. Later braces are never tried.
   */
  function CandidateSpan(text: string): (r: Option<(nat, nat)>)
    ensures r.Some? ==> var (s, j) := r.value;
                        s <= j < |text| && text[s] == '{' && text[j] == '}' &&
                        (forall k :: 0 <= k < s ==> text[k] != '{') &&
                        CloseFrom(text, s, Start) == Some(j)
    ensures (forall k :: 0 <= k < |text| ==> text[k] != '{') ==> r.None?
    ensures forall s :: 0 <= s < |text| && text[s] == '{' && (forall k :: 0 <= k < s ==> text[k] != '{') ==>
              r == if CloseFrom(text, s, Start).Some? then Some((s, CloseFrom(text, s, Start).value)) else None
  {
    match Text.FirstIndexOf(text, '{')
    case None => None
    case Some(s) =>
      match CloseFrom(text, s, Start)
      case None => None
      case Some(j) => Some((s, j))
  }

  /** What the object extractor returns: the decoded candidate, or None. */
  function JsonObjectIn(decode: string -> Option<Json>, text: string): (r: Option<Json>)
    ensures r.Some? ==> CandidateSpan(text).Some? &&
                        decode(text[CandidateSpan(text).value.0..CandidateSpan(text).value.1 + 1]) == r
    ensures CandidateSpan(text).None? ==> r.None?
    ensures CandidateSpan(text).Some? ==>
              r == decode(text[CandidateSpan(text).value.0..CandidateSpan(text).value.1 + 1])
  {
    match CandidateSpan(text)
    case None => None
    case Some((s, j)) => decode(text[s..j + 1])
  }

  /**
   * The reply decoded whole, or else the object the brace scanner salvages:
   * how the plan and insights parsers decode.
   */
  function DecodeOrExtract(decode: string -> Option<Json>, text: string): Option<Json> {
    match decode(text)
    case Some(v) => Some(v)
    case None => JsonObjectIn(decode, text)
  }

  method ExtractJsonObject(decode: string -> Option<Json>, text: string) returns (r: Option<Json>)
    ensures r == JsonObjectIn(decode, text)
  {
    var start := Text.FirstIndexOf(text, '{');
    if start.None? {
      return None;
    }
    var close := ScanToClose(text, start.value);
    if close.None? {
      return None;
    }
    r := decode(text[start.value..close.value + 1]);
  }

  // ---------------------------------------------------------------------
  // _extract_insight_objects
  // ---------------------------------------------------------------------

  /** The characters skipped between salvaged objects. */
  predicate IsSeparator(c: char) {
    c == ' ' || c == '\t' || c == '\n' || c == '\r' || c == ','
  }

  /** The index after the run of separators starting at `pos`. */
  function SkipSeparators(text: string, pos: nat): (r: nat)
    requires pos <= |text|
    ensures pos <= r <= |text|
    ensures forall k :: pos <= k < r ==> IsSeparator(text[k])
    ensures r == |text| || !IsSeparator(text[r])
    decreases |text| - pos
  {
    if pos < |text| && IsSeparator(text[pos]) then SkipSeparators(text, pos + 1) else pos
  }

  /** `v` is what the balanced span text[p..j+1] decodes to. */
  predicate DecodedAt(decode: string -> Option<Json>, text: string, p: nat, j: nat, v: Json) {
    p <= j < |text| && text[p] == '{' && CloseFrom(text, p, Start) == Some(j) &&
    decode(text[p..j + 1]) == Some(v)
  }

  /** `v` was decoded from a balanced span starting at or after `pos`. */
  ghost predicate Salvaged(decode: string -> Option<Json>, text: string, pos: nat, v: Json) {
    exists p, j :: pos <= p && DecodedAt(decode, text, p, j, v)
  }

  lemma SalvagedEarlier(decode: string -> Option<Json>, text: string, pos: nat, q: nat, vs: seq<Json>)
    requires pos <= q
    requires forall k :: 0 <= k < |vs| ==> Salvaged(decode, text, q, vs[k])
    ensures forall k :: 0 <= k < |vs| ==> Salvaged(decode, text, pos, vs[k])
  {
    forall k | 0 <= k < |vs| ensures Salvaged(decode, text, pos, vs[k]) {
      var p, j :| q <= p && DecodedAt(decode, text, p, j, vs[k]);
    }
  }

  /**
   * The objects salvaged from `pos` on, in text order: after any separators
   * a `{` must follow, and its balanced span is decoded and kept when it
   * decodes; a span that does not decode is passed over. Anything other than
   * `{`, or an object that never closes, ends the salvage.
   */
  function ObjectsFrom(decode: string -> Option<Json>, text: string, pos: nat): seq<Json>
    requires pos <= |text|
    decreases |text| - pos
  {
    var p := SkipSeparators(text, pos);
    if p == |text| || text[p] != '{' then []
    else
      match CloseFrom(text, p, Start)
      case None => []
      case Some(j) =>
        var rest := ObjectsFrom(decode, text, j + 1);
        match decode(text[p..j + 1])
        case None => rest
        case Some(v) => [v] + rest
  }

  /** Every salvaged value was decoded from a balanced span that follows `pos`. */
  lemma {:induction false} ObjectsAreSalvaged(decode: string -> Option<Json>, text: string, pos: nat)
    requires pos <= |text|
    ensures forall k :: 0 <= k < |ObjectsFrom(decode, text, pos)| ==> Salvaged(decode, text, pos, ObjectsFrom(decode, text, pos)[k])
    decreases |text| - pos
  {
    var p := SkipSeparators(text, pos);
    if p < |text| && text[p] == '{' && CloseFrom(text, p, Start).Some? {
      var j := CloseFrom(text, p, Start).value;
      var rest := ObjectsFrom(decode, text, j + 1);
      ObjectsAreSalvaged(decode, text, j + 1);
      SalvagedEarlier(decode, text, pos, j + 1, rest);
      var d := decode(text[p..j + 1]);
      if d.Some? {
        assert DecodedAt(decode, text, p, j, d.value);
        assert Salvaged(decode, text, pos, d.value);
        assert ObjectsFrom(decode, text, pos) == [d.value] + rest;
      } else {
        assert ObjectsFrom(decode, text, pos) == rest;
      }
    }
  }

  /** What the salvage returns: nothing without an `"insights": [` marker. */
  function InsightObjects(decode: string -> Option<Json>, text: string): (r: seq<Json>)
    ensures InsightsMarker(text).None? ==> r == []
    ensures InsightsMarker(text).Some? ==> r == ObjectsFrom(decode, text, InsightsMarker(text).value)
  {
    match InsightsMarker(text)
    case None => []
    case Some(p) => ObjectsFrom(decode, text, p)
  }

  /** Where the salvage ends: after separators, no `{`, or a `{` that never closes. */
  lemma ObjectsFromStop(decode: string -> Option<Json>, text: string, pos: nat)
    requires pos <= |text|
    requires var p := SkipSeparators(text, pos);
             p == |text| || text[p] != '{' || CloseFrom(text, p, Start).None?
    ensures ObjectsFrom(decode, text, pos) == []
  {
  }

  /** One salvaged span: its decoded value, if any, comes before the rest. */
  lemma ObjectsFromStep(decode: string -> Option<Json>, text: string, pos: nat, p: nat, j: nat)
    requires pos <= |text| && p == SkipSeparators(text, pos)
    requires p < |text| && text[p] == '{' && CloseFrom(text, p, Start) == Some(j)
    ensures decode(text[p..j + 1]).None? ==> ObjectsFrom(decode, text, pos) == ObjectsFrom(decode, text, j + 1)
    ensures decode(text[p..j + 1]).Some? ==>
              ObjectsFrom(decode, text, pos) == [decode(text[p..j + 1]).value] + ObjectsFrom(decode, text, j + 1)
  {
  }

  /** The salvage as its loop runs it: the objects `found` so far, then those salvaged from `pos` on. */
  function SalvageOnto(decode: string -> Option<Json>, text: string, pos: nat, found: seq<Json>): seq<Json>
    requires pos <= |text|
    decreases |text| - pos
  {
    var p := SkipSeparators(text, pos);
    if p == |text| || text[p] != '{' then found
    else
      match CloseFrom(text, p, Start)
      case None => found
      case Some(j) =>
        SalvageOnto(decode, text, j + 1, match decode(text[p..j + 1]) case None => found case Some(v) => found + [v])
  }

  /** One turn of the salvage loop: a closed span moves `pos` past it and adds what it decodes to. */
  lemma SalvageOntoStep(decode: string -> Option<Json>, text: string, pos: nat, p: nat, j: nat,
                        found: seq<Json>, next: seq<Json>)
    requires pos <= |text| && p == SkipSeparators(text, pos)
    requires p < |text| && text[p] == '{' && CloseFrom(text, p, Start) == Some(j)
    requires next == match decode(text[p..j + 1]) case None => found case Some(v) => found + [v]
    ensures SalvageOnto(decode, text, pos, found) == SalvageOnto(decode, text, j + 1, next)
  {
  }

  lemma {:induction false} SalvageOntoObjects(decode: string -> Option<Json>, text: string, pos: nat, found: seq<Json>)
    requires pos <= |text|
    ensures SalvageOnto(decode, text, pos, found) == found + ObjectsFrom(decode, text, pos)
    decreases |text| - pos
  {
    var p := SkipSeparators(text, pos);
    if p == |text| || text[p] != '{' || CloseFrom(text, p, Start).None? {
      assert found + [] == found;
    } else {
      var j := CloseFrom(text, p, Start).value;
      var d := decode(text[p..j + 1]);
      var next := match d case None => found case Some(v) => found + [v];
      SalvageOntoObjects(decode, text, j + 1, next);
      var rest := ObjectsFrom(decode, text, j + 1);
      if d.Some? {
        assert found + ([d.value] + rest) == (found + [d.value]) + rest;
      }
    }
  }

  /** The inner loop of the salvage: advance past spaces, tabs, newlines and commas. */
  method SkipSeparatorRun(text: string, start: nat) returns (pos: nat)
    requires start <= |text|
    ensures pos == SkipSeparators(text, start)
  {
    pos := start;
    while pos < |text| && IsSeparator(text[pos])
      invariant start <= pos <= |text|
      invariant SkipSeparators(text, pos) == SkipSeparators(text, start)
      decreases |text| - pos
    {
      pos := pos + 1;
    }
  }

  /**
   * The start of one turn of the salvage loop: skip separators, then require
   * a `{` and scan to its close. None means the salvage stops here.
   */
  method NextObjectSpan(text: string, pos: nat) returns (span: Option<(nat, nat)>)
    requires pos <= |text|
    ensures span.None? ==> var p := SkipSeparators(text, pos);
                           p == |text| || text[p] != '{' || CloseFrom(text, p, Start).None?
    ensures span.Some? ==> var (p, j) := span.value;
                           p == SkipSeparators(text, pos) && p < |text| && text[p] == '{' &&
                           CloseFrom(text, p, Start) == Some(j)
  {
    var p := SkipSeparatorRun(text, pos);
    if p >= |text| || text[p] != '{' {
      return None;
    }
    var close := ScanToClose(text, p);
    if close.None? {
      return None;
    }
    span := Some((p, close.value));
  }

  /** The salvage loop, from the index just past the marker's `[`. */
  method SalvageFrom(decode: string -> Option<Json>, text: string, start: nat) returns (objects: seq<Json>)
    requires start <= |text|
    ensures objects == ObjectsFrom(decode, text, start)
  {
    ghost var all := SalvageOnto(decode, text, start, []);
    var pos := start;
    objects := [];
    while pos < |text|
      invariant pos <= |text|
      invariant SalvageOnto(decode, text, pos, objects) == all
      decreases |text| - pos
    {
      var span := NextObjectSpan(text, pos);
      if span.None? {
        break;
      }
      var (p, j) := span.value;
      ghost var found := objects;
      var v := decode(text[p..j + 1]);
      if v.Some? {
        objects := objects + [v.value];
      }
      SalvageOntoStep(decode, text, pos, p, j, found, objects);
      pos := j + 1;
    }
    SalvageOntoObjects(decode, text, start, []);
    assert [] + ObjectsFrom(decode, text, start) == ObjectsFrom(decode, text, start);
  }

  method ExtractInsightObjects(decode: string -> Option<Json>, text: string) returns (objects: seq<Json>)
    ensures objects == InsightObjects(decode, text)
  {
    var marker := InsightsMarker(text);
    if marker.None? {
      return [];
    }
    objects := SalvageFrom(decode, text, marker.value);
  }

  lemma {:induction false} SkipSeparatorsExtend(a: string, b: string, pos: nat)
    requires pos <= |a| && SkipSeparators(a, pos) < |a|
    ensures SkipSeparators(a + b, pos) == SkipSeparators(a, pos)
    decreases |a| - pos
  {
    if IsSeparator(a[pos]) {
      SkipSeparatorsExtend(a, b, pos + 1);
    }
  }

  lemma {:induction false} CloseFromExtend(a: string, b: string, i: nat, st: ScanState)
    requires i <= |a| && CloseFrom(a, i, st).Some?
    ensures CloseFrom(a + b, i, st) == CloseFrom(a, i, st)
    decreases |a| - i
  {
    if !Closes(st, a[i]) {
      CloseFromExtend(a, b, i + 1, Step(st, a[i]));
    }
  }

  /**
   * Cutting a reply short only loses objects at the end: what is salvaged
   * from a prefix of the text is a prefix of what the whole text yields.
   */
  lemma {:induction false} TruncationKeepsPrefix(decode: string -> Option<Json>, a: string, b: string, pos: nat)
    requires pos <= |a|
    ensures ObjectsFrom(decode, a, pos) <= ObjectsFrom(decode, a + b, pos)
    decreases |a| - pos
  {
    var p := SkipSeparators(a, pos);
    if p < |a| && a[p] == '{' && CloseFrom(a, p, Start).Some? {
      SkipSeparatorsExtend(a, b, pos);
      CloseFromExtend(a, b, p, Start);
      var j := CloseFrom(a, p, Start).value;
      assert (a + b)[p] == '{';
      assert (a + b)[p..j + 1] == a[p..j + 1];
      TruncationKeepsPrefix(decode, a, b, j + 1);
    }
  }

  /**
   * A reply cut short anywhere keeps every insight object completed before
   * the cut: what is salvaged from `a` is a prefix of what `a + b` yields.
   */
  lemma CutReplyKeepsInsights(decode: string -> Option<Json>, a: string, b: string)
    ensures InsightObjects(decode, a) <= InsightObjects(decode, a + b)
  {
    if InsightsMarker(a).Some? {
      MarkerExtends(a, b);
      TruncationKeepsPrefix(decode, a, b, InsightsMarker(a).value);
    }
  }
}
