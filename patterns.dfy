/**
 * Deterministic scanners standing in for the four regular expressions the
 * parsers search with. Each pattern is built from character classes that
 * exclude the very characters that end a repetition, so a backtracking
 * matcher has exactly one way to match from a given start; `re.search`
 * then reports the leftmost start that matches.
 */
module Patterns {
  import opened Wrappers
  import opened JsonValue
  import opened Text

  // ---------------------------------------------------------------------
  // Bounded-depth brace blocks:
  //   depth 2: \{[^{}]*(?:\{[^{}]*\}[^{}]*)*\}
  //   depth 3: \{[^{}]*(?:\{[^{}]*(?:\{[^{}]*\}[^{}]*)*\}[^{}]*)*\}
  // Quotes mean nothing to these patterns: a brace inside a JSON string
  // literal counts like any other.
  // ---------------------------------------------------------------------

  /** How a character moves the brace level. */
  function Delta(c: char): int {
    if c == '{' then 1 else if c == '}' then -1 else 0
  }

  /** The brace level reached at index `k` when it was `d` at index `i`. */
  function Level(text: string, i: nat, d: int, k: nat): int
    requires i <= k <= |text|
    decreases k - i
  {
    if k == i then d else Level(text, i, d, k - 1) + Delta(text[k - 1])
  }

  /**
   * `e` (exclusive) closes the block scanned from `i` at level `d`: the
   * level stays within 1..m on every index before `e` and is 0 at `e`.
   */
  predicate IsBlockEnd(text: string, i: nat, d: int, m: nat, e: nat) {
    i < e <= |text| && Level(text, i, d, e) == 0 &&
    forall k :: i <= k < e ==> 1 <= Level(text, i, d, k) <= m
  }

  /**
   * The end of the block whose scan is at index `i` with `d` braces open,
   * when the text closes it before nesting deeper than `m`.
   */
  function BlockEnd(text: string, i: nat, d: nat, m: nat): (r: Option<nat>)
    requires i <= |text|
    ensures r.Some? ==> i < r.value <= |text| && text[r.value - 1] == '}'
    decreases |text| - i
  {
    if i == |text| then None
    else if text[i] == '{' then (if d + 1 > m then None else BlockEnd(text, i + 1, d + 1, m))
    else if text[i] == '}' then (if d <= 1 then Some(i + 1) else BlockEnd(text, i + 1, d - 1, m))
    else BlockEnd(text, i + 1, d, m)
  }

  lemma {:induction false} LevelShift(text: string, i: nat, d: int, k: nat)
    requires i < k <= |text|
    ensures Level(text, i, d, k) == Level(text, i + 1, d + Delta(text[i]), k)
    decreases k - i
  {
    if k > i + 1 {
      LevelShift(text, i, d, k - 1);
    }
  }

  lemma {:induction false} BlockEndSound(text: string, i: nat, d: nat, m: nat)
    requires i <= |text| && 1 <= d <= m
    ensures BlockEnd(text, i, d, m).Some? ==> IsBlockEnd(text, i, d, m, BlockEnd(text, i, d, m).value)
    decreases |text| - i
  {
    if i < |text| && BlockEnd(text, i, d, m).Some? {
      var e := BlockEnd(text, i, d, m).value;
      if text[i] == '}' && d <= 1 {
        assert Level(text, i, d, i + 1) == 0;
      } else {
        var d' := d + Delta(text[i]);
        assert BlockEnd(text, i, d, m) == BlockEnd(text, i + 1, d', m);
        BlockEndSound(text, i + 1, d', m);
        forall k | i <= k < e ensures 1 <= Level(text, i, d, k) <= m {
          if k > i { LevelShift(text, i, d, k); }
        }
        LevelShift(text, i, d, e);
      }
    }
  }

  lemma {:induction false} BlockEndComplete(text: string, i: nat, d: nat, m: nat, e: nat)
    requires i <= |text| && 1 <= d <= m
    requires IsBlockEnd(text, i, d, m, e)
    ensures BlockEnd(text, i, d, m) == Some(e)
    decreases |text| - i
  {
    LevelShift(text, i, d, i + 1);
    if e > i + 1 {
      assert 1 <= Level(text, i, d, i + 1) <= m;
      var d': nat := d + Delta(text[i]);
      var j := i + 1;
      forall k | j <= k < e ensures 1 <= Level(text, j, d', k) <= m {
        LevelShift(text, i, d, k);
      }
      LevelShift(text, i, d, e);
      BlockEndComplete(text, j, d', m, e);
    }
  }

  /**
   * The scan finds exactly the first index where the brace level returns to
   * zero without ever exceeding `m`; when there is none it finds nothing.
   */
  lemma BlockEndIff(text: string, i: nat, d: nat, m: nat, e: nat)
    requires i <= |text| && 1 <= d <= m
    ensures BlockEnd(text, i, d, m) == Some(e) <==> IsBlockEnd(text, i, d, m, e)
  {
    BlockEndSound(text, i, d, m);
    if IsBlockEnd(text, i, d, m, e) {
      BlockEndComplete(text, i, d, m, e);
    }
  }

  /** A match of the depth-`m` pattern spans text[s..e]. */
  predicate BlockAt(text: string, m: nat, s: nat, e: nat) {
    s < |text| && text[s] == '{' && IsBlockEnd(text, s + 1, 1, m, e)
  }

  /** The leftmost start at or after `s` where the depth-`m` pattern matches, with its end. */
  function BlockFrom(text: string, m: nat, s: nat): (r: Option<(nat, nat)>)
    requires s <= |text|
    ensures r.Some? ==> s <= r.value.0 < |text| && text[r.value.0] == '{' &&
                        BlockEnd(text, r.value.0 + 1, 1, m) == Some(r.value.1)
    ensures forall t :: s <= t < |text| && (r.None? || t < r.value.0) && text[t] == '{' ==>
                        BlockEnd(text, t + 1, 1, m).None?
    decreases |text| - s
  {
    if s == |text| then None
    else if text[s] == '{' && BlockEnd(text, s + 1, 1, m).Some? then Some((s, BlockEnd(text, s + 1, 1, m).value))
    else BlockFrom(text, m, s + 1)
  }

  /** `re.search` with the depth-`m` block pattern: the matched text, if any. */
  function LeftmostBlock(text: string, m: nat): (r: Option<string>)
    ensures r.Some? ==> |r.value| >= 2 && r.value[0] == '{' && r.value[|r.value| - 1] == '}'
  {
    match BlockFrom(text, m, 0)
    case None => None
    case Some((s, e)) => Some(text[s..e])
  }

  /**
   * How the chat (depth 2) and visualize (depth 3) parsers decode: the
   * whole reply, else the leftmost block the pattern matches, if that
   * decodes.
   */
  function DecodeOrBlock(decode: string -> Option<Json>, text: string, m: nat): Option<Json> {
    match decode(text)
    case Some(v) => Some(v)
    case None =>
      match LeftmostBlock(text, m)
      case None => None
      case Some(block) => decode(block)
  }

  /**
   * The search reports the leftmost match of the pattern, and reports none
   * exactly when no start matches.
   */
  lemma LeftmostBlockSpec(text: string, m: nat)
    requires 1 <= m
    ensures BlockFrom(text, m, 0).Some? ==>
              var (s, e) := BlockFrom(text, m, 0).value;
              BlockAt(text, m, s, e) && LeftmostBlock(text, m) == Some(text[s..e]) &&
              forall t: nat, f: nat :: t < s ==> !BlockAt(text, m, t, f)
    ensures BlockFrom(text, m, 0).None? ==>
              LeftmostBlock(text, m).None? && forall t: nat, f: nat :: !BlockAt(text, m, t, f)
  {
    var r := BlockFrom(text, m, 0);
    if r.Some? {
      BlockEndIff(text, r.value.0 + 1, 1, m, r.value.1);
    }
    forall t: nat, f: nat | BlockAt(text, m, t, f) ensures r.Some? && r.value.0 <= t {
      BlockEndIff(text, t + 1, 1, m, f);
    }
  }

  /** Allowing deeper nesting never moves the leftmost match to the right. */
  lemma DeeperFindsNoLater(text: string, m: nat, m': nat)
    requires 1 <= m <= m'
    requires BlockFrom(text, m, 0).Some?
    ensures BlockFrom(text, m', 0).Some?
    ensures BlockFrom(text, m', 0).value.0 <= BlockFrom(text, m, 0).value.0
    ensures BlockFrom(text, m', 0).value.0 == BlockFrom(text, m, 0).value.0 ==>
              BlockFrom(text, m', 0) == BlockFrom(text, m, 0)
  {
    var (s, e) := BlockFrom(text, m, 0).value;
    BlockEndIff(text, s + 1, 1, m, e);
    BlockEndIff(text, s + 1, 1, m', e);
  }

  // ---------------------------------------------------------------------
  // Greedy bracket span: \[.*\] with DOTALL.
  // ---------------------------------------------------------------------

  /**
   * The leftmost `[` starts the match and the greedy `.*` backs off to the
   * last `]`; there is a match exactly when some `]` follows the first `[`.
   */
  function BracketSpan(text: string): (r: Option<string>)
    ensures r.Some? <==> exists p, q :: 0 <= p < q < |text| && text[p] == '[' && text[q] == ']'
    ensures r.Some? ==> exists p, q :: 0 <= p < q < |text| && r.value == text[p..q + 1] &&
                          text[p] == '[' && text[q] == ']' &&
                          (forall k :: 0 <= k < p ==> text[k] != '[') &&
                          (forall k :: q < k < |text| ==> text[k] != ']')
  {
    match FirstIndexOf(text, '[')
    case None => None
    case Some(p) =>
      match LastIndexOf(text, ']')
      case None => None
      case Some(q) => if p < q then Some(text[p..q + 1]) else None
  }

  // ---------------------------------------------------------------------
  // Shared pieces of the keyed patterns.
  // ---------------------------------------------------------------------

  /** The index after a run of whitespace starting at `i` (`\s*`). */
  function SkipSpaces(text: string, i: nat): (r: nat)
    requires i <= |text|
    ensures i <= r <= |text|
    ensures forall k :: i <= k < r ==> IsSpace(text[k])
    ensures r == |text| || !IsSpace(text[r])
    decreases |text| - i
  {
    if i < |text| && IsSpace(text[i]) then SkipSpaces(text, i + 1) else i
  }

  /**
   * After the key literal at `s`, `\s*:\s*` and then `c`: the index just past
   * `c` when they are there.
   */
  function KeyThen(text: string, s: nat, key: string, c: char): (r: Option<nat>)
    requires s <= |text|
    ensures r.Some? ==> s + |key| < r.value <= |text| && text[r.value - 1] == c
  {
    if StartsWith(text[s..], key) then
      var j := SkipSpaces(text, s + |key|);
      if j < |text| && text[j] == ':' then
        var k := SkipSpaces(text, j + 1);
        if k < |text| && text[k] == c then Some(k + 1) else None
      else None
    else None
  }

  // ---------------------------------------------------------------------
  // The insights marker: "insights"\s*:\s*\[
  // ---------------------------------------------------------------------

  const InsightsKey := "\"insights\""

  /**
   * The leftmost start at or after `s` where the marker matches, with the
   * index just past its `[`.
   */
  function MarkerFrom(text: string, s: nat): (r: Option<(nat, nat)>)
    requires s <= |text|
    ensures r.Some? ==> s <= r.value.0 <= |text| && KeyThen(text, r.value.0, InsightsKey, '[') == Some(r.value.1)
    ensures forall t :: s <= t <= |text| && (r.None? || t < r.value.0) ==> KeyThen(text, t, InsightsKey, '[').None?
    decreases |text| - s
  {
    match KeyThen(text, s, InsightsKey, '[')
    case Some(p) => Some((s, p))
    case None => if s == |text| then None else MarkerFrom(text, s + 1)
  }

  /**
   * `re.search(r'"insights"\s*:\s*\[', text).end()`, if it matches: the end
   * of the match at the leftmost start, and nothing when no start matches.
   */
  function InsightsMarker(text: string): (r: Option<nat>)
    ensures r.Some? ==> 0 < r.value <= |text| && text[r.value - 1] == '['
    ensures r.Some? ==> exists s :: 0 <= s <= |text| && KeyThen(text, s, InsightsKey, '[') == r &&
                          forall t :: 0 <= t < s ==> KeyThen(text, t, InsightsKey, '[').None?
    ensures r.None? ==> forall t :: 0 <= t <= |text| ==> KeyThen(text, t, InsightsKey, '[').None?
  {
    match MarkerFrom(text, 0)
    case None => None
    case Some((_, p)) => Some(p)
  }

  /**
   * A key literal, optional whitespace, a colon, optional whitespace and the
   * character `c` at the very start of the text match in full.
   */
  lemma KeyThenAtStart(text: string, key: string, sp1: string, sp2: string, c: char)
    requires StartsWith(text, key + sp1 + ":" + sp2 + [c])
    requires AllSpace(sp1) && AllSpace(sp2) && !IsSpace(c)
    ensures KeyThen(text, 0, key, c) == Some(|key| + |sp1| + 1 + |sp2| + 1)
  {
    var head := key + sp1 + ":" + sp2 + [c];
    var j := |key| + |sp1|;
    assert text[..|head|] == head;
    assert text[0..][..|key|] == key;
    assert text[|key|..j] == sp1;
    SkipOver(text, |key|, sp1);
    assert text[j] == ':';
    assert text[j + 1..j + 1 + |sp2|] == sp2;
    SkipOver(text, j + 1, sp2);
    assert text[j + 1 + |sp2|] == c;
  }

  /** `\s*` scans the same run in a suffix of the text. */
  lemma {:induction false} SkipSpacesShift(text: string, s: nat, i: nat)
    requires s + i <= |text|
    ensures SkipSpaces(text[s..], i) + s == SkipSpaces(text, s + i)
    decreases |text| - s - i
  {
    if s + i < |text| {
      assert text[s..][i] == text[s + i];
      if IsSpace(text[s + i]) {
        SkipSpacesShift(text, s, i + 1);
      }
    }
  }

  /** A keyed match at the start of a suffix is a match at the suffix's index. */
  lemma KeyThenShift(text: string, s: nat, key: string, c: char)
    requires s <= |text| && KeyThen(text[s..], 0, key, c).Some?
    ensures KeyThen(text, s, key, c) == Some(s + KeyThen(text[s..], 0, key, c).value)
  {
    var t := text[s..];
    var j := SkipSpaces(t, |key|);
    var k := SkipSpaces(t, j + 1);
    assert StartsWith(t, key) && j < |t| && t[j] == ':' && k < |t| && t[k] == c &&
           KeyThen(t, 0, key, c) == Some(k + 1) by {
      assert t[0..] == t;
    }
    assert SkipSpaces(text, s + |key|) == s + j by {
      SkipSpacesShift(text, s, |key|);
    }
    assert SkipSpaces(text, s + j + 1) == s + k by {
      SkipSpacesShift(text, s, j + 1);
    }
    assert text[s + j] == ':' && text[s + k] == c;
  }

  /**
   * A key literal, optional whitespace, a colon, optional whitespace and the
   * character `c` at index `s` match in full.
   */
  lemma KeyThenAt(text: string, s: nat, key: string, sp1: string, sp2: string, c: char)
    requires s <= |text| && StartsWith(text[s..], key + sp1 + ":" + sp2 + [c])
    requires AllSpace(sp1) && AllSpace(sp2) && !IsSpace(c)
    ensures KeyThen(text, s, key, c) == Some(s + |key| + |sp1| + 1 + |sp2| + 1)
  {
    KeyThenAtStart(text[s..], key, sp1, sp2, c);
    KeyThenShift(text, s, key, c);
  }

  /** A reply that opens with the marker, with any spacing around the colon, is matched at once. */
  lemma MarkerAtStart(text: string, sp1: string, sp2: string)
    requires StartsWith(text, InsightsKey + sp1 + ":" + sp2 + "[")
    requires AllSpace(sp1) && AllSpace(sp2)
    ensures InsightsMarker(text) == Some(|InsightsKey| + |sp1| + 1 + |sp2| + 1)
  {
    KeyThenAtStart(text, InsightsKey, sp1, sp2, '[');
  }

  // ---------------------------------------------------------------------
  // Matches that end inside a text survive anything appended to it.
  // ---------------------------------------------------------------------

  /** `\s*` that stops inside `a`, scanned in `a` or in `a + b`, stops at the same index in both. */
  lemma SkipSpacesExtend(a: string, b: string, i: nat)
    requires i <= |a| && (SkipSpaces(a, i) < |a| || SkipSpaces(a + b, i) < |a|)
    ensures SkipSpaces(a + b, i) == SkipSpaces(a, i)
  {
    var r, r' := SkipSpaces(a, i), SkipSpaces(a + b, i);
    if r < |a| {
      assert (a + b)[r] == a[r];
    }
    if r' < |a| {
      assert (a + b)[r'] == a[r'];
    }
  }

  /** A keyed match that ends inside `a` is found unchanged in `a + b`. */
  lemma KeyThenExtend(a: string, b: string, s: nat, key: string, c: char)
    requires s <= |a| && KeyThen(a, s, key, c).Some?
    ensures KeyThen(a + b, s, key, c) == KeyThen(a, s, key, c)
  {
    var text := a + b;
    assert text[s..][..|key|] == a[s..][..|key|];
    var j := SkipSpaces(a, s + |key|);
    SkipSpacesExtend(a, b, s + |key|);
    var k := SkipSpaces(a, j + 1);
    SkipSpacesExtend(a, b, j + 1);
    assert text[j] == a[j] && text[k] == a[k];
  }

  /** A keyed match in `a + b` that ends inside `a` is a match in `a`. */
  lemma KeyThenRestrict(a: string, b: string, s: nat, key: string, c: char)
    requires s <= |a| && KeyThen(a + b, s, key, c).Some? && KeyThen(a + b, s, key, c).value <= |a|
    ensures KeyThen(a, s, key, c) == KeyThen(a + b, s, key, c)
  {
    var text := a + b;
    assert text[s..][..|key|] == a[s..][..|key|];
    var j := SkipSpaces(text, s + |key|);
    SkipSpacesExtend(a, b, s + |key|);
    var k := SkipSpaces(text, j + 1);
    SkipSpacesExtend(a, b, j + 1);
    assert text[j] == a[j] && text[k] == a[k];
  }

  /** The insights key opens with a quote and an `i`. */
  lemma MarkerOpens(text: string, s: nat)
    requires s <= |text| && KeyThen(text, s, InsightsKey, '[').Some?
    ensures s + 1 < |text| && text[s] == '"' && text[s + 1] == 'i'
  {
    assert text[s..][..|InsightsKey|] == InsightsKey;
    assert text[s..][..|InsightsKey|][0] == text[s];
    assert text[s..][..|InsightsKey|][1] == text[s + 1];
  }

  /**
   * The insights marker cannot run across a later `"i`: the key's letters
   * hold no quote, and neither whitespace nor the colon is one.
   */
  lemma MarkerStopsBefore(text: string, t: nat, s: nat)
    requires t < s && s + 1 < |text| && text[s] == '"' && text[s + 1] == 'i'
    requires KeyThen(text, t, InsightsKey, '[').Some?
    ensures KeyThen(text, t, InsightsKey, '[').value <= s
  {
    var n := |InsightsKey|;
    assert text[t..][..n] == InsightsKey;
    if s < t + n {
      assert false;
    } else {
      var j := SkipSpaces(text, t + n);
      assert j <= s;
      var k := SkipSpaces(text, j + 1);
      assert k <= s;
    }
  }

  /**
   * When a marker match starts at `s` in `a`, an attempt at an earlier `t`
   * that fails in `a` fails in `a + b` too: it could only succeed by ending
   * before `s`, that is inside `a`.
   */
  lemma MarkerMissExtends(a: string, b: string, t: nat, s: nat)
    requires t < s <= |a|
    requires KeyThen(a, s, InsightsKey, '[').Some? && KeyThen(a, t, InsightsKey, '[').None?
    ensures KeyThen(a + b, t, InsightsKey, '[').None?
  {
    MarkerOpens(a, s);
    if KeyThen(a + b, t, InsightsKey, '[').Some? {
      assert (a + b)[s] == a[s] && (a + b)[s + 1] == a[s + 1];
      MarkerStopsBefore(a + b, t, s);
      KeyThenRestrict(a, b, t, InsightsKey, '[');
      assert false;
    }
  }

  /** The leftmost marker at or after `s` in `a` is the leftmost one in `a + b`. */
  lemma {:induction false} MarkerFromExtend(a: string, b: string, s: nat)
    requires s <= |a| && MarkerFrom(a, s).Some?
    ensures MarkerFrom(a + b, s) == MarkerFrom(a, s)
    decreases |a| - s
  {
    if KeyThen(a, s, InsightsKey, '[').Some? {
      KeyThenExtend(a, b, s, InsightsKey, '[');
    } else {
      MarkerMissExtends(a, b, s, MarkerFrom(a, s).value.0);
      MarkerFromExtend(a, b, s + 1);
    }
  }

  /** A marker complete in a reply is found, at the same index, whatever is appended to it. */
  lemma MarkerExtends(a: string, b: string)
    requires InsightsMarker(a).Some?
    ensures InsightsMarker(a + b) == InsightsMarker(a)
  {
    MarkerFromExtend(a, b, 0);
  }

  /** `\s*` at `i` consumes exactly a whitespace run that ends before a non-space. */
  lemma {:induction false} SkipOver(text: string, i: nat, sp: string)
    requires i + |sp| < |text| && text[i..i + |sp|] == sp
    requires AllSpace(sp) && !IsSpace(text[i + |sp|])
    ensures SkipSpaces(text, i) == i + |sp|
    decreases |sp|
  {
    if sp != [] {
      assert text[i] == sp[0];
      assert text[i + 1..i + |sp|] == sp[1..];
      SkipOver(text, i + 1, sp[1..]);
    }
  }

  // ---------------------------------------------------------------------
  // The summary literal: "summary"\s*:\s*"((?:[^"\\]|\\.)*)"
  // ---------------------------------------------------------------------

  const SummaryKey := "\"summary\""

  /**
   * The body of a JSON string literal as the pattern reads it: characters
   * other than a quote or a backslash, or a backslash followed by any
   * character but a newline. Escapes are kept as written.
   */
  predicate IsStringBody(b: string)
    decreases |b|
  {
    b == [] ||
    (b[0] != '"' && b[0] != '\\' && IsStringBody(b[1..])) ||
    (b[0] == '\\' && |b| >= 2 && b[1] != '\n' && IsStringBody(b[2..]))
  }

  /**
   * The index of the quote closing the string body that starts at `i`. The
   * repetition cannot stop on a quote that an escape consumed, so the first
   * unescaped quote closes the literal; a backslash before a newline or the
   * end of the text means no match.
   */
  function BodyEnd(text: string, i: nat): (r: Option<nat>)
    requires i <= |text|
    ensures r.Some? ==> i <= r.value < |text| && text[r.value] == '"' && IsStringBody(text[i..r.value])
    decreases |text| - i
  {
    if i == |text| then None
    else if text[i] == '"' then Some(i)
    else if text[i] == '\\' then
      if i + 1 < |text| && text[i + 1] != '\n' then
        var r := BodyEnd(text, i + 2);
        assert r.Some? ==> text[i..r.value][2..] == text[i + 2..r.value];
        r
      else None
    else
      var r := BodyEnd(text, i + 1);
      assert r.Some? ==> text[i..r.value][1..] == text[i + 1..r.value];
      r
  }

  /** The captured body when the summary pattern matches at `s`. */
  function SummaryAt(text: string, s: nat): (r: Option<string>)
    requires s <= |text|
    ensures r.Some? ==> IsStringBody(r.value)
  {
    match KeyThen(text, s, SummaryKey, '"')
    case None => None
    case Some(k) =>
      match BodyEnd(text, k)
      case None => None
      case Some(e) => Some(text[k..e])
  }

  /** The capture of the leftmost summary match at or after `s`. */
  function SummaryFrom(text: string, s: nat): (r: Option<string>)
    requires s <= |text|
    ensures r.Some? ==> exists t :: s <= t <= |text| && SummaryAt(text, t) == r
    ensures r.None? ==> forall t :: s <= t <= |text| ==> SummaryAt(text, t).None?
    decreases |text| - s
  {
    match SummaryAt(text, s)
    case Some(b) => Some(b)
    case None => if s == |text| then None else SummaryFrom(text, s + 1)
  }

  /**
   * The summary text recovered from a reply that may have been cut short:
   * the leftmost match's capture (SummaryLeftmost), else the default.
   */
  function ExtractSummary(text: string): (r: string)
    ensures IsStringBody(r)
    ensures (forall t :: 0 <= t <= |text| ==> SummaryAt(text, t).None?) ==> r == Default
  {
    match SummaryFrom(text, 0)
    case Some(b) => b
    case None => PlainIsBody(Default); Default
  }

  const Default := "Analysis complete."

  lemma {:induction false} PlainIsBody(b: string)
    requires forall k :: 0 <= k < |b| ==> b[k] != '"' && b[k] != '\\'
    ensures IsStringBody(b)
    decreases |b|
  {
    if b != [] {
      assert forall k :: 0 <= k < |b[1..]| ==> b[1..][k] == b[k + 1];
      PlainIsBody(b[1..]);
    }
  }

  /** A string body followed by a quote is scanned to exactly that quote. */
  lemma {:induction false} BodyEndOf(text: string, i: nat, b: string)
    requires IsStringBody(b)
    requires i + |b| < |text| && text[i..i + |b|] == b && text[i + |b|] == '"'
    ensures BodyEnd(text, i) == Some(i + |b|)
    decreases |b|
  {
    if b != [] {
      assert text[i] == b[0];
      if b[0] == '\\' {
        assert text[i + 1] == b[1];
        assert text[i + 2..i + |b|] == b[2..];
        BodyEndOf(text, i + 2, b[2..]);
      } else {
        assert text[i + 1..i + |b|] == b[1..];
        BodyEndOf(text, i + 1, b[1..]);
      }
    }
  }

  /** A start where the pattern does not match passes the search on to the next one. */
  lemma SummaryFromSkip(text: string, s: nat)
    requires s < |text| && SummaryAt(text, s).None?
    ensures SummaryFrom(text, s) == SummaryFrom(text, s + 1)
  {
  }

  /** A start where the pattern matches ends the search there. */
  lemma SummaryFromHit(text: string, s: nat)
    requires s <= |text| && SummaryAt(text, s).Some?
    ensures SummaryFrom(text, s) == SummaryAt(text, s)
  {
  }

  /** No start in `[s, t)` matches the summary pattern. */
  predicate NoSummaryBetween(text: string, s: nat, t: nat)
    requires s <= t <= |text|
    decreases t - s
  {
    s == t || (SummaryAt(text, s).None? && NoSummaryBetween(text, s + 1, t))
  }

  lemma {:induction false} NoSummaryBetweenFrom(text: string, s: nat, t: nat)
    requires s <= t <= |text|
    requires forall u :: s <= u < t ==> SummaryAt(text, u).None?
    ensures NoSummaryBetween(text, s, t)
    decreases t - s
  {
    if s < t {
      NoSummaryBetweenFrom(text, s + 1, t);
    }
  }

  /** The search from `s` stops at the first start where the pattern matches. */
  lemma {:induction false} SummaryFromLeftmost(text: string, s: nat, t: nat)
    requires s <= t <= |text| && SummaryAt(text, t).Some?
    requires NoSummaryBetween(text, s, t)
    ensures SummaryFrom(text, s) == SummaryAt(text, t)
    decreases t - s
  {
    if s < t {
      SummaryFromSkip(text, s);
      SummaryFromLeftmost(text, s + 1, t);
    } else {
      SummaryFromHit(text, s);
    }
  }

  /** The capture of the leftmost start where the pattern matches is the one extracted. */
  lemma SummaryLeftmost(text: string, t: nat)
    requires t <= |text| && SummaryAt(text, t).Some?
    requires forall u :: 0 <= u < t ==> SummaryAt(text, u).None?
    ensures ExtractSummary(text) == SummaryAt(text, t).value
  {
    NoSummaryBetweenFrom(text, 0, t);
    SummaryFromLeftmost(text, 0, t);
  }

  /** The summary found at the very start of the text is the one extracted. */
  lemma SummaryFirst(text: string, k: nat, e: nat)
    requires KeyThen(text, 0, SummaryKey, '"') == Some(k)
    requires BodyEnd(text, k) == Some(e)
    ensures ExtractSummary(text) == text[k..e]
  {
  }

  /** The key, spacing and colon of a summary literal at index `t` are matched up to its opening quote. */
  lemma SummaryLiteralKey(text: string, t: nat, sp1: string, sp2: string, body: string)
    requires t <= |text| && StartsWith(text[t..], SummaryKey + sp1 + ":" + sp2 + "\"" + body + "\"")
    requires AllSpace(sp1) && AllSpace(sp2)
    ensures KeyThen(text, t, SummaryKey, '"') == Some(t + |SummaryKey + sp1 + ":" + sp2 + "\""|)
  {
    var lit := SummaryKey + sp1 + ":" + sp2 + "\"";
    StartsWithSplit(text[t..], lit + body, "\"");
    StartsWithSplit(text[t..], lit, body);
    KeyThenAt(text, t, SummaryKey, sp1, sp2, '"');
  }

  /** The body of a summary literal at index `t` sits between its quotes. */
  lemma SummaryLiteralBody(text: string, t: nat, lit: string, body: string)
    requires t <= |text| && StartsWith(text[t..], lit + body + "\"")
    ensures t + |lit| + |body| < |text|
    ensures text[t + |lit|..t + |lit| + |body|] == body && text[t + |lit| + |body|] == '"'
  {
    var k := t + |lit|;
    StartsWithSplit(text[t..], lit + body, "\"");
    StartsWithSplit(text[t..], lit, body);
    assert text[t..][|lit|..][..|body|] == text[k..k + |body|];
    assert text[t..][|lit + body|..][0] == text[k + |body|];
  }

  /** The key matched up to index `k`, then a string body and a quote: the pattern captures that body. */
  lemma SummaryAtParts(text: string, t: nat, k: nat, body: string)
    requires t <= |text| && KeyThen(text, t, SummaryKey, '"') == Some(k)
    requires k + |body| < |text| && text[k..k + |body|] == body && text[k + |body|] == '"'
    requires IsStringBody(body)
    ensures SummaryAt(text, t) == Some(body)
  {
    BodyEndOf(text, k, body);
  }

  /** A summary literal at index `t` is matched there and captures its body. */
  lemma SummaryAtLiteral(text: string, t: nat, sp1: string, sp2: string, body: string)
    requires t <= |text| && StartsWith(text[t..], SummaryKey + sp1 + ":" + sp2 + "\"" + body + "\"")
    requires AllSpace(sp1) && AllSpace(sp2) && IsStringBody(body)
    ensures SummaryAt(text, t) == Some(body)
  {
    var lit := SummaryKey + sp1 + ":" + sp2 + "\"";
    SummaryLiteralKey(text, t, sp1, sp2, body);
    SummaryLiteralBody(text, t, lit, body);
    SummaryAtParts(text, t, t + |lit|, body);
  }

  /** No summary match starts inside a prefix that holds no `"summary"` key of its own. */
  lemma NoSummaryInPrefix(text: string, prefix: string)
    requires StartsWith(text, prefix + SummaryKey)
    requires forall u :: 0 <= u < |prefix| ==> !StartsWith((prefix + SummaryKey)[u..], SummaryKey)
    ensures forall u :: 0 <= u < |prefix| ==> SummaryAt(text, u).None?
  {
    var n := |SummaryKey|;
    forall u | 0 <= u < |prefix| ensures SummaryAt(text, u).None? {
      assert text[u..][..n] == (prefix + SummaryKey)[u..][..n] by {
        assert text[..|prefix| + n] == prefix + SummaryKey;
      }
    }
  }

  /**
   * A reply whose summary literal follows a prefix that holds no `"summary"`
   * key of its own (the `{` of an object, say) gives back the literal's body
   * as written, whatever follows it (a truncated remainder included).
   */
  lemma SummaryRoundTrip(text: string, prefix: string, sp1: string, sp2: string, body: string)
    requires StartsWith(text, prefix + (SummaryKey + sp1 + ":" + sp2 + "\"" + body + "\""))
    requires AllSpace(sp1) && AllSpace(sp2) && IsStringBody(body)
    requires forall u :: 0 <= u < |prefix| ==> !StartsWith((prefix + SummaryKey)[u..], SummaryKey)
    ensures ExtractSummary(text) == body
  {
    var lit := SummaryKey + sp1 + ":" + sp2 + "\"" + body + "\"";
    StartsWithSplit(text, prefix, lit);
    SummaryAtLiteral(text, |prefix|, sp1, sp2, body);
    assert StartsWith(text, prefix + SummaryKey) by {
      StartsWithSplit(text[|prefix|..], SummaryKey, lit[|SummaryKey|..]);
      assert text[..|prefix| + |SummaryKey|] == text[..|prefix|] + text[|prefix|..][..|SummaryKey|];
    }
    NoSummaryInPrefix(text, prefix);
    SummaryLeftmost(text, |prefix|);
  }
}
