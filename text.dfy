/**
 * The string primitives the parsers lean on: Python's `strip`, `split("\n")`,
 * `"sep".join`, `split()` on whitespace runs, `lower`, `in` on strings and
 * `str` of a natural number. Whitespace and case are ASCII.
 */
module Text {
  import opened Wrappers

  /**
   * Python's whitespace, restricted to ASCII: space, \t, \n, \r, \v, \f and
   * the four separators U+001C to U+001F, all of which `str.isspace`,
   * `strip`, `split()` and the `\s` of a str pattern treat as whitespace.
   */
  predicate IsSpace(c: char) {
    c == ' ' || c == '\t' || c == '\n' || c == '\r' || c == '\U{0B}' || c == '\U{0C}' ||
    ('\U{1C}' <= c <= '\U{1F}')
  }

  predicate NoSpace(s: string) {
    forall k :: 0 <= k < |s| ==> !IsSpace(s[k])
  }

  predicate AllSpace(s: string) {
    forall k :: 0 <= k < |s| ==> IsSpace(s[k])
  }

  /** No whitespace at either end: what `strip()` returns. */
  predicate IsStripped(s: string) {
    s == [] || (!IsSpace(s[0]) && !IsSpace(s[|s| - 1]))
  }

  function TrimLeft(s: string): (r: string)
    ensures |r| <= |s| && r == s[|s| - |r|..]
    ensures AllSpace(s[..|s| - |r|])
    ensures r == [] || !IsSpace(r[0])
  {
    if s != [] && IsSpace(s[0]) then TrimLeft(s[1..]) else s
  }

  function TrimRight(s: string): (r: string)
    ensures |r| <= |s| && r == s[..|r|]
    ensures AllSpace(s[|r|..])
    ensures r == [] || !IsSpace(r[|r| - 1])
  {
    if s != [] && IsSpace(s[|s| - 1]) then TrimRight(s[..|s| - 1]) else s
  }

  /** `s.strip()` */
  function Strip(s: string): (r: string)
    ensures IsStripped(r)
    ensures IsStripped(s) ==> r == s
  {
    TrimRight(TrimLeft(s))
  }

  /** `s.strip() == ""` */
  predicate IsBlank(s: string) {
    Strip(s) == []
  }

  lemma {:induction false} TrimLeftEmpty(s: string)
    ensures TrimLeft(s) == [] <==> AllSpace(s)
    decreases |s|
  {
    if s != [] {
      TrimLeftEmpty(s[1..]);
      assert AllSpace(s) <==> IsSpace(s[0]) && AllSpace(s[1..]) by {
        assert forall k :: 1 <= k < |s| ==> s[k] == s[1..][k - 1];
      }
    }
  }

  lemma BlankIsAllSpace(s: string)
    ensures IsBlank(s) <==> AllSpace(s)
  {
    var l := TrimLeft(s);
    TrimLeftEmpty(s);
    assert l[0..] == l;
  }

  predicate StartsWith(s: string, prefix: string) {
    |prefix| <= |s| && s[..|prefix|] == prefix
  }

  /** `needle in hay` for strings. */
  predicate Contains(hay: string, needle: string)
    decreases |hay|
  {
    StartsWith(hay, needle) || (hay != [] && Contains(hay[1..], needle))
  }

  /** A string starts with any of its prefixes. */
  lemma StartsWithAppend(a: string, b: string)
    ensures StartsWith(a + b, a)
  {
    assert (a + b)[..|a|] == a;
  }

  /** A text that starts with `p + q` has `q` right after `p`. */
  lemma StartsWithSplit(s: string, p: string, q: string)
    requires StartsWith(s, p + q)
    ensures StartsWith(s, p) && StartsWith(s[|p|..], q)
  {
    assert s[..|p|] == (p + q)[..|p|];
    assert s[|p|..][..|q|] == (p + q)[|p|..];
  }

  lemma StartsWithTrans(s: string, p: string, q: string)
    requires StartsWith(s, p) && StartsWith(p, q)
    ensures StartsWith(s, q)
  {
    assert s[..|q|] == s[..|p|][..|q|];
  }

  lemma {:induction false} ContainsMiddle(a: string, b: string, c: string)
    ensures Contains(a + b + c, b)
    decreases |a|
  {
    if a == [] {
      assert (a + b + c)[..|b|] == b;
    } else {
      assert (a + b + c)[1..] == a[1..] + b + c;
      ContainsMiddle(a[1..], b, c);
    }
  }

  /** What a string contains, it still contains with text put before it. */
  lemma {:induction false} ContainsAfter(a: string, b: string, needle: string)
    requires Contains(b, needle)
    ensures Contains(a + b, needle)
    decreases |a|
  {
    if a == [] {
      assert a + b == b;
    } else {
      assert (a + b)[1..] == a[1..] + b;
      ContainsAfter(a[1..], b, needle);
    }
  }

  /** What a string contains, it still contains with text put after it. */
  lemma {:induction false} ContainsBefore(a: string, b: string, needle: string)
    requires Contains(a, needle)
    ensures Contains(a + b, needle)
    decreases |a|
  {
    if StartsWith(a, needle) {
      assert (a + b)[..|needle|] == a[..|needle|];
    } else {
      assert (a + b)[1..] == a[1..] + b;
      ContainsBefore(a[1..], b, needle);
    }
  }

  /** A string contains what any part of it contains. */
  lemma ContainsWithin(a: string, b: string, c: string, needle: string)
    requires Contains(b, needle)
    ensures Contains(a + b + c, needle)
  {
    ContainsBefore(b, c, needle);
    ContainsAfter(a, b + c, needle);
    assert a + b + c == a + (b + c);
  }

  /** `s.split(sep)` for a one-character separator: always at least one piece. */
  function Split(s: string, sep: char): (r: seq<string>)
    ensures |r| >= 1
    decreases |s|
  {
    if s == [] then [""]
    else
      var rest := Split(s[1..], sep);
      if s[0] == sep then [""] + rest
      else [[s[0]] + rest[0]] + rest[1..]
  }

  /** `sep.join(parts)` */
  function Join(parts: seq<string>, sep: string): string
    decreases |parts|
  {
    if parts == [] then ""
    else if |parts| == 1 then parts[0]
    else parts[0] + sep + Join(parts[1..], sep)
  }

  /** The parts one after another, as `+=` in a loop builds them. */
  function Concat(parts: seq<string>): string
    decreases |parts|
  {
    if parts == [] then "" else Concat(parts[..|parts| - 1]) + parts[|parts| - 1]
  }

  lemma {:induction false} ConcatAppend(a: seq<string>, b: seq<string>)
    ensures Concat(a + b) == Concat(a) + Concat(b)
    decreases |b|
  {
    if b == [] {
      assert a + b == a;
    } else {
      var n := |b| - 1;
      var ab := a + b;
      assert ab[..|ab| - 1] == a + b[..n];
      assert ab[|ab| - 1] == b[n];
      ConcatAppend(a, b[..n]);
    }
  }

  lemma JoinCons(p: string, parts: seq<string>, sep: string)
    requires parts != []
    ensures Join([p] + parts, sep) == p + sep + Join(parts, sep)
  {
    assert ([p] + parts)[1..] == parts;
  }

  lemma JoinStartsWith(parts: seq<string>, sep: string)
    requires parts != []
    ensures StartsWith(Join(parts, sep), parts[0])
  {
    if |parts| > 1 {
      JoinCons(parts[0], parts[1..], sep);
      assert [parts[0]] + parts[1..] == parts;
      assert (parts[0] + sep + Join(parts[1..], sep))[..|parts[0]|] == parts[0];
    }
  }

  /** Every part appears in the joined string. */
  lemma {:induction false} JoinContains(parts: seq<string>, sep: string, k: nat)
    requires k < |parts|
    ensures Contains(Join(parts, sep), parts[k])
    decreases k
  {
    if k == 0 {
      JoinStartsWith(parts, sep);
    } else {
      JoinContains(parts[1..], sep, k - 1);
      ContainsAfter(parts[0] + sep, Join(parts[1..], sep), parts[k]);
    }
  }

  /** Joining the pieces of a split puts the separators back: `sep.join(s.split(sep)) == s`. */
  lemma {:induction false} JoinSplit(s: string, sep: char)
    ensures Join(Split(s, sep), [sep]) == s
    decreases |s|
  {
    if s != [] {
      var rest := Split(s[1..], sep);
      JoinSplit(s[1..], sep);
      if s[0] == sep {
        JoinCons("", rest, [sep]);
        assert s == [sep] + s[1..];
      } else {
        var r := [[s[0]] + rest[0]] + rest[1..];
        if |rest| == 1 {
          assert Join(r, [sep]) == [s[0]] + rest[0];
        } else {
          JoinCons([s[0]] + rest[0], rest[1..], [sep]);
          JoinCons(rest[0], rest[1..], [sep]);
          assert rest == [rest[0]] + rest[1..];
        }
        assert s == [s[0]] + s[1..];
      }
    }
  }

  /** Splitting distributes over a separator: the pieces of `a`, then those of `b`. */
  lemma {:induction false} SplitConcat(a: string, b: string, sep: char)
    ensures Split(a + [sep] + b, sep) == Split(a, sep) + Split(b, sep)
    decreases |a|
  {
    var s := a + [sep] + b;
    if a == [] {
      assert s[1..] == b;
    } else {
      assert s[1..] == a[1..] + [sep] + b;
      SplitConcat(a[1..], b, sep);
    }
  }

  lemma {:induction false} SplitNoSep(w: string, sep: char)
    requires sep !in w
    ensures Split(w, sep) == [w]
    decreases |w|
  {
    if w != [] {
      SplitNoSep(w[1..], sep);
      assert w == [w[0]] + w[1..];
    }
  }

  /** Lines without the separator are recovered from their join: `sep.join(ls).split(sep) == ls`. */
  lemma {:induction false} SplitJoin(parts: seq<string>, sep: char)
    requires parts != []
    requires forall i :: 0 <= i < |parts| ==> sep !in parts[i]
    ensures Split(Join(parts, [sep]), sep) == parts
    decreases |parts|
  {
    if |parts| == 1 {
      SplitNoSep(parts[0], sep);
    } else {
      JoinCons(parts[0], parts[1..], [sep]);
      assert [parts[0]] + parts[1..] == parts;
      SplitConcat(parts[0], Join(parts[1..], [sep]), sep);
      SplitNoSep(parts[0], sep);
      SplitJoin(parts[1..], sep);
    }
  }

  /** The longest prefix without whitespace. */
  function TakeWord(s: string): (w: string)
    ensures |w| <= |s| && w == s[..|w|] && NoSpace(w)
    ensures |w| == |s| || IsSpace(s[|w|])
  {
    if s == [] || IsSpace(s[0]) then [] else [s[0]] + TakeWord(s[1..])
  }

  /** `s.split()`: the maximal runs of non-whitespace characters, in order. */
  function Words(s: string): (ws: seq<string>)
    decreases |s|
  {
    var t := TrimLeft(s);
    if t == [] then []
    else
      var w := TakeWord(t);
      [w] + Words(t[|w|..])
  }

  /** Words suitable for `" ".join` to be undone by `split()`. */
  predicate ProperWords(ws: seq<string>) {
    forall i :: 0 <= i < |ws| ==> ws[i] != [] && NoSpace(ws[i])
  }

  lemma {:induction false} TakeWordOf(w: string, x: string)
    requires NoSpace(w)
    requires x == [] || IsSpace(x[0])
    ensures TakeWord(w + x) == w
    decreases |w|
  {
    if w != [] {
      assert (w + x)[1..] == w[1..] + x;
      TakeWordOf(w[1..], x);
      assert w == [w[0]] + w[1..];
    } else {
      assert w + x == x;
    }
  }

  /** A leading word followed by whitespace (or nothing) is the first of the words. */
  lemma WordsCons(w: string, rest: string)
    requires w != [] && NoSpace(w)
    requires rest == [] || IsSpace(rest[0])
    ensures Words(w + rest) == [w] + Words(rest)
  {
    var s := w + rest;
    assert TrimLeft(s) == s;
    TakeWordOf(w, rest);
    assert s[|w|..] == rest;
  }

  lemma WordsSpace(j: string)
    ensures Words(" " + j) == Words(j)
  {
    assert (" " + j)[1..] == j;
    assert TrimLeft(" " + j) == TrimLeft(j);
  }

  lemma WordsJoinStep(w: string, rest: seq<string>)
    requires w != [] && NoSpace(w) && rest != []
    ensures Words(Join([w] + rest, " ")) == [w] + Words(Join(rest, " "))
  {
    var j := Join(rest, " ");
    calc {
      Words(Join([w] + rest, " "));
      { JoinCons(w, rest, " "); }
      Words(w + " " + j);
      { assert w + " " + j == w + (" " + j); }
      Words(w + (" " + j));
      { WordsCons(w, " " + j); }
      [w] + Words(" " + j);
      { WordsSpace(j); }
      [w] + Words(j);
    }
  }

  /** `" ".join(ws).split() == ws` for proper words. */
  lemma {:induction false} WordsJoin(ws: seq<string>)
    requires ProperWords(ws)
    ensures Words(Join(ws, " ")) == ws
    decreases |ws|
  {
    if |ws| == 1 {
      calc {
        Words(Join(ws, " "));
        Words(ws[0]);
        { assert ws[0] + [] == ws[0]; }
        Words(ws[0] + []);
        { WordsCons(ws[0], []); }
        [ws[0]] + Words([]);
        ws;
      }
    } else if |ws| > 1 {
      calc {
        Words(Join(ws, " "));
        { assert [ws[0]] + ws[1..] == ws; }
        Words(Join([ws[0]] + ws[1..], " "));
        { WordsJoinStep(ws[0], ws[1..]); }
        [ws[0]] + Words(Join(ws[1..], " "));
        { WordsJoin(ws[1..]); }
        [ws[0]] + ws[1..];
        ws;
      }
    }
  }

  /** ASCII `lower()` of one character. */
  function LowerChar(c: char): char {
    if 'A' <= c <= 'Z' then (c as int + 32) as char else c
  }

  /** `s.lower()` */
  function Lower(s: string): (r: string)
    ensures |r| == |s|
    ensures forall k :: 0 <= k < |s| ==> r[k] == LowerChar(s[k])
  {
    seq(|s|, k requires 0 <= k < |s| => LowerChar(s[k]))
  }

  predicate IsLowered(s: string) {
    forall k :: 0 <= k < |s| ==> LowerChar(s[k]) == s[k]
  }

  lemma {:induction false} WordsAreProper(s: string)
    ensures ProperWords(Words(s))
    decreases |s|
  {
    var t := TrimLeft(s);
    if t != [] {
      var w := TakeWord(t);
      var rest := Words(t[|w|..]);
      WordsAreProper(t[|w|..]);
      assert Words(s) == [w] + rest;
      forall i | 0 <= i < |Words(s)| ensures Words(s)[i] != [] && NoSpace(Words(s)[i]) {
        if i > 0 {
          assert Words(s)[i] == rest[i - 1];
        }
      }
    }
  }

  lemma LoweredSlice(s: string, i: nat, j: nat)
    requires IsLowered(s) && i <= j <= |s|
    ensures IsLowered(s[i..j])
  {
    assert forall k :: 0 <= k < j - i ==> s[i..j][k] == s[i + k];
  }

  lemma {:induction false} WordsKeepLowered(s: string)
    requires IsLowered(s)
    ensures forall i :: 0 <= i < |Words(s)| ==> IsLowered(Words(s)[i])
    decreases |s|
  {
    var t := TrimLeft(s);
    if t != [] {
      var w := TakeWord(t);
      var u := t[|w|..];
      assert IsLowered(t) by { LoweredSlice(s, |s| - |t|, |s|); }
      assert IsLowered(w) by { LoweredSlice(t, 0, |w|); }
      assert IsLowered(u) by { LoweredSlice(t, |w|, |t|); }
      var rest := Words(u);
      WordsKeepLowered(u);
      assert Words(s) == [w] + rest;
      forall i | 0 <= i < |Words(s)| ensures IsLowered(Words(s)[i]) {
        if i > 0 {
          assert Words(s)[i] == rest[i - 1];
        }
      }
    }
  }

  lemma {:induction false} JoinKeepsLowered(ws: seq<string>)
    requires forall i :: 0 <= i < |ws| ==> IsLowered(ws[i])
    ensures IsLowered(Join(ws, " "))
    decreases |ws|
  {
    if |ws| > 1 {
      JoinCons(ws[0], ws[1..], " ");
      assert [ws[0]] + ws[1..] == ws;
      JoinKeepsLowered(ws[1..]);
      var j := Join(ws[1..], " ");
      var s := ws[0] + " " + j;
      forall k | 0 <= k < |s| ensures LowerChar(s[k]) == s[k] {
        if k < |ws[0]| {
          assert s[k] == ws[0][k];
        } else if k > |ws[0]| {
          assert s[k] == j[k - |ws[0]| - 1];
        }
      }
    }
  }

  /** The decimal digits of `n`, as `str(n)` writes them. */
  function NatToString(n: nat): (r: string)
    ensures r != []
    ensures forall k :: 0 <= k < |r| ==> '0' <= r[k] <= '9'
    decreases n
  {
    if n < 10 then [DigitChar(n)] else NatToString(n / 10) + [DigitChar(n % 10)]
  }

  function DigitChar(d: nat): (c: char)
    requires d < 10
    ensures '0' <= c <= '9' && c as int - '0' as int == d
  {
    (d + '0' as int) as char
  }

  /** The number a string of decimal digits denotes: `int(s)`. */
  function DigitsValue(s: string): int
    decreases |s|
  {
    if s == [] then 0
    else 10 * DigitsValue(s[..|s| - 1]) + (s[|s| - 1] as int - '0' as int)
  }

  /** `int(str(n)) == n` */
  lemma {:induction false} NatToStringValue(n: nat)
    ensures DigitsValue(NatToString(n)) == n
    decreases n
  {
    if n >= 10 {
      NatToStringValue(n / 10);
      var r := NatToString(n);
      assert r[..|r| - 1] == NatToString(n / 10);
    }
  }

  /** `s.find(c)`, as an option. */
  function FirstIndexOf(s: string, c: char): (r: Option<nat>)
    ensures r.Some? ==> r.value < |s| && s[r.value] == c
    ensures forall k :: 0 <= k < |s| && (r.None? || k < r.value) ==> s[k] != c
    decreases |s|
  {
    if s == [] then None
    else if s[0] == c then Some(0)
    else match FirstIndexOf(s[1..], c)
      case None => None
      case Some(k) => Some(k + 1)
  }

  /** `s.rfind(c)`, as an option. */
  function LastIndexOf(s: string, c: char): (r: Option<nat>)
    ensures r.Some? ==> r.value < |s| && s[r.value] == c
    ensures forall k :: 0 <= k < |s| && (r.None? || k > r.value) ==> s[k] != c
    decreases |s|
  {
    if s == [] then None
    else if s[|s| - 1] == c then Some(|s| - 1)
    else LastIndexOf(s[..|s| - 1], c)
  }
}
