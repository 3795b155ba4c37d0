/**
 * Markdown code-fence removal, done identically at the top of all four
 * response parsers (plan, insights, chat, visualize).
 */
module Fences {
  import opened Text

  const Fence := "```"

  /**
   * Trim the reply; when it then starts with three backticks, drop its first
   * line, and its last line too when that line is a bare fence, re-join the
   * remaining lines and trim again. Any other reply is only trimmed.
   */
  function StripFences(raw: string): (r: string)
    ensures IsStripped(r)
    ensures !StartsWith(Strip(raw), Fence) ==> r == Strip(raw)
  {
    var text := Strip(raw);
    if StartsWith(text, Fence) then FencedBody(text) else text
  }

  /** The lines after the opening fence line, closing fence dropped, re-joined and trimmed. */
  function FencedBody(text: string): (r: string)
    ensures IsStripped(r)
  {
    Strip(Join(DropClosing(Split(text, '\n')[1..]), "\n"))
  }

  /** The lines without the last one when that one trims to a bare fence. */
  function DropClosing(lines: seq<string>): (r: seq<string>)
    ensures r == lines || (lines != [] && r == lines[..|lines| - 1])
  {
    if lines != [] && Strip(lines[|lines| - 1]) == Fence then lines[..|lines| - 1] else lines
  }

  lemma SplitFenced(info: string, body: string)
    requires '\n' !in info
    ensures Split(Fence + info + "\n" + body + "\n" + Fence, '\n') == [Fence + info] + Split(body, '\n') + [Fence]
  {
    var opening := Fence + info;
    assert Fence + info + "\n" + body + "\n" + Fence == opening + ['\n'] + (body + ['\n'] + Fence);
    SplitConcat(opening, body + ['\n'] + Fence, '\n');
    SplitConcat(body, Fence, '\n');
    SplitNoSep(opening, '\n');
    SplitNoSep(Fence, '\n');
  }

  lemma DropClosingFence(lines: seq<string>)
    ensures DropClosing(lines + [Fence]) == lines
  {
    assert IsStripped(Fence);
    assert (lines + [Fence])[..|lines|] == lines;
  }

  /** A trimmed reply opening with a fence is reduced to its fenced body. */
  lemma StripFencesOpened(raw: string)
    requires IsStripped(raw) && StartsWith(raw, Fence)
    ensures StripFences(raw) == FencedBody(raw)
  {
  }

  lemma FencedBodyOf(info: string, body: string)
    requires '\n' !in info
    ensures FencedBody(Fence + info + "\n" + body + "\n" + Fence) == Strip(body)
  {
    SplitFenced(info, body);
    var raw := Fence + info + "\n" + body + "\n" + Fence;
    assert Split(raw, '\n')[1..] == Split(body, '\n') + [Fence];
    DropClosingFence(Split(body, '\n'));
    JoinSplit(body, '\n');
  }

  /**
   * A body fenced as a markdown block, with any info string after the
   * opening backticks, comes back as the trimmed body.
   */
  lemma FenceRoundTrip(info: string, body: string)
    requires '\n' !in info
    ensures StripFences(Fence + info + "\n" + body + "\n" + Fence) == Strip(body)
  {
    var raw := Fence + info + "\n" + body + "\n" + Fence;
    assert IsStripped(raw);
    assert StartsWith(raw, Fence) by {
      assert raw[..3] == Fence;
    }
    StripFencesOpened(raw);
    FencedBodyOf(info, body);
  }

  lemma SplitUnclosed(info: string, body: string)
    requires '\n' !in info
    ensures Split(Fence + info + "\n" + body, '\n') == [Fence + info] + Split(body, '\n')
  {
    var opening := Fence + info;
    assert Fence + info + "\n" + body == opening + ['\n'] + body;
    SplitConcat(opening, body, '\n');
    SplitNoSep(opening, '\n');
  }

  /**
   * A fence that is never closed loses only its opening line: the rest of
   * the reply comes back trimmed, provided its last line is not itself a
   * bare fence (that line would be dropped as a closing one).
   */
  lemma UnclosedFence(info: string, body: string)
    requires '\n' !in info
    requires body != [] && !IsSpace(body[|body| - 1])
    requires var lines := Split(body, '\n'); Strip(lines[|lines| - 1]) != Fence
    ensures StripFences(Fence + info + "\n" + body) == Strip(body)
  {
    var raw := Fence + info + "\n" + body;
    assert IsStripped(raw) by {
      assert raw[|raw| - 1] == body[|body| - 1];
    }
    assert StartsWith(raw, Fence) by {
      assert raw[..3] == Fence;
    }
    StripFencesOpened(raw);
    SplitUnclosed(info, body);
    assert Split(raw, '\n')[1..] == Split(body, '\n');
    JoinSplit(body, '\n');
  }
}
