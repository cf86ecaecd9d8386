/**
 * The pieces of `gt formula update` that prepare and finish an agent merge:
 * shortening hashes for display, the merge prompt, stripping the managed
 * header from the agent's answer, and choosing the agent to run.
 */
module Merge {
  import opened Outcome
  import opened Text
  import opened Disk
  import opened Embed

  /** `truncateHash`: at most the first twelve characters. */
  function TruncateHash(hash: String): (r: String)
    ensures |r| == if |hash| > 12 then 12 else |hash|
    ensures HasPrefix(hash, r)
  {
    if |hash| > 12 then hash[..12] else hash
  }

  // ---------------------------------------------------------------------
  // The merge prompt
  // ---------------------------------------------------------------------

  /** The fixed texts of the merge prompt: the instructions, the markers and the rules. */
  datatype PromptTexts = PromptTexts(
    intro: String,
    embeddedOpen: String, embeddedClose: String,
    overrideOpen: String, overrideClose: String,
    noBase: String, basedOn: String, updatedTo: String,
    rules: String)

  /** The texts `buildMergePrompt` writes. */
  const SourceTexts: PromptTexts := PromptTexts(
    "You are merging a formula override with an updated embedded version.\n\n"
      + "TASK: Produce a merged formula that incorporates the upstream changes from the new embedded version while preserving the user's customizations from their override.\n\n",
    "=== CURRENT EMBEDDED VERSION (new upstream) ===\n",
    "\n=== END EMBEDDED ===\n\n",
    "=== USER'S OVERRIDE (preserve their customizations) ===\n",
    "\n=== END OVERRIDE ===\n\n",
    "The override has no recorded base version. Compare it directly against the current embedded version.\n\n",
    "The override was originally based on embedded version sha256:",
    "The embedded version has been updated to sha256:",
    "RULES:\n"
      + "1. Preserve all user customizations from the override\n"
      + "2. Incorporate new additions/improvements from the embedded version\n"
      + "3. If there are conflicts, prefer the user's override version\n"
      + "4. Output ONLY the merged TOML content, no explanation or markdown fences\n"
      + "5. Do NOT include the '# Based on embedded version' header comments - those are managed automatically\n")

  /** The two lines naming the base and the current version by their shortened hashes. */
  function HashLines(t: PromptTexts, baseHash: String, currentHash: String): String {
    t.basedOn + TruncateHash(baseHash) + "\n" + t.updatedTo + TruncateHash(currentHash) + "\n"
  }

  /** The lines naming the versions: both shortened hashes, or a note that no base is known. */
  function VersionLines(t: PromptTexts, baseHash: String, currentHash: String): String {
    if baseHash != [] then HashLines(t, baseHash, currentHash) + "\n" else t.noBase
  }

  function PromptHead(t: PromptTexts, name: String): String {
    t.intro + "FORMULA: " + name + "\n\n"
  }

  /** A text between its opening and closing markers. */
  function Block(open: String, body: String, close: String): String {
    open + body + close
  }

  /** The prompt laid out with the texts `t`. */
  function MergePrompt(t: PromptTexts, name: String, baseHash: String, currentHash: String, embedded: String, override: String): String {
    PromptHead(t, name) + VersionLines(t, baseHash, currentHash)
      + Block(t.embeddedOpen, embedded, t.embeddedClose)
      + Block(t.overrideOpen, override, t.overrideClose)
      + t.rules
  }

  /** `buildMergePrompt`: the instructions, the versions, both texts in their blocks, the rules. */
  function BuildMergePrompt(name: String, baseHash: String, currentHash: String, embedded: String, override: String): (r: String)
    ensures HasPrefix(r, PromptHead(SourceTexts, name)) && HasSuffix(r, SourceTexts.rules)
    ensures baseHash != [] ==> Contains(r, HashLines(SourceTexts, baseHash, currentHash))
    ensures baseHash == [] ==> Contains(r, SourceTexts.noBase)
  {
    PromptCarriesBoth(SourceTexts, name, baseHash, currentHash, embedded, override);
    PromptNamesVersions(SourceTexts, name, baseHash, currentHash, embedded, override);
    MergePrompt(SourceTexts, name, baseHash, currentHash, embedded, override)
  }

  /** Where the five parts of a concatenation sit in it. */
  lemma Parts(a: String, b: String, c: String, d: String, e: String)
    ensures var s := a + b + c + d + e;
      && HasPrefix(s, a) && HasSuffix(s, e)
      && OccursAt(s, b, |a|) && OccursAt(s, c, |a + b|) && OccursAt(s, d, |a + b + c|)
  {
    var s := a + b + c + d + e;
    assert s[..|a|] == a;
    assert s[|s| - |e|..] == e;
    assert s[|a|..|a| + |b|] == b;
    assert s[|a + b|..|a + b| + |c|] == c;
    assert s[|a + b + c|..|a + b + c| + |d|] == d;
  }

  /** The front part of an occurrence occurs at the same place. */
  lemma OccursPrefix(s: String, w: String, x: String, k: nat)
    requires OccursAt(s, w + x, k)
    ensures OccursAt(s, w, k)
  {
    assert s[k..k + |w|] == s[k..k + |w + x|][..|w|];
  }

  /**
   * The prompt carries both versions verbatim, each inside its own markers,
   * the embedded one first; it opens with the instructions and closes with
   * the rules. Stated for any texts, so it holds for `SourceTexts`, which
   * `BuildMergePrompt` uses.
   */
  lemma PromptCarriesBoth(t: PromptTexts, name: String, baseHash: String, currentHash: String, embedded: String, override: String)
    ensures var p := MergePrompt(t, name, baseHash, currentHash, embedded, override);
      var e := Block(t.embeddedOpen, embedded, t.embeddedClose);
      var o := Block(t.overrideOpen, override, t.overrideClose);
      && HasPrefix(p, PromptHead(t, name))
      && HasSuffix(p, t.rules)
      && exists i: nat :: OccursAt(p, e, i) && OccursAt(p, o, i + |e|)
  {
    var head := PromptHead(t, name);
    var v := VersionLines(t, baseHash, currentHash);
    var e := Block(t.embeddedOpen, embedded, t.embeddedClose);
    var o := Block(t.overrideOpen, override, t.overrideClose);
    var p := MergePrompt(t, name, baseHash, currentHash, embedded, override);
    assert p == head + v + e + o + t.rules;
    Adjacent(head, v, e, o, t.rules);
    assert OccursAt(p, e, |head + v|) && OccursAt(p, o, |head + v| + |e|);
  }

  /** In a concatenation of five parts, the third and the fourth sit next to each other. */
  lemma Adjacent(a: String, b: String, c: String, d: String, e: String)
    ensures var s := a + b + c + d + e;
      && HasPrefix(s, a) && HasSuffix(s, e)
      && OccursAt(s, c, |a + b|) && OccursAt(s, d, |a + b| + |c|)
  {
    Parts(a, b, c, d, e);
    assert |a + b + c| == |a + b| + |c|;
  }

  /**
   * With a recorded base, the prompt names both shortened hashes; without
   * one, it says so. Stated for any texts, as above.
   */
  lemma PromptNamesVersions(t: PromptTexts, name: String, baseHash: String, currentHash: String, embedded: String, override: String)
    ensures var p := MergePrompt(t, name, baseHash, currentHash, embedded, override);
      && (baseHash != [] ==> Contains(p, HashLines(t, baseHash, currentHash)))
      && (baseHash == [] ==> Contains(p, t.noBase))
  {
    var head := PromptHead(t, name);
    var v := VersionLines(t, baseHash, currentHash);
    var e := Block(t.embeddedOpen, embedded, t.embeddedClose);
    var o := Block(t.overrideOpen, override, t.overrideClose);
    var p := MergePrompt(t, name, baseHash, currentHash, embedded, override);
    Parts(head, v, e, o, t.rules);
    if baseHash != [] {
      var w := HashLines(t, baseHash, currentHash);
      OccursPrefix(p, w, "\n", |head|);
      ContainsAt(p, w, |head|);
    } else {
      ContainsAt(p, t.noBase, |head|);
    }
  }

  // ---------------------------------------------------------------------
  // Stripping the managed header
  // ---------------------------------------------------------------------

  const CreatedMark: String := "# Formula override created by"
  const BasedMark: String := "# Based on embedded version:"
  const UpdateMark: String := "# To update: gt formula update"

  /** The prefixes by which `stripFormulaHeader` recognises a managed header line. */
  const HeaderMarks: seq<String> := [CreatedMark, BasedMark, UpdateMark]

  /** A line whose trimmed text starts with one of `marks`. */
  predicate Marked(line: String, marks: seq<String>) {
    StartsWithAny(TrimSpace(line), marks)
  }

  /** A line that trims to nothing: white space only. */
  predicate Blank(line: String) {
    forall j :: 0 <= j < |line| ==> line[j] in Whitespace
  }

  /** `strings.TrimSpace(line) == ""` says exactly that the line is blank. */
  lemma BlankTrims(line: String)
    ensures Blank(line) <==> TrimSpace(line) == []
  {
    var left := TrimLeft(line, Whitespace);
    if !Blank(line) {
      var j :| 0 <= j < |line| && line[j] !in Whitespace;
      assert |line| - |left| <= j;
      TrimRightKeeps(left, j - (|line| - |left|) + 1);
    }
  }

  /** Where the first loop of `stripFormulaHeader` stops, and one past the last header line it saw. */
  datatype HeaderRun = HeaderRun(stop: nat, start: nat)

  /**
   * The first loop of `stripFormulaHeader`: from line `i`, with `start` one
   * past the last header line seen, blank lines are passed over and lines
   * carrying a mark move `start`; the first other line stops the scan.
   */
  function ScanHeader(lines: seq<String>, marks: seq<String>, i: nat, start: nat): (r: HeaderRun)
    requires start <= i <= |lines|
    ensures start <= r.start <= r.stop <= |lines| && i <= r.stop
    ensures r.stop < |lines| ==> !Blank(lines[r.stop]) && !Marked(lines[r.stop], marks)
    decreases |lines| - i
  {
    if i == |lines| then HeaderRun(i, start)
    else if Blank(lines[i]) then ScanHeader(lines, marks, i + 1, start)
    else if Marked(lines[i], marks) then ScanHeader(lines, marks, i + 1, i + 1)
    else HeaderRun(i, start)
  }

  /** Every line in `lines[a..b]` is blank or carries a mark. */
  predicate Passed(lines: seq<String>, marks: seq<String>, a: nat, b: nat)
    requires a <= b <= |lines|
  {
    forall k :: a <= k < b ==> Blank(lines[k]) || Marked(lines[k], marks)
  }

  /** Every line in `lines[a..b]` is blank. */
  predicate AllBlank(lines: seq<String>, a: nat, b: nat)
    requires a <= b <= |lines|
  {
    forall k :: a <= k < b ==> Blank(lines[k])
  }

  /**
   * What the first loop passes over: from a start after which only blank
   * lines were seen, every line before the final start is blank or a header
   * line, and every line between it and the stop is blank.
   */
  lemma {:induction false} ScanHeaderPasses(lines: seq<String>, marks: seq<String>, i: nat, start: nat)
    requires start <= i <= |lines|
    requires AllBlank(lines, start, i)
    ensures var r := ScanHeader(lines, marks, i, start);
      Passed(lines, marks, start, r.start) && AllBlank(lines, r.start, r.stop)
    decreases |lines| - i
  {
    if i < |lines| {
      ScanHeaderStep(lines, marks, i, start);
      if Blank(lines[i]) {
        assert AllBlank(lines, start, i + 1);
        ScanHeaderPasses(lines, marks, i + 1, start);
      } else if Marked(lines[i], marks) {
        var r := ScanHeader(lines, marks, i + 1, i + 1);
        ScanHeaderPasses(lines, marks, i + 1, i + 1);
        BlanksThenMarkPassed(lines, marks, start, i);
        PassedJoin(lines, marks, start, i + 1, r.start);
      } else {
        assert ScanHeader(lines, marks, i, start) == HeaderRun(i, start);
      }
    }
  }

  /** A run of blank lines closed by a marked line is passed over. */
  lemma BlanksThenMarkPassed(lines: seq<String>, marks: seq<String>, start: nat, i: nat)
    requires start <= i < |lines|
    requires AllBlank(lines, start, i) && Marked(lines[i], marks)
    ensures Passed(lines, marks, start, i + 1)
  {
    forall k | start <= k < i + 1
      ensures Blank(lines[k]) || Marked(lines[k], marks)
    {
      if k < i {
        assert Blank(lines[k]);
      }
    }
  }

  lemma PassedJoin(lines: seq<String>, marks: seq<String>, a: nat, b: nat, c: nat)
    requires a <= b <= c <= |lines|
    requires Passed(lines, marks, a, b) && Passed(lines, marks, b, c)
    ensures Passed(lines, marks, a, c)
  {
  }

  /** One step of the first loop. */
  lemma ScanHeaderStep(lines: seq<String>, marks: seq<String>, i: nat, start: nat)
    requires start <= i < |lines|
    ensures Blank(lines[i]) ==> ScanHeader(lines, marks, i, start) == ScanHeader(lines, marks, i + 1, start)
    ensures !Blank(lines[i]) && Marked(lines[i], marks) ==> ScanHeader(lines, marks, i, start) == ScanHeader(lines, marks, i + 1, i + 1)
    ensures !Blank(lines[i]) && !Marked(lines[i], marks) ==> ScanHeader(lines, marks, i, start) == HeaderRun(i, start)
  {
  }

  /** The second loop: the first line at or after `i` that is not blank, or the line count. */
  function SkipBlank(lines: seq<String>, i: nat): (r: nat)
    requires i <= |lines|
    ensures i <= r <= |lines|
    ensures r < |lines| ==> !Blank(lines[r])
    ensures AllBlank(lines, i, r)
    decreases |lines| - i
  {
    if i < |lines| && Blank(lines[i]) then SkipBlank(lines, i + 1) else i
  }

  /** The line at which the kept text starts. */
  function BodyStart(lines: seq<String>, marks: seq<String>): nat
    ensures BodyStart(lines, marks) <= |lines|
  {
    SkipBlank(lines, ScanHeader(lines, marks, 0, 0).start)
  }

  /** `stripFormulaHeader`, as a function of the content. */
  function StripHeader(content: String): (r: String)
    ensures var start := BodyStart(Lines(content), HeaderMarks);
      start == 0 || start >= |Lines(content)| ==> r == content
  {
    var lines := Lines(content);
    var start := BodyStart(lines, HeaderMarks);
    JoinSplit(content, Newline);
    assert lines[0..] == lines;
    if start >= |lines| then content else Join(lines[start..], Newline)
  }

  /** `stripFormulaHeader`: the two loops over the lines. */
  method StripFormulaHeader(content: String) returns (r: String)
    ensures r == StripHeader(content)
  {
    var lines := Lines(content);
    var marks := HeaderMarks;
    var startIdx := 0;
    var i := 0;
    var done := false;
    while i < |lines| && !done
      invariant startIdx <= i <= |lines|
      invariant ScanHeader(lines, marks, 0, 0).start == if done then startIdx else ScanHeader(lines, marks, i, startIdx).start
      decreases |lines| - i, !done
    {
      ScanHeaderStep(lines, marks, i, startIdx);
      if Blank(lines[i]) {
        i := i + 1;
      } else if Marked(lines[i], marks) {
        startIdx := i + 1;
        i := i + 1;
      } else {
        done := true;
      }
    }
    ghost var afterHeader := startIdx;
    while startIdx < |lines| && Blank(lines[startIdx])
      invariant afterHeader <= startIdx <= |lines|
      invariant SkipBlank(lines, afterHeader) == SkipBlank(lines, startIdx)
      decreases |lines| - startIdx
    {
      startIdx := startIdx + 1;
    }
    if startIdx >= |lines| {
      return content;
    }
    return Join(lines[startIdx..], Newline);
  }

  /** Skipping blank lines from `i` reaches `j` when every line between is blank and `j` is not. */
  lemma {:induction false} SkipBlankTo(lines: seq<String>, i: nat, j: nat)
    requires i <= j <= |lines|
    requires AllBlank(lines, i, j)
    requires j == |lines| || !Blank(lines[j])
    ensures SkipBlank(lines, i) == j
    decreases j - i
  {
    if i < j {
      SkipBlankTo(lines, i + 1, j);
    }
  }

  /** The kept text starts where the header scan stopped. */
  lemma BodyStartIsStop(lines: seq<String>, marks: seq<String>)
    ensures BodyStart(lines, marks) == ScanHeader(lines, marks, 0, 0).stop
    ensures Passed(lines, marks, 0, BodyStart(lines, marks))
  {
    var run := ScanHeader(lines, marks, 0, 0);
    ScanHeaderPasses(lines, marks, 0, 0);
    SkipBlankTo(lines, run.start, run.stop);
    assert Passed(lines, marks, run.start, run.stop);
    PassedJoin(lines, marks, 0, run.start, run.stop);
  }

  /** Everything stripped is blank or a header line, and the kept text starts at a line that is neither. */
  lemma StripDropsOnlyHeader(content: String)
    ensures var lines := Lines(content);
      var start := BodyStart(lines, HeaderMarks);
      && Passed(lines, HeaderMarks, 0, start)
      && (start < |lines| ==> StripHeader(content) == Join(lines[start..], Newline) && !Blank(lines[start]) && !Marked(lines[start], HeaderMarks))
  {
    BodyStartIsStop(Lines(content), HeaderMarks);
  }

  /** The first line of `body` is neither blank nor a header line. */
  predicate PlainStart(body: String) {
    var first := Lines(body)[0];
    !Blank(first) && !Marked(first, HeaderMarks)
  }

  /** Text that starts with a plain line comes back unchanged. */
  lemma StripKeepsPlain(body: String)
    requires PlainStart(body)
    ensures StripHeader(body) == body
  {
    var lines := Lines(body);
    assert ScanHeader(lines, HeaderMarks, 0, 0) == HeaderRun(0, 0);
    assert SkipBlank(lines, 0) == 0;
    assert lines[0..] == lines;
    JoinSplit(body, Newline);
  }

  /** Splitting lines joined with newlines gives them back. */
  lemma {:induction false} LinesOfJoin(parts: seq<String>)
    requires |parts| >= 1
    requires forall k :: 0 <= k < |parts| ==> '\n' !in parts[k]
    ensures Lines(Join(parts, Newline)) == parts
    decreases |parts|
  {
    if |parts| == 1 {
      NotContainsChar(parts[0], Newline, '\n');
    } else {
      var rest := parts[1..];
      assert Join(parts, Newline) == parts[0] + Newline + Join(rest, Newline);
      LinesCons(parts[0], Join(rest, Newline));
      LinesOfJoin(rest);
      assert parts == [parts[0]] + rest;
    }
  }

  /** Every line of a text is free of newlines. */
  lemma LinesFree(s: String)
    ensures forall k :: 0 <= k < |Lines(s)| ==> '\n' !in Lines(s)[k]
  {
    SplitPiecesFree(s, Newline);
    forall k | 0 <= k < |Lines(s)|
      ensures '\n' !in Lines(s)[k]
    {
      var line := Lines(s)[k];
      if '\n' in line {
        var j :| 0 <= j < |line| && line[j] == '\n';
        assert OccursAt(line, Newline, j);
      }
    }
  }

  /** Stripping twice strips no more than stripping once. */
  lemma StripIdempotent(content: String)
    ensures StripHeader(StripHeader(content)) == StripHeader(content)
  {
    var lines := Lines(content);
    var start := BodyStart(lines, HeaderMarks);
    if start < |lines| {
      StripDropsOnlyHeader(content);
      var kept := lines[start..];
      LinesFree(content);
      LinesOfJoin(kept);
      assert Lines(StripHeader(content))[0] == lines[start];
      StripKeepsPlain(StripHeader(content));
    }
  }

  // The header lines, one fact each.

  /** A line starting with a mark that has no white space at either end is not blank and trims to a text starting with the mark. */
  lemma MarkedLine(mark: String, x: String)
    requires |mark| > 0 && mark[0] !in Whitespace && mark[|mark| - 1] !in Whitespace
    ensures !Blank(mark + x) && HasPrefix(TrimSpace(mark + x), mark)
  {
    assert (mark + x)[0] == mark[0];
    assert mark + x == [] + mark + x;
    TrimKeepsPrefix([], mark, x);
  }

  lemma CreatedMarkEnds()
    ensures |CreatedMark| > 0 && CreatedMark[0] !in Whitespace && CreatedMark[|CreatedMark| - 1] !in Whitespace
    ensures CreatedLine == CreatedMark + " gt formula modify"
  {
  }

  lemma BasedMarkEnds()
    ensures |BasedMark| > 0 && BasedMark[0] !in Whitespace && BasedMark[|BasedMark| - 1] !in Whitespace
    ensures BasePrefix == BasedMark + " sha256:"
  {
  }

  lemma UpdateMarkEnds()
    ensures |UpdateMark| > 0 && UpdateMark[0] !in Whitespace && UpdateMark[|UpdateMark| - 1] !in Whitespace
    ensures UpdatePrefix == UpdateMark + " "
  {
  }

  lemma CreatedLineIsHeader()
    ensures !Blank(CreatedLine) && Marked(CreatedLine, HeaderMarks)
  {
    CreatedMarkEnds();
    MarkedLine(CreatedMark, " gt formula modify");
    assert HasPrefix(TrimSpace(CreatedLine), HeaderMarks[0]);
  }

  lemma BaseLineIsHeader(hash: String)
    ensures !Blank(BasePrefix + hash) && Marked(BasePrefix + hash, HeaderMarks)
  {
    BasedMarkEnds();
    assert BasePrefix + hash == BasedMark + (" sha256:" + hash);
    MarkedLine(BasedMark, " sha256:" + hash);
    assert HasPrefix(TrimSpace(BasePrefix + hash), HeaderMarks[1]);
  }

  lemma UpdateLineIsHeader(name: String)
    ensures !Blank(UpdatePrefix + name) && Marked(UpdatePrefix + name, HeaderMarks)
  {
    UpdateMarkEnds();
    assert UpdatePrefix + name == UpdateMark + (" " + name);
    MarkedLine(UpdateMark, " " + name);
    assert HasPrefix(TrimSpace(UpdatePrefix + name), HeaderMarks[2]);
  }

  /** The header and a body, regrouped line by line. */
  lemma HeaderRegroup(hash: Digest, name: String, body: String)
    ensures Header(hash, name) + body
      == CreatedLine + Newline + (BasePrefix + hash + Newline + (UpdatePrefix + name + Newline + ([] + Newline + body)))
  {
  }

  /** Three lines without newlines and an empty one, then a body: the lines are those four, then the body's. */
  lemma {:induction false} FourLines(a: String, b: String, c: String, body: String)
    requires '\n' !in a && '\n' !in b && '\n' !in c
    ensures Lines(a + Newline + (b + Newline + (c + Newline + ([] + Newline + body))))
      == [a, b, c, []] + Lines(body)
  {
    var t3 := [] + Newline + body;
    var t2 := c + Newline + t3;
    var t1 := b + Newline + t2;
    LinesCons([], body);
    LinesCons(c, t3);
    LinesCons(b, t2);
    LinesCons(a, t1);
  }

  lemma HeaderSplit(hash: Digest, name: String, body: String)
    requires '\n' !in name
    ensures Lines(Header(hash, name) + body) == [CreatedLine, BasePrefix + hash, UpdatePrefix + name, []] + Lines(body)
  {
    HeaderRegroup(hash, name, body);
    CreatedLinePlain();
    BasePrefixPlain();
    DigestPlain(hash);
    assert '\n' !in UpdatePrefix;
    FourLines(CreatedLine, BasePrefix + hash, UpdatePrefix + name, body);
  }

  /**
   * Stripping a text written as the managed header followed by a body that
   * starts with a plain line gives back exactly that body.
   */
  lemma {:induction false} StripHeaderOfHeader(hash: Digest, name: String, body: String)
    requires '\n' !in name
    requires PlainStart(body)
    ensures StripHeader(Header(hash, name) + body) == body
  {
    var lines := Lines(Header(hash, name) + body);
    HeaderSplit(hash, name, body);
    var rest := Lines(body);
    assert lines[4..] == rest;
    assert lines[0] == CreatedLine && lines[1] == BasePrefix + hash && lines[2] == UpdatePrefix + name;
    assert lines[3] == [] && lines[4] == rest[0];
    CreatedLineIsHeader();
    BaseLineIsHeader(hash);
    UpdateLineIsHeader(name);
    ScanThreeMarked(lines, HeaderMarks);
    BodyStartIsStop(lines, HeaderMarks);
    JoinSplit(body, Newline);
  }

  /** Three marked lines and a blank one, then a plain line: the scan stops at that line and keeps it. */
  lemma ScanThreeMarked(lines: seq<String>, marks: seq<String>)
    requires |lines| >= 5
    requires !Blank(lines[0]) && Marked(lines[0], marks)
    requires !Blank(lines[1]) && Marked(lines[1], marks)
    requires !Blank(lines[2]) && Marked(lines[2], marks)
    requires Blank(lines[3]) && !Blank(lines[4]) && !Marked(lines[4], marks)
    ensures ScanHeader(lines, marks, 0, 0) == HeaderRun(4, 3)
  {
    assert ScanHeader(lines, marks, 4, 3) == HeaderRun(4, 3);
    assert ScanHeader(lines, marks, 3, 3) == HeaderRun(4, 3);
    assert ScanHeader(lines, marks, 2, 2) == HeaderRun(4, 3);
    assert ScanHeader(lines, marks, 1, 1) == HeaderRun(4, 3);
  }

  // ---------------------------------------------------------------------
  // Choosing the agent
  // ---------------------------------------------------------------------

  /** How a preset agent runs one prompt and exits. */
  datatype NonInteractive = NonInteractive(subcommand: String, promptFlag: String)

  /** A built-in agent preset: its command and, when it needs one, its non-interactive form. */
  datatype Preset = Preset(command: String, nonInteractive: Option<NonInteractive>)

  /** The agent to run: its name, its command and the arguments the prompt follows. */
  datatype Agent = Agent(name: String, command: String, args: seq<String>)

  datatype AgentError = UnknownNotOnPath(name: String) | CommandNotOnPath(name: String, command: String) | NoAgentFound

  /** The arguments a preset puts before the prompt. */
  function OneShotArgs(p: Preset): (r: seq<String>)
    ensures p.nonInteractive.None? ==> r == ["-p"]
    ensures p.nonInteractive.Some? ==> var ni := p.nonInteractive.value;
      && |r| == (if ni.subcommand != [] then 1 else 0) + (if ni.promptFlag != [] then 1 else 0)
      && (ni.subcommand != [] ==> r[0] == ni.subcommand)
      && (ni.promptFlag != [] ==> r[|r| - 1] == ni.promptFlag)
  {
    match p.nonInteractive
    case None => ["-p"]
    case Some(ni) =>
      (if ni.subcommand != [] then [ni.subcommand] else [])
        + (if ni.promptFlag != [] then [ni.promptFlag] else [])
  }

  /**
   * `resolveAgentForOneShot`: a name without a preset runs as a command of
   * its own with `-p`; a preset runs its command with its one-shot
   * arguments. The command must be on the `PATH`.
   */
  function ResolveAgentForOneShot(presets: map<String, Preset>, onPath: set<String>, name: String): (r: Result<Agent, AgentError>)
    ensures r.Ok? ==> r.value.name == name && r.value.command in onPath
    ensures r.Ok? <==> (if name in presets then presets[name].command else name) in onPath
    ensures r.Ok? && name !in presets ==> r.value.command == name && r.value.args == ["-p"]
    ensures r.Ok? && name in presets ==> r.value.command == presets[name].command && r.value.args == OneShotArgs(presets[name])
  {
    if name !in presets then
      if name !in onPath then Err(UnknownNotOnPath(name)) else Ok(Agent(name, name, ["-p"]))
    else
      var preset := presets[name];
      if preset.command !in onPath then Err(CommandNotOnPath(name, preset.command))
      else Ok(Agent(name, preset.command, OneShotArgs(preset)))
  }

  const DefaultAgentKey: String := "\"default_agent\""

  /** The town settings file that may name a default agent. */
  function TownSettingsPath(townRoot: Path): Path {
    Join3(townRoot, "settings", "config.json")
  }

  /**
   * The text-level extraction of `default_agent`: after the first
   * occurrence of the quoted key and the next colon, a value starting with
   * a quote up to the next quote; "" when any step fails.
   */
  function ConfiguredAgent(content: String): String {
    var idx := Index(content, DefaultAgentKey);
    if idx == -1 then [] else ValueAfterKey(content[idx..])
  }

  /** The value after the first colon of `rest`, when it is quoted. */
  function ValueAfterKey(rest: String): String {
    var colon := Index(rest, ":");
    if colon == -1 then [] else QuotedPart(TrimSpace(rest[colon + 1..]))
  }

  /** The text between a leading quote and the next quote, or "" when there is no such pair. */
  function QuotedPart(valPart: String): String {
    if |valPart| == 0 || valPart[0] != '"' then []
    else
      var endQuote := Index(valPart[1..], "\"");
      if endQuote == -1 then [] else valPart[1..endQuote + 1]
  }

  /** No quote before the key: the key is found where it is written. */
  lemma KeyFoundAt(pre: String, after: String)
    requires '"' !in pre
    ensures Index(pre + DefaultAgentKey + after, DefaultAgentKey) == |pre|
  {
    var s := pre + DefaultAgentKey + after;
    assert s[|pre|..|pre| + |DefaultAgentKey|] == DefaultAgentKey;
    assert OccursAt(s, DefaultAgentKey, |pre|);
    forall k: nat | k < |pre|
      ensures !OccursAt(s, DefaultAgentKey, k)
    {
      assert s[k] == pre[k];
    }
  }

  lemma KeyHasNoColon()
    ensures ':' !in DefaultAgentKey && |DefaultAgentKey| == 15
  {
  }

  /** The colon right after the key is the first one. */
  lemma ColonAfterKey(value: String)
    ensures Index(DefaultAgentKey + ":" + value, ":") == |DefaultAgentKey|
  {
    var s := DefaultAgentKey + ":" + value;
    KeyHasNoColon();
    assert s[|DefaultAgentKey|..|DefaultAgentKey| + 1] == ":";
    assert OccursAt(s, ":", |DefaultAgentKey|);
    forall k: nat | k < |DefaultAgentKey|
      ensures !OccursAt(s, ":", k)
    {
      assert s[k] == DefaultAgentKey[k];
    }
  }

  /** The value between quotes, with no quote inside, is read back. */
  lemma QuotedValue(name: String, after: String)
    requires '"' !in name
    ensures QuotedPart("\"" + name + "\"" + after) == name
  {
    var v := "\"" + name + "\"" + after;
    assert v[1..] == name + "\"" + after;
    assert v[1..][|name|..|name| + 1] == "\"";
    assert OccursAt(v[1..], "\"", |name|);
    forall k: nat | k < |name|
      ensures !OccursAt(v[1..], "\"", k)
    {
      assert v[1..][k] == name[k];
    }
    assert Index(v[1..], "\"") == |name|;
    assert v[1..|name| + 1] == name;
  }

  /** Trimming the value keeps the quoted name at its front. */
  lemma QuotedKept(name: String, post: String)
    ensures HasPrefix(TrimSpace(" \"" + name + "\"" + post), "\"" + name + "\"")
  {
    var quoted := "\"" + name + "\"";
    assert " \"" + name + "\"" + post == " " + quoted + post;
    assert quoted[0] == '"' && quoted[|quoted| - 1] == '"';
    TrimKeepsPrefix(" ", quoted, post);
  }

  /** Spaces before a quoted value are trimmed away before it is read. */
  lemma TrimmedQuotedValue(name: String, post: String)
    requires '"' !in name
    ensures QuotedPart(TrimSpace(" \"" + name + "\"" + post)) == name
  {
    var quoted := "\"" + name + "\"";
    var valPart := TrimSpace(" \"" + name + "\"" + post);
    QuotedKept(name, post);
    assert valPart == quoted + valPart[|quoted|..];
    QuotedValue(name, valPart[|quoted|..]);
  }

  /** After the key, the value behind the colon is read. */
  lemma ValueAfterTheKey(value: String)
    ensures ValueAfterKey(DefaultAgentKey + ":" + value) == QuotedPart(TrimSpace(value))
  {
    ColonAfterKey(value);
    assert (DefaultAgentKey + ":" + value)[|DefaultAgentKey| + 1..] == value;
  }

  /** The same settings text, grouped as key, colon and value. */
  lemma SettingGrouped(pre: String, name: String, post: String)
    ensures pre + DefaultAgentKey + ": \"" + name + "\"" + post == pre + DefaultAgentKey + (":" + (" \"" + name + "\"" + post))
  {
  }

  /** Where the key is found, the value is read from there. */
  lemma ConfiguredAgentAt(content: String, k: nat)
    requires Index(content, DefaultAgentKey) == k
    ensures ConfiguredAgent(content) == ValueAfterKey(content[k..])
  {
  }

  /** A settings text holding `"default_agent": "<name>"`, with no quote before it, names that agent. */
  lemma ConfiguredAgentReads(pre: String, name: String, post: String)
    requires '"' !in pre && '"' !in name
    ensures ConfiguredAgent(pre + DefaultAgentKey + ": \"" + name + "\"" + post) == name
  {
    var value := " \"" + name + "\"" + post;
    var content := pre + DefaultAgentKey + (":" + value);
    SettingGrouped(pre, name, post);
    assert content[|pre|..] == DefaultAgentKey + ":" + value;
    KeyFoundAt(pre, ":" + value);
    ConfiguredAgentAt(content, |pre|);
    ValueAfterTheKey(value);
    TrimmedQuotedValue(name, post);
  }

  /** The agents looked for on the `PATH` when none is configured, in order. */
  const AgentCandidates: seq<String> := ["claude", "opencode", "gemini", "codex"]

  /** The index of the first of `names` at or after `from` on the `PATH`, or -1. */
  function FirstOnPath(names: seq<String>, onPath: set<String>, from: nat): (r: int)
    requires from <= |names|
    ensures r == -1 || (from <= r < |names| && names[r] in onPath)
    ensures forall k :: from <= k < |names| && (r == -1 || k < r) ==> names[k] !in onPath
    decreases |names| - from
  {
    if from == |names| then -1
    else if names[from] in onPath then from
    else FirstOnPath(names, onPath, from + 1)
  }

  /** The configured agent, when the settings file names one and it resolves. */
  function ConfiguredChoice(d: Disk, presets: map<String, Preset>, onPath: set<String>, townRoot: Path): Option<Agent> {
    match ReadFile(d, TownSettingsPath(townRoot))
    case Err(_) => None
    case Ok(content) =>
      var name := ConfiguredAgent(content);
      if name == [] then None
      else
        match ResolveAgentForOneShot(presets, onPath, name)
        case Ok(agent) => Some(agent)
        case Err(_) => None
  }

  /**
   * `detectFormulaUpdateAgent`: `GT_DEFAULT_AGENT` when set (its failure is
   * final), then the town's configured agent when it resolves, then the
   * first known agent on the `PATH`.
   */
  function DetectFormulaUpdateAgent(envAgent: String, d: Disk, presets: map<String, Preset>, onPath: set<String>, townRoot: Path): (r: Result<Agent, AgentError>)
    ensures envAgent != [] ==> r == ResolveAgentForOneShot(presets, onPath, envAgent)
    ensures envAgent == [] && ConfiguredChoice(d, presets, onPath, townRoot).Some? ==> r == Ok(ConfiguredChoice(d, presets, onPath, townRoot).value)
    ensures envAgent == [] && ConfiguredChoice(d, presets, onPath, townRoot).None? ==>
      (r == Err(NoAgentFound) <==> forall k :: 0 <= k < |AgentCandidates| ==> AgentCandidates[k] !in onPath)
    ensures envAgent == [] && ConfiguredChoice(d, presets, onPath, townRoot).None? ==>
      forall i :: 0 <= i < |AgentCandidates| && AgentCandidates[i] in onPath
        && (forall k :: 0 <= k < i ==> AgentCandidates[k] !in onPath)
        ==> r == ResolveAgentForOneShot(presets, onPath, AgentCandidates[i])
    ensures r.Ok? ==> r.value.command in onPath
  {
    if envAgent != [] then ResolveAgentForOneShot(presets, onPath, envAgent)
    else
      match ConfiguredChoice(d, presets, onPath, townRoot)
      case Some(agent) => Ok(agent)
      case None =>
        var i := FirstOnPath(AgentCandidates, onPath, 0);
        if i == -1 then Err(NoAgentFound)
        else ResolveAgentForOneShot(presets, onPath, AgentCandidates[i])
  }

  /**
   * With the variable unset, no configured agent and some candidate on the
   * `PATH`, the agent resolved is a candidate on the `PATH` and every
   * candidate before it is absent.
   */
  lemma FallbackFirstCandidate(d: Disk, presets: map<String, Preset>, onPath: set<String>, townRoot: Path, j: nat)
    requires ConfiguredChoice(d, presets, onPath, townRoot).None?
    requires j < |AgentCandidates| && AgentCandidates[j] in onPath
    ensures exists i ::
      && 0 <= i <= j && AgentCandidates[i] in onPath
      && (forall k :: 0 <= k < i ==> AgentCandidates[k] !in onPath)
      && DetectFormulaUpdateAgent([], d, presets, onPath, townRoot) == ResolveAgentForOneShot(presets, onPath, AgentCandidates[i])
  {
    var i := FirstOnPath(AgentCandidates, onPath, 0);
    assert 0 <= i <= j;
  }

  /** An unset variable and no configured agent: the first candidate on the `PATH` is resolved, the earlier ones being absent. */
  lemma CandidateOrder(d: Disk, presets: map<String, Preset>, onPath: set<String>, townRoot: Path)
    requires ConfiguredChoice(d, presets, onPath, townRoot).None?
    requires "claude" !in onPath && "opencode" in onPath
    ensures DetectFormulaUpdateAgent([], d, presets, onPath, townRoot) == ResolveAgentForOneShot(presets, onPath, "opencode")
  {
    assert FirstOnPath(AgentCandidates, onPath, 0) == 1;
  }
}
