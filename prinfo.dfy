/**
 * Reading what `gh pr view` prints about a pull request: its title, and one
 * line per changed file holding the path, the added and the deleted line
 * counts, separated by spaces.
 */
module PullRequest {
  import opened Outcome
  import opened Text

  datatype ChangedFile = ChangedFile(path: String, additions: int, deletions: int)

  /** One line of the file listing; blank lines, short lines and lines whose counts are not numbers yield nothing. */
  function ParseFileLine(line: String): Option<ChangedFile> {
    if line == [] then None
    else
      var parts := Fields(line);
      if |parts| < 3 then None
      else
        match (Atoi(parts[1]), Atoi(parts[2]))
        case (Some(additions), Some(deletions)) => Some(ChangedFile(parts[0], additions, deletions))
        case _ => None
  }

  /** The file a parsed line contributes: none or one. */
  function Found(file: Option<ChangedFile>): seq<ChangedFile> {
    if file.Some? then [file.value] else []
  }

  /** The files the lines describe, in order. */
  function ParseFileLines(lines: seq<String>): (r: seq<ChangedFile>)
    ensures |r| <= |lines|
  {
    if lines == [] then []
    else ParseFileLines(lines[..|lines| - 1]) + Found(ParseFileLine(lines[|lines| - 1]))
  }

  /** What `fetchPRInfo` returns for the outputs of the two `gh` calls; `None` stands for a failed call. */
  function PRInfo(titleOut: Option<String>, filesOut: Option<String>): (r: (String, seq<ChangedFile>))
    ensures titleOut.None? ==> r.0 == []
    ensures filesOut.None? ==> r.1 == []
    ensures r.0 == [] || (r.0[0] !in Whitespace && r.0[|r.0| - 1] !in Whitespace)
  {
    (if titleOut.Some? then TrimSpace(titleOut.value) else [],
     if filesOut.Some? then ParseFileLines(Lines(TrimSpace(filesOut.value))) else [])
  }

  /** The body of the loop of `fetchPRInfo`: the file one line describes, if any. */
  method ParseLine(line: String) returns (file: Option<ChangedFile>)
    ensures file == ParseFileLine(line)
  {
    file := None;
    if line == [] {
      return;
    }
    var parts := Fields(line);
    if |parts| >= 3 {
      var additions := Atoi(parts[1]);
      if additions.None? {
        return;
      }
      var deletions := Atoi(parts[2]);
      if deletions.None? {
        return;
      }
      file := Some(ChangedFile(parts[0], additions.value, deletions.value));
    }
  }

  /** The loop of `fetchPRInfo` over the lines of the listing. */
  method CollectChangedFiles(lines: seq<String>) returns (changedFiles: seq<ChangedFile>)
    ensures changedFiles == ParseFileLines(lines)
  {
    changedFiles := [];
    for i := 0 to |lines|
      invariant changedFiles == ParseFileLines(lines[..i])
    {
      assert lines[..i + 1][..i] == lines[..i];
      var file := ParseLine(lines[i]);
      if file.Some? {
        changedFiles := changedFiles + [file.value];
      }
    }
    assert lines[..|lines|] == lines;
  }

  /** `fetchPRInfo`: the trimmed title and the files of the trimmed listing. */
  method FetchPRInfo(titleOut: Option<String>, filesOut: Option<String>) returns (prTitle: String, changedFiles: seq<ChangedFile>)
    ensures (prTitle, changedFiles) == PRInfo(titleOut, filesOut)
  {
    prTitle := [];
    changedFiles := [];
    if titleOut.Some? {
      prTitle := TrimSpace(titleOut.value);
    }
    if filesOut.Some? {
      changedFiles := CollectChangedFiles(Lines(TrimSpace(filesOut.value)));
    }
  }

  /** The line `gh` prints for one file: path, additions and deletions. */
  function FileLine(f: ChangedFile): String {
    f.path + " " + IntToDecimal(f.additions) + " " + IntToDecimal(f.deletions)
  }

  /** The lines of a listing joined by newlines, without the final one. */
  function JoinedLines(files: seq<ChangedFile>): String
    requires |files| > 0
  {
    if |files| == 1 then FileLine(files[0]) else FileLine(files[0]) + Newline + JoinedLines(files[1..])
  }

  /** The whole listing as `gh` prints it: every file's line ended by a newline. */
  function Listing(files: seq<ChangedFile>): String {
    if files == [] then [] else JoinedLines(files) + Newline
  }

  /** A file `gh` can describe on one line: a path without white space and counts that fit in 64 bits. */
  predicate Describable(f: ChangedFile) {
    f.path != [] && NoSpace(f.path)
      && MinInt64 <= f.additions <= MaxInt64 && MinInt64 <= f.deletions <= MaxInt64
  }

  lemma DecimalNoSpace(i: int)
    ensures NoSpace(IntToDecimal(i))
    ensures '\n' !in IntToDecimal(i)
  {
    var s := IntToDecimal(i);
    if i < 0 {
      assert s == "-" + NatToDecimal(-i);
      assert forall k :: 1 <= k < |s| ==> s[k] == NatToDecimal(-i)[k - 1];
    }
  }

  /** A word alone is the only field. */
  lemma OneField(d: String)
    requires d != [] && NoSpace(d)
    ensures Fields(d) == [d]
  {
    assert Fields([]) == [];
    FieldsCons(d, []);
    assert d + [] == d;
  }

  /** A space and then a word: that word is the only field. */
  lemma SpacedField(d: String)
    requires d != [] && NoSpace(d)
    ensures Fields(" " + d) == [d]
  {
    OneField(d);
    FieldsSkip(" " + d);
    assert (" " + d)[1..] == d;
  }

  /** Two words separated by a space, after a space. */
  lemma SpacedFields(a: String, d: String)
    requires a != [] && d != [] && NoSpace(a) && NoSpace(d)
    ensures Fields(" " + (a + (" " + d))) == [a, d]
  {
    var tail := " " + d;
    var body := a + tail;
    var mid := " " + body;
    assert mid[0] == ' ' && mid[1..] == body;
    FieldsSkip(mid);
    assert tail[0] == ' ';
    FieldsCons(a, tail);
    SpacedField(d);
  }

  /** Three words separated by single spaces are the three fields of the line. */
  lemma ThreeFields(p: String, a: String, d: String)
    requires p != [] && a != [] && d != []
    requires NoSpace(p) && NoSpace(a) && NoSpace(d)
    ensures Fields(p + " " + a + " " + d) == [p, a, d]
  {
    var mid := " " + (a + (" " + d));
    SpacedFields(a, d);
    FieldsCons(p, mid);
    Regroup(p, a, d);
  }

  lemma Regroup(p: String, a: String, d: String)
    ensures p + " " + a + " " + d == p + (" " + (a + (" " + d)))
  {
  }

  /** The three words of a file's line are its path and its two counts. */
  lemma FileLineFields(f: ChangedFile)
    requires Describable(f)
    ensures Fields(FileLine(f)) == [f.path, IntToDecimal(f.additions), IntToDecimal(f.deletions)]
    ensures '\n' !in FileLine(f)
  {
    DecimalNoSpace(f.additions);
    DecimalNoSpace(f.deletions);
    ThreeFields(f.path, IntToDecimal(f.additions), IntToDecimal(f.deletions));
    assert '\n' !in f.path;
  }

  /** A file's line reads back as that file. */
  lemma FileLineParses(f: ChangedFile)
    requires Describable(f)
    ensures ParseFileLine(FileLine(f)) == Some(f)
  {
    var line := FileLine(f);
    FileLineFields(f);
    assert line != [] by {
      assert |Fields(line)| == 3;
    }
    AtoiOfDecimal(f.additions);
    AtoiOfDecimal(f.deletions);
    FieldsParse(line, f.path, f.additions, f.deletions);
  }

  /** A line whose three fields are a path and two decimal counts reads back as that file. */
  lemma FieldsParse(line: String, path: String, additions: int, deletions: int)
    requires line != []
    requires Fields(line) == [path, IntToDecimal(additions), IntToDecimal(deletions)]
    requires Atoi(IntToDecimal(additions)) == Some(additions) && Atoi(IntToDecimal(deletions)) == Some(deletions)
    ensures ParseFileLine(line) == Some(ChangedFile(path, additions, deletions))
  {
  }

  /** The lines `gh` prints, one per file. */
  function FileLines(files: seq<ChangedFile>): (r: seq<String>)
    ensures |r| == |files|
    ensures forall k :: 0 <= k < |r| ==> r[k] == FileLine(files[k])
  {
    seq(|files|, k requires 0 <= k < |files| => FileLine(files[k]))
  }

  /** The lines of the files are the first file's line, then the lines of the rest. */
  lemma FileLinesCons(files: seq<ChangedFile>)
    requires files != []
    ensures FileLines(files) == [FileLine(files[0])] + FileLines(files[1..])
  {
    var rest := files[1..];
    var all, tail := FileLines(files), FileLines(rest);
    forall k | 0 <= k < |tail|
      ensures all[k + 1] == tail[k]
    {
      assert rest[k] == files[k + 1];
    }
    SeqCons(all, FileLine(files[0]), tail);
  }

  /** The joined lines split back into the lines of the files. */
  lemma {:induction false} JoinedLinesSplit(files: seq<ChangedFile>)
    requires |files| > 0
    requires forall k :: 0 <= k < |files| ==> Describable(files[k])
    ensures Lines(JoinedLines(files)) == FileLines(files)
    decreases |files|
  {
    var line := FileLine(files[0]);
    FileLineOneLine(files[0]);
    if |files| == 1 {
      assert Lines(line) == [line] by {
        NotContainsChar(line, Newline, '\n');
      }
    } else {
      var rest := files[1..];
      assert JoinedLines(files) == line + Newline + JoinedLines(rest);
      FileLinesCons(files);
      LinesCons(line, JoinedLines(rest));
      JoinedLinesSplit(rest);
    }
  }

  /** A file's line holds no newline. */
  lemma FileLineOneLine(f: ChangedFile)
    requires Describable(f)
    ensures '\n' !in FileLine(f)
  {
    DecimalNoSpace(f.additions);
    DecimalNoSpace(f.deletions);
    assert '\n' !in f.path;
  }

  /** The joined lines start with a path character and end with a digit. */
  lemma {:induction false} JoinedLinesEnds(files: seq<ChangedFile>)
    requires |files| > 0
    requires forall k :: 0 <= k < |files| ==> Describable(files[k])
    ensures var s := JoinedLines(files); |s| > 0 && s[0] !in Whitespace && s[|s| - 1] !in Whitespace
    decreases |files|
  {
    var f := files[0];
    var d := IntToDecimal(f.deletions);
    DecimalNoSpace(f.deletions);
    assert FileLine(f)[0] == f.path[0];
    assert FileLine(f)[|FileLine(f)| - 1] == d[|d| - 1];
    if |files| > 1 {
      JoinedLinesEnds(files[1..]);
    }
  }

  /** Trimming the listing drops exactly its final newline. */
  lemma TrimmedListing(files: seq<ChangedFile>)
    requires |files| > 0
    requires forall k :: 0 <= k < |files| ==> Describable(files[k])
    ensures TrimSpace(Listing(files)) == JoinedLines(files)
  {
    JoinedLinesEnds(files);
    TrimSpaceNewline(JoinedLines(files));
  }

  /** Parsing the lines of the files gives the files back. */
  lemma {:induction false} ParseFileLinesOfLines(files: seq<ChangedFile>)
    requires forall k :: 0 <= k < |files| ==> Describable(files[k])
    ensures ParseFileLines(FileLines(files)) == files
    decreases |files|
  {
    if files != [] {
      var init, last := files[..|files| - 1], files[|files| - 1];
      assert files == init + [last];
      FileLineParses(last);
      ParseFileLinesOfLines(init);
      ParseOneMoreLine(init, last);
    }
  }

  /** One more file's line parses to one more file. */
  lemma ParseOneMoreLine(init: seq<ChangedFile>, last: ChangedFile)
    requires ParseFileLines(FileLines(init)) == init
    requires ParseFileLine(FileLine(last)) == Some(last)
    ensures ParseFileLines(FileLines(init + [last])) == init + [last]
  {
    FileLinesSnoc(init, last);
    ParseFileLinesSnoc(FileLines(init), FileLine(last));
  }

  /** The lines of one more file are one more line. */
  lemma FileLinesSnoc(init: seq<ChangedFile>, last: ChangedFile)
    ensures FileLines(init + [last]) == FileLines(init) + [FileLine(last)]
  {
    var files := init + [last];
    forall k | 0 <= k < |init|
      ensures FileLines(files)[k] == FileLines(init)[k]
    {
      assert files[k] == init[k];
    }
  }

  /** Parsing one more line appends what that line parses to. */
  lemma ParseFileLinesSnoc(lines: seq<String>, line: String)
    ensures ParseFileLines(lines + [line]) == ParseFileLines(lines) + Found(ParseFileLine(line))
  {
    assert (lines + [line])[..|lines|] == lines;
  }

  /** Round trip: the changed files `fetchPRInfo` reads from a listing are exactly the files listed, in order. */
  lemma ListingRoundTrip(files: seq<ChangedFile>)
    requires forall k :: 0 <= k < |files| ==> Describable(files[k])
    ensures PRInfo(None, Some(Listing(files))).1 == files
  {
    if files == [] {
      assert TrimSpace([]) == [];
      assert Lines([]) == [[]] by {
        assert Index([], Newline) == -1;
      }
    } else {
      TrimmedListing(files);
      JoinedLinesSplit(files);
      ParseFileLinesOfLines(files);
    }
  }
}
