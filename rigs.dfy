/**
 * Rig discovery from the town registry `mayor/rigs.json`: not a JSON
 * parser but a line scanner that switches on at a line mentioning `"rigs"`,
 * tracks a brace depth, and takes the first quoted word of each line at
 * depth 1 that looks like a key as a candidate rig name.
 */
module Rigs {
  import opened Outcome
  import opened Text
  import opened Disk

  /** The scanner's state between lines. */
  datatype ScanState = ScanState(inRigs: bool, depth: int, found: seq<Path>)

  const Start: ScanState := ScanState(false, 0, [])

  const RigsKey: String := "\"rigs\""
  const KeyMark: String := "\":"
  const Quote: String := "\""

  function RegistryPath(townRoot: Path): Path {
    Join3(townRoot, "mayor", "rigs.json")
  }

  /** A rig directory: a non-empty name other than `rigs`, joined below the town, that `os.Stat` reports as a directory. */
  ghost predicate IsRigDir(d: Disk, townRoot: Path, p: Path) {
    IsDirectory(d, p) && exists name :: name != [] && name != "rigs" && p == JoinPath(townRoot, name)
  }

  /** The rig a trimmed key line names: the text between its first two quotes, when it is an existing directory. */
  function Candidate(d: Disk, townRoot: Path, trimmed: String): (r: seq<Path>)
    ensures |r| <= 1
    ensures forall k :: 0 <= k < |r| ==> IsRigDir(d, townRoot, r[k])
  {
    var parts := Split(trimmed, Quote);
    if |parts| >= 2 && parts[1] != [] && parts[1] != "rigs" && IsDirectory(d, JoinPath(townRoot, parts[1])) then
      [JoinPath(townRoot, parts[1])]
    else []
  }

  /**
   * One line of the scan as `discoverRigDirs` does it. A line mentioning
   * `"rigs"` switches scanning on and its braces are not counted;
   * otherwise, while scanning, a `{` raises the depth, a `}` lowers it and
   * switches scanning off once the depth is at most 0, and a line that
   * leaves the depth at 1 and holds `":` is a candidate.
   */
  function Step(d: Disk, townRoot: Path, st: ScanState, line: String): (r: ScanState)
    ensures |st.found| <= |r.found| && r.found[..|st.found|] == st.found
    ensures !st.inRigs && !Contains(TrimSpace(line), RigsKey) ==> r == st
    ensures Contains(TrimSpace(line), RigsKey) ==> r == st.(inRigs := true)
    ensures r.found != st.found ==>
      && st.inRigs && !Contains(TrimSpace(line), RigsKey)
      && r.depth == 1 && Contains(TrimSpace(line), KeyMark)
      && r.found == st.found + Candidate(d, townRoot, TrimSpace(line))
    ensures st.inRigs && !Contains(TrimSpace(line), RigsKey) && Contains(TrimSpace(line), "}") && r.depth <= 0 ==> !r.inRigs
    ensures st.inRigs && !Contains(TrimSpace(line), RigsKey) && !Contains(TrimSpace(line), "}") ==> r.inRigs
  {
    var t := TrimSpace(line);
    if Contains(t, RigsKey) then st.(inRigs := true)
    else if !st.inRigs then st
    else
      var raised := if Contains(t, "{") then st.depth + 1 else st.depth;
      var depth := if Contains(t, "}") then raised - 1 else raised;
      var inRigs := !(Contains(t, "}") && depth <= 0);
      var found := if depth == 1 && Contains(t, KeyMark) then st.found + Candidate(d, townRoot, t) else st.found;
      assert found[..|st.found|] == st.found by {
        if found != st.found {
          AppendKeepsPrefix(st.found, Candidate(d, townRoot, t));
        }
      }
      ScanState(inRigs, depth, found)
  }

  lemma AppendKeepsPrefix(a: seq<Path>, b: seq<Path>)
    ensures (a + b)[..|a|] == a
  {
  }

  /** The state after scanning `lines` from `st`. */
  function Scan(d: Disk, townRoot: Path, st: ScanState, lines: seq<String>): (r: ScanState)
    ensures |st.found| <= |r.found| && r.found[..|st.found|] == st.found
    ensures forall k :: |st.found| <= k < |r.found| ==> IsRigDir(d, townRoot, r.found[k])
    decreases |lines|
  {
    if lines == [] then st
    else
      var before := Scan(d, townRoot, st, lines[..|lines| - 1]);
      var r := Step(d, townRoot, before, lines[|lines| - 1]);
      assert r.found == before.found + Candidate(d, townRoot, TrimSpace(lines[|lines| - 1])) || r.found == before.found;
      r
  }

  /** What `discoverRigDirs` returns as written: nothing when the registry cannot be read. */
  function ScannedRigDirs(d: Disk, townRoot: Path): (r: seq<Path>)
    ensures ReadFile(d, RegistryPath(townRoot)).Err? ==> r == []
    ensures forall k :: 0 <= k < |r| ==> IsRigDir(d, townRoot, r[k])
  {
    match ReadFile(d, RegistryPath(townRoot))
    case Err(_) => []
    case Ok(content) => Scan(d, townRoot, Start, Lines(content)).found
  }

  /** The body of the loop of `discoverRigDirs`: one line of the scan. */
  method ScanLine(d: Disk, townRoot: Path, inRigs: bool, braceDepth: int, rigDirs: seq<Path>, line: String)
    returns (inRigs': bool, braceDepth': int, rigDirs': seq<Path>)
    ensures ScanState(inRigs', braceDepth', rigDirs') == Step(d, townRoot, ScanState(inRigs, braceDepth, rigDirs), line)
  {
    inRigs', braceDepth', rigDirs' := inRigs, braceDepth, rigDirs;
    var trimmed := TrimSpace(line);
    if Contains(trimmed, RigsKey) {
      inRigs' := true;
      return;
    }
    if inRigs {
      if Contains(trimmed, "{") {
        braceDepth' := braceDepth' + 1;
      }
      if Contains(trimmed, "}") {
        braceDepth' := braceDepth' - 1;
        if braceDepth' <= 0 {
          inRigs' := false;
        }
      }
      if braceDepth' == 1 && Contains(trimmed, KeyMark) {
        var parts := Split(trimmed, Quote);
        if |parts| >= 2 {
          var rigName := parts[1];
          if rigName != [] && rigName != "rigs" {
            var rigPath := JoinPath(townRoot, rigName);
            if IsDirectory(d, rigPath) {
              rigDirs' := rigDirs' + [rigPath];
            }
          }
        }
      }
    }
  }

  /** `discoverRigDirs`: one pass over the registry's lines. */
  method DiscoverRigDirs(d: Disk, townRoot: Path) returns (rigDirs: seq<Path>)
    ensures rigDirs == ScannedRigDirs(d, townRoot)
  {
    rigDirs := [];
    var read := ReadFile(d, RegistryPath(townRoot));
    if read.Err? {
      return;
    }
    var lines := Lines(read.value);
    var inRigs := false;
    var braceDepth := 0;
    for i := 0 to |lines|
      invariant Scan(d, townRoot, Start, lines[..i]) == ScanState(inRigs, braceDepth, rigDirs)
    {
      ScanNext(d, townRoot, Start, lines, i);
      inRigs, braceDepth, rigDirs := ScanLine(d, townRoot, inRigs, braceDepth, rigDirs, lines[i]);
    }
    assert lines[..|lines|] == lines;
  }

  /** Once scanning is off, lines that do not mention `"rigs"` collect nothing and leave it off. */
  lemma {:induction false} StaysOff(d: Disk, townRoot: Path, st: ScanState, lines: seq<String>)
    requires !st.inRigs
    requires forall k :: 0 <= k < |lines| ==> !Contains(TrimSpace(lines[k]), RigsKey)
    ensures Scan(d, townRoot, st, lines) == st
    decreases |lines|
  {
    if lines != [] {
      StaysOff(d, townRoot, st, lines[..|lines| - 1]);
    }
  }

  /** Scanning more lines only adds rigs after those already found. */
  lemma {:induction false} ScanAppend(d: Disk, townRoot: Path, st: ScanState, a: seq<String>, b: seq<String>)
    ensures Scan(d, townRoot, st, a + b) == Scan(d, townRoot, Scan(d, townRoot, st, a), b)
    decreases |b|
  {
    if b == [] {
      assert a + b == a;
    } else {
      var init := b[..|b| - 1];
      assert (a + b)[..|a + b| - 1] == a + init;
      assert (a + b)[|a + b| - 1] == b[|b| - 1];
      ScanAppend(d, townRoot, st, a, init);
    }
  }

  /** Scanning one more line is one more step. */
  lemma ScanNext(d: Disk, townRoot: Path, st: ScanState, lines: seq<String>, n: nat)
    requires n < |lines|
    ensures Scan(d, townRoot, st, lines[..n + 1]) == Step(d, townRoot, Scan(d, townRoot, st, lines[..n]), lines[n])
  {
    assert lines[..n + 1][..n] == lines[..n];
  }

  /** The lines that open a registry, up to the end of its first rig's entry, by what the scanner sees of them. */
  predicate OpensFirstRig(lines: seq<String>, name: String) {
    |lines| == 4
    && !Contains(TrimSpace(lines[0]), RigsKey)
    && Contains(TrimSpace(lines[1]), RigsKey)
    && RigKeyLine(TrimSpace(lines[2]), name)
    && EntryClose(TrimSpace(lines[3]))
  }

  /** A trimmed line opening the entry of rig `name`. */
  predicate RigKeyLine(t: String, name: String) {
    !Contains(t, RigsKey) && Contains(t, "{") && !Contains(t, "}") && Contains(t, KeyMark)
      && |Split(t, Quote)| >= 2 && Split(t, Quote)[1] == name
  }

  /** A trimmed line closing an entry. */
  predicate EntryClose(t: String) {
    !Contains(t, RigsKey) && !Contains(t, "{") && Contains(t, "}") && !Contains(t, KeyMark)
  }

  /** The opening of the registry, up to the end of the first rig's entry: that rig is found and scanning stops. */
  lemma FirstRigScanned(d: Disk, townRoot: Path, lines: seq<String>, name: String)
    requires OpensFirstRig(lines, name)
    requires PlainName(name)
    ensures Scan(d, townRoot, Start, lines) == ScanState(false, 0, DirsOf(d, townRoot, [name]))
  {
    OpeningScanned(d, townRoot, lines);
    FirstEntryScanned(d, townRoot, lines, name);
    ScanWhole(d, townRoot, Start, lines);
  }

  lemma ScanWhole(d: Disk, townRoot: Path, st: ScanState, lines: seq<String>)
    ensures Scan(d, townRoot, st, lines[..|lines|]) == Scan(d, townRoot, st, lines)
  {
    assert lines[..|lines|] == lines;
  }

  /** The two lines up to the one mentioning `"rigs"` switch scanning on. */
  lemma OpeningScanned(d: Disk, townRoot: Path, lines: seq<String>)
    requires |lines| >= 2 && !Contains(TrimSpace(lines[0]), RigsKey) && Contains(TrimSpace(lines[1]), RigsKey)
    ensures Scan(d, townRoot, Start, lines[..2]) == ScanState(true, 0, [])
  {
    PrefixQuiet(d, townRoot, lines);
    PrefixRigs(d, townRoot, lines, 1, Start);
  }

  /** After the opening, the first rig's key line and its closing line find that rig and switch scanning off. */
  lemma FirstEntryScanned(d: Disk, townRoot: Path, lines: seq<String>, name: String)
    requires |lines| == 4 && Scan(d, townRoot, Start, lines[..2]) == ScanState(true, 0, [])
    requires RigKeyLine(TrimSpace(lines[2]), name) && PlainName(name) && EntryClose(TrimSpace(lines[3]))
    ensures Scan(d, townRoot, Start, lines[..4]) == ScanState(false, 0, DirsOf(d, townRoot, [name]))
  {
    PrefixKey(d, townRoot, lines, 2, name);
    PrefixClose(d, townRoot, lines, 3, ScanState(true, 1, DirsOf(d, townRoot, [name])));
  }

  /** A first line without `"rigs"` leaves the scan where it started. */
  lemma PrefixQuiet(d: Disk, townRoot: Path, lines: seq<String>)
    requires |lines| >= 1 && !Contains(TrimSpace(lines[0]), RigsKey)
    ensures Scan(d, townRoot, Start, lines[..1]) == Start
  {
    assert lines[..0] == [];
    ScanNext(d, townRoot, Start, lines, 0);
  }

  /** Line `n` mentioning `"rigs"` switches scanning on. */
  lemma PrefixRigs(d: Disk, townRoot: Path, lines: seq<String>, n: nat, st: ScanState)
    requires n < |lines| && Scan(d, townRoot, Start, lines[..n]) == st && Contains(TrimSpace(lines[n]), RigsKey)
    ensures Scan(d, townRoot, Start, lines[..n + 1]) == st.(inRigs := true)
  {
    ScanNext(d, townRoot, Start, lines, n);
    StepRigs(d, townRoot, st, lines[n]);
  }

  /** Line `n` opening rig `name`'s entry at depth 0 finds that rig. */
  lemma PrefixKey(d: Disk, townRoot: Path, lines: seq<String>, n: nat, name: String)
    requires n < |lines| && Scan(d, townRoot, Start, lines[..n]) == ScanState(true, 0, [])
    requires RigKeyLine(TrimSpace(lines[n]), name) && PlainName(name)
    ensures Scan(d, townRoot, Start, lines[..n + 1]) == ScanState(true, 1, DirsOf(d, townRoot, [name]))
  {
    ScanNext(d, townRoot, Start, lines, n);
    StepOpenKey(d, townRoot, ScanState(true, 0, []), lines[n]);
    CandidateOf(d, townRoot, TrimSpace(lines[n]), name);
  }

  /** Line `n` closing an entry at depth 1 switches scanning off. */
  lemma PrefixClose(d: Disk, townRoot: Path, lines: seq<String>, n: nat, st: ScanState)
    requires n < |lines| && Scan(d, townRoot, Start, lines[..n]) == st && st.inRigs && st.depth == 1
    requires EntryClose(TrimSpace(lines[n]))
    ensures Scan(d, townRoot, Start, lines[..n + 1]) == ScanState(false, 0, st.found)
  {
    ScanNext(d, townRoot, Start, lines, n);
    StepClose(d, townRoot, st, lines[n]);
  }

  /** A line mentioning `"rigs"` switches scanning on and changes nothing else. */
  lemma StepRigs(d: Disk, townRoot: Path, st: ScanState, l: String)
    requires Contains(TrimSpace(l), RigsKey)
    ensures Step(d, townRoot, st, l) == st.(inRigs := true)
  {
  }

  /** A `}` without `{` at depth 1 ends the scan. */
  lemma StepClose(d: Disk, townRoot: Path, st: ScanState, l: String)
    requires st.inRigs && st.depth == 1
    requires !Contains(TrimSpace(l), RigsKey) && !Contains(TrimSpace(l), "{") && Contains(TrimSpace(l), "}")
    ensures Step(d, townRoot, st, l) == ScanState(false, 0, st.found)
  {
  }

  /** A key line opening an entry at depth 0 is the rig it names, at depth 1. */
  lemma StepOpenKey(d: Disk, townRoot: Path, st: ScanState, l: String)
    requires st.inRigs && st.depth == 0
    requires !Contains(TrimSpace(l), RigsKey) && Contains(TrimSpace(l), "{") && !Contains(TrimSpace(l), "}")
    requires Contains(TrimSpace(l), KeyMark)
    ensures Step(d, townRoot, st, l) == ScanState(true, 1, st.found + Candidate(d, townRoot, TrimSpace(l)))
  {
  }

  /** A line that begins and ends outside white space is its own trimmed form. */
  lemma Untrimmed(l: String)
    requires l != [] && l[0] !in Whitespace && l[|l| - 1] !in Whitespace
    ensures TrimSpace(l) == l
  {
    TrimUnchanged(l, Whitespace);
  }

  lemma LacksR(l: String)
    requires 'r' !in l
    ensures !Contains(l, RigsKey)
  {
    NotContainsChar(l, RigsKey, 'r');
  }

  /** A line without an `r` that begins and ends outside white space does not mention `"rigs"`. */
  lemma NotRigsLine(l: String)
    requires l != [] && l[0] !in Whitespace && l[|l| - 1] !in Whitespace && 'r' !in l
    ensures !Contains(TrimSpace(l), RigsKey)
  {
    Untrimmed(l);
    LacksR(l);
  }

  /** The line that opens the `rigs` object. */
  const RigsLine: String := RigsKey + ": {"

  lemma RigsLineSeen(l: String)
    requires l == RigsLine
    ensures Contains(TrimSpace(l), RigsKey) && Contains(TrimSpace(l), "{") && !Contains(TrimSpace(l), "}")
  {
    assert l[0] == '"' && l[|l| - 1] == '{';
    Untrimmed(l);
    RigsLineMarks(l);
  }

  lemma RigsLineMarks(l: String)
    requires l == RigsLine
    ensures Contains(l, RigsKey) && Contains(l, "{") && !Contains(l, "}")
  {
    assert l[..|RigsKey|] == RigsKey;
    assert OccursAt(l, RigsKey, 0);
    assert OccursAt(l, "{", |l| - 1);
    NotContainsChar(l, "}", '}');
  }

  /** The line opening the empty entry of rig `name`, one brace per line. */
  function KeyLine(name: String): String {
    Quote + name + KeyMark + " {"
  }

  /** The line closing an entry: with a comma unless it is the last. */
  function Closer(last: bool): String {
    if last then "}" else "},"
  }

  /** The entries of the `rigs` object, one pair of lines per name. */
  function Entries(names: seq<String>): (r: seq<String>)
    ensures |r| == 2 * |names|
  {
    if names == [] then [] else [KeyLine(names[0]), Closer(|names| == 1)] + Entries(names[1..])
  }

  const RegistryHead: seq<String> := ["{", RigsLine]
  const RegistryTail: seq<String> := ["}", "}"]

  /** A registry holding only the `rigs` object with an empty entry per name, one brace per line. */
  function Registry(names: seq<String>): seq<String> {
    RegistryHead + Entries(names) + RegistryTail
  }

  /** A name the registry can hold as a key without escaping and that the scanner does not refuse. */
  predicate PlainName(name: String) {
    name != [] && name != "rigs" && '"' !in name && '}' !in name
  }

  /** The rigs among `names` that are directories below the town, in order. */
  function DirsOf(d: Disk, townRoot: Path, names: seq<String>): seq<Path> {
    if names == [] then []
    else
      var p := JoinPath(townRoot, names[0]);
      (if IsDirectory(d, p) then [p] else []) + DirsOf(d, townRoot, names[1..])
  }

  lemma KeyLineTrimmed(name: String)
    ensures TrimSpace(KeyLine(name)) == KeyLine(name)
  {
    var l := KeyLine(name);
    assert l[0] == '"' && l[|l| - 1] == '{';
    Untrimmed(l);
  }

  /** The only quotes of a key line are the two around the name, so `"rigs"` occurs nowhere in it. */
  lemma NoRigsAt(name: String, k: nat)
    requires PlainName(name)
    ensures !OccursAt(KeyLine(name), RigsKey, k)
  {
    var l := KeyLine(name);
    var n := |name|;
    assert |l| == n + 5;
    assert l[1..n + 1] == name;
    if k + 6 <= |l| {
      var w := l[k..k + 6];
      if k == 0 {
        if n == 4 {
          assert w[1..5] == name;
          assert RigsKey[1..5] == "rigs";
        } else if n < 4 {
          assert l[n + 2] == ':' && l[n + 3] == ' ' && l[n + 4] == '{';
          assert w[5] == l[5] != '"';
        } else {
          assert w[5] == l[5] == name[4];
        }
      } else {
        assert w[0] == l[k] == name[k - 1];
      }
    }
  }

  lemma KeyLineNotRigs(name: String)
    requires PlainName(name)
    ensures !Contains(KeyLine(name), RigsKey)
  {
    var k := Index(KeyLine(name), RigsKey);
    if k != -1 {
      NoRigsAt(name, k);
    }
  }

  lemma KeyLineMarks(name: String)
    requires PlainName(name)
    ensures Contains(KeyLine(name), "{") && !Contains(KeyLine(name), "}") && Contains(KeyLine(name), KeyMark)
  {
    var l := KeyLine(name);
    assert OccursAt(l, "{", |l| - 1);
    assert OccursAt(l, KeyMark, |name| + 1);
    NotContainsChar(l, "}", '}');
  }

  lemma KeyLineSplit(name: String)
    requires PlainName(name)
    ensures |Split(KeyLine(name), Quote)| >= 2 && Split(KeyLine(name), Quote)[1] == name
  {
    var l := KeyLine(name);
    assert l == [] + Quote + (name + Quote + ": {");
    SplitAtFirst([], Quote, name + Quote + ": {");
    NotContainsChar(name, Quote, '"');
    assert name + Quote[..0] == name;
    SplitAtFirst(name, Quote, ": {");
  }

  /** The candidate of a key line is its rig, when that is a directory. */
  lemma CandidateOf(d: Disk, townRoot: Path, t: String, name: String)
    requires RigKeyLine(t, name) && PlainName(name)
    ensures Candidate(d, townRoot, t) == DirsOf(d, townRoot, [name])
  {
    assert [name][1..] == [];
  }

  /** What the scanner sees of a key line. */
  lemma KeyLineSeen(d: Disk, townRoot: Path, name: String)
    requires PlainName(name)
    ensures RigKeyLine(TrimSpace(KeyLine(name)), name)
    ensures Candidate(d, townRoot, TrimSpace(KeyLine(name))) == DirsOf(d, townRoot, [name])
  {
    KeyLineTrimmed(name);
    KeyLineNotRigs(name);
    KeyLineMarks(name);
    KeyLineSplit(name);
    CandidateOf(d, townRoot, TrimSpace(KeyLine(name)), name);
  }

  lemma CloserMarks(l: String)
    requires l == "}" || l == "},"
    ensures !Contains(l, RigsKey) && !Contains(l, "{") && Contains(l, "}") && !Contains(l, KeyMark)
  {
    NotContainsChar(l, RigsKey, 'r');
    NotContainsChar(l, "{", '{');
    NotContainsChar(l, KeyMark, ':');
    assert OccursAt(l, "}", 0);
  }

  /** What the scanner sees of a closing line. */
  lemma CloserSeen(l: String)
    requires l == "}" || l == "},"
    ensures EntryClose(TrimSpace(l))
  {
    assert l[0] == '}' && l[|l| - 1] in {'}', ','};
    Untrimmed(l);
    CloserMarks(l);
  }

  /** None of `lines` mentions `"rigs"`. */
  predicate OffLines(lines: seq<String>) {
    forall k :: 0 <= k < |lines| ==> !Contains(TrimSpace(lines[k]), RigsKey)
  }

  lemma OffConcat(a: seq<String>, b: seq<String>)
    requires OffLines(a) && OffLines(b)
    ensures OffLines(a + b)
  {
    forall k | 0 <= k < |a + b|
      ensures !Contains(TrimSpace((a + b)[k]), RigsKey)
    {
      if k >= |a| {
        assert (a + b)[k] == b[k - |a|];
      }
    }
  }

  /** A registry is its head, its entries and its tail. */
  lemma RegistryShape(names: seq<String>)
    ensures var r := Registry(names);
      |r| == 2 * |names| + 4 && r[..2] == RegistryHead && r[2..|r| - 2] == Entries(names) && r[|r| - 2..] == RegistryTail
  {
  }

  lemma HeadSeen(h: seq<String>)
    requires h == RegistryHead
    ensures |h| == 2 && !Contains(TrimSpace(h[0]), RigsKey)
    ensures Contains(TrimSpace(h[1]), RigsKey) && Contains(TrimSpace(h[1]), "{") && !Contains(TrimSpace(h[1]), "}")
  {
    OpeningSeen(h[0]);
    RigsLineSeen(h[1]);
  }

  lemma OpeningSeen(l: String)
    requires l == "{"
    ensures !Contains(TrimSpace(l), RigsKey)
  {
    NotRigsLine(l);
  }

  lemma TailSeen(t: seq<String>)
    requires t == RegistryTail
    ensures |t| == 2 && EntryClose(TrimSpace(t[0])) && EntryClose(TrimSpace(t[1]))
  {
    CloserSeen(t[0]);
  }

  /** The two lines of the first entry mention no `"rigs"`. */
  lemma PairOff(d: Disk, townRoot: Path, names: seq<String>)
    requires names != [] && PlainName(names[0])
    ensures OffLines(Entries(names)[..2])
  {
    PairSeen(d, townRoot, names);
    var e := Entries(names);
    assert e[..2] == [e[0], e[1]];
    OffPair(e[0], e[1]);
  }

  lemma OffPair(a: String, b: String)
    requires !Contains(TrimSpace(a), RigsKey) && !Contains(TrimSpace(b), RigsKey)
    ensures OffLines([a, b])
  {
  }

  /** No line of the entries mentions `"rigs"`. */
  lemma {:induction false} EntriesNotRigs(d: Disk, townRoot: Path, names: seq<String>)
    requires forall k :: 0 <= k < |names| ==> PlainName(names[k])
    ensures OffLines(Entries(names))
    decreases |names|
  {
    if names != [] {
      EntriesShape(names);
      PairOff(d, townRoot, names);
      EntriesNotRigs(d, townRoot, names[1..]);
      OffConcat(Entries(names)[..2], Entries(names[1..]));
    }
  }

  /** As written, an empty `rigs` object closes with scanning switched off and nothing found. */
  lemma EmptyScanned(d: Disk, townRoot: Path, lines: seq<String>)
    requires |lines| == 4 && !Contains(TrimSpace(lines[0]), RigsKey) && Contains(TrimSpace(lines[1]), RigsKey)
    requires EntryClose(TrimSpace(lines[2])) && !Contains(TrimSpace(lines[3]), RigsKey)
    ensures Scan(d, townRoot, Start, lines).found == []
  {
    OpeningScanned(d, townRoot, lines);
    PrefixCloseEmpty(d, townRoot, lines, 2);
    PrefixOff(d, townRoot, lines, 3, ScanState(false, -1, []));
    ScanWhole(d, townRoot, Start, lines);
  }

  /** Line `n` closing the empty `rigs` object at depth 0 switches scanning off. */
  lemma PrefixCloseEmpty(d: Disk, townRoot: Path, lines: seq<String>, n: nat)
    requires n < |lines| && Scan(d, townRoot, Start, lines[..n]) == ScanState(true, 0, [])
    requires EntryClose(TrimSpace(lines[n]))
    ensures Scan(d, townRoot, Start, lines[..n + 1]) == ScanState(false, -1, [])
  {
    ScanNext(d, townRoot, Start, lines, n);
    StepCloseEmpty(d, townRoot, ScanState(true, 0, []), lines[n]);
  }

  /** With scanning off, a line without `"rigs"` changes nothing. */
  lemma PrefixOff(d: Disk, townRoot: Path, lines: seq<String>, n: nat, st: ScanState)
    requires n < |lines| && Scan(d, townRoot, Start, lines[..n]) == st && !st.inRigs
    requires !Contains(TrimSpace(lines[n]), RigsKey)
    ensures Scan(d, townRoot, Start, lines[..n + 1]) == st
  {
    ScanNext(d, townRoot, Start, lines, n);
  }

  /** A closing line at depth 0 switches scanning off and leaves the depth at -1. */
  lemma StepCloseEmpty(d: Disk, townRoot: Path, st: ScanState, l: String)
    requires st.inRigs && st.depth == 0 && EntryClose(TrimSpace(l))
    ensures Step(d, townRoot, st, l) == ScanState(false, -1, st.found)
  {
  }

  /** A registry of at least one rig: its head with the first entry, then the rest. */
  lemma RegistrySplit(names: seq<String>)
    requires names != []
    ensures Registry(names) == (RegistryHead + Entries(names)[..2]) + (Entries(names[1..]) + RegistryTail)
  {
    EntriesShape(names);
  }

  /** What the scanner sees of the head of a registry and its first entry. */
  lemma HeadOpens(d: Disk, townRoot: Path, names: seq<String>)
    requires names != [] && PlainName(names[0])
    ensures OpensFirstRig(RegistryHead + Entries(names)[..2], names[0])
  {
    var h, e := RegistryHead, Entries(names);
    var lines := h + e[..2];
    assert |lines| == 4 && lines[0] == h[0] && lines[1] == h[1] && lines[2] == e[0] && lines[3] == e[1];
    HeadSeen(h);
    PairSeen(d, townRoot, names);
  }

  /** No line after the first entry mentions `"rigs"`. */
  lemma RestOff(d: Disk, townRoot: Path, names: seq<String>)
    requires names != [] && forall k :: 0 <= k < |names| ==> PlainName(names[k])
    ensures OffLines(Entries(names[1..]) + RegistryTail)
  {
    EntriesNotRigs(d, townRoot, names[1..]);
    TailSeen(RegistryTail);
    OffConcat(Entries(names[1..]), RegistryTail);
  }

  /** An empty `rigs` object as the scanner sees it. */
  lemma EmptyRegistrySeen(r: seq<String>)
    requires r == Registry([])
    ensures |r| == 4 && !Contains(TrimSpace(r[0]), RigsKey) && Contains(TrimSpace(r[1]), RigsKey)
    ensures EntryClose(TrimSpace(r[2])) && !Contains(TrimSpace(r[3]), RigsKey)
  {
    var h, t := RegistryHead, RegistryTail;
    assert Entries([]) == [];
    assert r == h + t;
    assert r[0] == h[0] && r[1] == h[1] && r[2] == t[0] && r[3] == t[1];
    HeadSeen(h);
    TailSeen(t);
  }

  /**
   * As written, the scan of a registry stops at the end of the first
   * entry: of the rigs it lists, only the first can be found.
   */
  lemma ScanFindsOnlyFirst(d: Disk, townRoot: Path, names: seq<String>)
    requires forall k :: 0 <= k < |names| ==> PlainName(names[k])
    ensures Scan(d, townRoot, Start, Registry(names)).found == DirsOf(d, townRoot, names[..if names == [] then 0 else 1])
  {
    if names == [] {
      EmptyRegistrySeen(Registry(names));
      EmptyScanned(d, townRoot, Registry(names));
    } else {
      var head := RegistryHead + Entries(names)[..2];
      var rest := Entries(names[1..]) + RegistryTail;
      assert names[..1] == [names[0]];
      RegistrySplit(names);
      ScanAppend(d, townRoot, Start, head, rest);
      HeadScanned(d, townRoot, names);
      RestOff(d, townRoot, names);
      StaysOff(d, townRoot, Scan(d, townRoot, Start, head), rest);
    }
  }

  lemma HeadScanned(d: Disk, townRoot: Path, names: seq<String>)
    requires names != [] && PlainName(names[0])
    ensures Scan(d, townRoot, Start, RegistryHead + Entries(names)[..2]) == ScanState(false, 0, DirsOf(d, townRoot, [names[0]]))
  {
    HeadOpens(d, townRoot, names);
    FirstRigScanned(d, townRoot, RegistryHead + Entries(names)[..2], names[0]);
  }

  /**
   * One line of the corrected scan: the braces on the `"rigs"` line are
   * counted from 0, so the `rigs` object itself is depth 1, and a line is
   * a candidate when it begins at depth 1, directly inside that object.
   */
  function FixedStep(d: Disk, townRoot: Path, st: ScanState, line: String): (r: ScanState)
    ensures |st.found| <= |r.found| && r.found[..|st.found|] == st.found
  {
    var t := TrimSpace(line);
    if !st.inRigs && !Contains(t, RigsKey) then st
    else
      var from := if Contains(t, RigsKey) then 0 else st.depth;
      var raised := if Contains(t, "{") then from + 1 else from;
      var depth := if Contains(t, "}") then raised - 1 else raised;
      var inRigs := !(Contains(t, "}") && depth <= 0);
      var found := if !Contains(t, RigsKey) && st.depth == 1 && Contains(t, KeyMark) then st.found + Candidate(d, townRoot, t) else st.found;
      assert found[..|st.found|] == st.found;
      ScanState(inRigs, depth, found)
  }

  function FixedScan(d: Disk, townRoot: Path, st: ScanState, lines: seq<String>): (r: ScanState)
    ensures |st.found| <= |r.found| && r.found[..|st.found|] == st.found
    ensures forall k :: |st.found| <= k < |r.found| ==> IsRigDir(d, townRoot, r.found[k])
    decreases |lines|
  {
    if lines == [] then st
    else
      var before := FixedScan(d, townRoot, st, lines[..|lines| - 1]);
      var r := FixedStep(d, townRoot, before, lines[|lines| - 1]);
      assert r.found == before.found + Candidate(d, townRoot, TrimSpace(lines[|lines| - 1])) || r.found == before.found;
      r
  }

  /** The rig directories the registry lists, found by the corrected scan: nothing when it cannot be read. */
  function RigDirs(d: Disk, townRoot: Path): (r: seq<Path>)
    ensures ReadFile(d, RegistryPath(townRoot)).Err? ==> r == []
    ensures forall k :: 0 <= k < |r| ==> IsRigDir(d, townRoot, r[k])
  {
    match ReadFile(d, RegistryPath(townRoot))
    case Err(_) => []
    case Ok(content) => FixedScan(d, townRoot, Start, Lines(content)).found
  }

  lemma FixedScanNext(d: Disk, townRoot: Path, st: ScanState, lines: seq<String>, n: nat)
    requires n < |lines|
    ensures FixedScan(d, townRoot, st, lines[..n + 1]) == FixedStep(d, townRoot, FixedScan(d, townRoot, st, lines[..n]), lines[n])
  {
    assert lines[..n + 1][..n] == lines[..n];
  }

  lemma {:induction false} FixedScanAppend(d: Disk, townRoot: Path, st: ScanState, a: seq<String>, b: seq<String>)
    ensures FixedScan(d, townRoot, st, a + b) == FixedScan(d, townRoot, FixedScan(d, townRoot, st, a), b)
    decreases |b|
  {
    if b == [] {
      assert a + b == a;
    } else {
      var init := b[..|b| - 1];
      assert (a + b)[..|a + b| - 1] == a + init;
      assert (a + b)[|a + b| - 1] == b[|b| - 1];
      FixedScanAppend(d, townRoot, st, a, init);
    }
  }

  /** The corrected scan of one entry directly inside the `rigs` object finds its rig and returns to depth 1. */
  lemma FixedEntry(d: Disk, townRoot: Path, f: seq<Path>, lines: seq<String>, name: String)
    requires |lines| == 2 && RigKeyLine(TrimSpace(lines[0]), name) && EntryClose(TrimSpace(lines[1]))
    requires PlainName(name)
    ensures FixedScan(d, townRoot, ScanState(true, 1, f), lines) == ScanState(true, 1, f + DirsOf(d, townRoot, [name]))
  {
    var st := ScanState(true, 1, f);
    CandidateOf(d, townRoot, TrimSpace(lines[0]), name);
    assert lines[..0] == [];
    FixedScanNext(d, townRoot, st, lines, 0);
    var s1 := ScanState(true, 2, f + DirsOf(d, townRoot, [name]));
    assert FixedScan(d, townRoot, st, lines[..1]) == s1;
    FixedScanNext(d, townRoot, st, lines, 1);
    assert lines[..2] == lines;
  }

  /** The entries begin with the first name's two lines. */
  lemma EntriesShape(names: seq<String>)
    requires names != []
    ensures var e := Entries(names);
      e[0] == KeyLine(names[0]) && e[1] == Closer(|names| == 1) && e == e[..2] + Entries(names[1..])
  {
  }

  lemma KeySeen(d: Disk, townRoot: Path, l: String, name: String)
    requires l == KeyLine(name) && PlainName(name)
    ensures RigKeyLine(TrimSpace(l), name)
  {
    KeyLineSeen(d, townRoot, name);
  }

  lemma CloseSeen(l: String, last: bool)
    requires l == Closer(last)
    ensures EntryClose(TrimSpace(l))
  {
    CloserSeen(l);
  }

  /** What the scanner sees of the two lines of an entry. */
  lemma PairSeen(d: Disk, townRoot: Path, names: seq<String>)
    requires names != [] && PlainName(names[0])
    ensures var e := Entries(names);
      RigKeyLine(TrimSpace(e[0]), names[0]) && EntryClose(TrimSpace(e[1]))
      && e == e[..2] + Entries(names[1..])
  {
    EntriesShape(names);
    var e := Entries(names);
    KeySeen(d, townRoot, e[0], names[0]);
    CloseSeen(e[1], |names| == 1);
  }

  /** The corrected scan of the first entry of `names`. */
  lemma FirstEntry(d: Disk, townRoot: Path, f: seq<Path>, names: seq<String>)
    requires names != [] && PlainName(names[0])
    ensures var e := Entries(names);
      && e == e[..2] + Entries(names[1..])
      && FixedScan(d, townRoot, ScanState(true, 1, f), e[..2]) == ScanState(true, 1, f + DirsOf(d, townRoot, [names[0]]))
  {
    PairSeen(d, townRoot, names);
    var e := Entries(names);
    FixedEntry(d, townRoot, f, e[..2], names[0]);
  }

  lemma DirsOfCons(d: Disk, townRoot: Path, names: seq<String>)
    requires names != []
    ensures DirsOf(d, townRoot, names) == DirsOf(d, townRoot, [names[0]]) + DirsOf(d, townRoot, names[1..])
  {
    assert [names[0]][1..] == [];
  }

  lemma {:induction false} FixedEntries(d: Disk, townRoot: Path, f: seq<Path>, names: seq<String>)
    requires forall k :: 0 <= k < |names| ==> PlainName(names[k])
    ensures FixedScan(d, townRoot, ScanState(true, 1, f), Entries(names)) == ScanState(true, 1, f + DirsOf(d, townRoot, names))
    decreases |names|
  {
    if names == [] {
      assert f + [] == f;
    } else {
      FixedEntries(d, townRoot, f + DirsOf(d, townRoot, [names[0]]), names[1..]);
      FixedEntriesStep(d, townRoot, f, names);
    }
  }

  /** The first entry scanned in front of the others. */
  lemma FixedEntriesStep(d: Disk, townRoot: Path, f: seq<Path>, names: seq<String>)
    requires names != [] && PlainName(names[0])
    requires var first := DirsOf(d, townRoot, [names[0]]);
      FixedScan(d, townRoot, ScanState(true, 1, f + first), Entries(names[1..]))
        == ScanState(true, 1, f + first + DirsOf(d, townRoot, names[1..]))
    ensures FixedScan(d, townRoot, ScanState(true, 1, f), Entries(names)) == ScanState(true, 1, f + DirsOf(d, townRoot, names))
  {
    var e := Entries(names);
    var first := DirsOf(d, townRoot, [names[0]]);
    var rest := DirsOf(d, townRoot, names[1..]);
    FirstEntry(d, townRoot, f, names);
    FixedScanChain(d, townRoot, ScanState(true, 1, f), e[..2], Entries(names[1..]),
                   ScanState(true, 1, f + first), ScanState(true, 1, f + first + rest));
    DirsOfCons(d, townRoot, names);
    AppendAssoc(f, first, rest);
  }

  /** Scanning two runs of lines one after the other. */
  lemma FixedScanChain(d: Disk, townRoot: Path, st: ScanState, a: seq<String>, b: seq<String>, mid: ScanState, end: ScanState)
    requires FixedScan(d, townRoot, st, a) == mid && FixedScan(d, townRoot, mid, b) == end
    ensures FixedScan(d, townRoot, st, a + b) == end
  {
    FixedScanAppend(d, townRoot, st, a, b);
  }

  /** The corrected scan of the head enters the `rigs` object at depth 1. */
  lemma FixedHead(d: Disk, townRoot: Path, h: seq<String>)
    requires |h| == 2 && !Contains(TrimSpace(h[0]), RigsKey)
    requires Contains(TrimSpace(h[1]), RigsKey) && Contains(TrimSpace(h[1]), "{") && !Contains(TrimSpace(h[1]), "}")
    ensures FixedScan(d, townRoot, Start, h) == ScanState(true, 1, [])
  {
    assert h[..0] == [] && h[..2] == h;
    FixedScanNext(d, townRoot, Start, h, 0);
    FixedScanNext(d, townRoot, Start, h, 1);
  }

  /** The corrected scan of the tail leaves the `rigs` object and finds nothing more. */
  lemma FixedTail(d: Disk, townRoot: Path, f: seq<Path>, t: seq<String>)
    requires |t| == 2 && EntryClose(TrimSpace(t[0])) && EntryClose(TrimSpace(t[1]))
    ensures FixedScan(d, townRoot, ScanState(true, 1, f), t).found == f
  {
    var st := ScanState(true, 1, f);
    assert t[..0] == [] && t[..2] == t;
    FixedScanNext(d, townRoot, st, t, 0);
    assert FixedScan(d, townRoot, st, t[..1]) == ScanState(false, 0, f);
    FixedScanNext(d, townRoot, st, t, 1);
  }

  /** The corrected scan finds every rig the registry lists that is a directory, in order. */
  lemma FixedScanFindsAll(d: Disk, townRoot: Path, names: seq<String>)
    requires forall k :: 0 <= k < |names| ==> PlainName(names[k])
    ensures FixedScan(d, townRoot, Start, Registry(names)).found == DirsOf(d, townRoot, names)
  {
    var r := Registry(names);
    RegistryShape(names);
    var h, e, t := r[..2], r[2..|r| - 2], r[|r| - 2..];
    HeadSeen(h);
    TailSeen(t);
    assert r == h + e + t;
    FixedHead(d, townRoot, h);
    FixedScanAppend(d, townRoot, Start, h, e);
    FixedEntries(d, townRoot, [], names);
    FixedScanAppend(d, townRoot, Start, h + e, t);
    FixedTail(d, townRoot, DirsOf(d, townRoot, names), t);
  }

  /** Two rigs `a` and `b`, both directories: the corrected scan finds both, the scan as written only `a`. */
  lemma SecondRigMissed(d: Disk, townRoot: Path)
    requires IsDirectory(d, JoinPath(townRoot, "a")) && IsDirectory(d, JoinPath(townRoot, "b"))
    ensures Scan(d, townRoot, Start, Registry(["a", "b"])).found == [JoinPath(townRoot, "a")]
    ensures FixedScan(d, townRoot, Start, Registry(["a", "b"])).found == [JoinPath(townRoot, "a"), JoinPath(townRoot, "b")]
  {
    var names := ["a", "b"];
    TwoDirs(d, townRoot, names);
    ScanFindsOnlyFirst(d, townRoot, names);
    FixedScanFindsAll(d, townRoot, names);
  }

  lemma TwoDirs(d: Disk, townRoot: Path, names: seq<String>)
    requires names == ["a", "b"]
    requires IsDirectory(d, JoinPath(townRoot, "a")) && IsDirectory(d, JoinPath(townRoot, "b"))
    ensures forall k :: 0 <= k < |names| ==> PlainName(names[k])
    ensures DirsOf(d, townRoot, names[..1]) == [JoinPath(townRoot, "a")]
    ensures DirsOf(d, townRoot, names) == [JoinPath(townRoot, "a"), JoinPath(townRoot, "b")]
  {
    assert names[..1] == ["a"] && names[1..] == ["b"] && names[1..][1..] == [];
  }
}
