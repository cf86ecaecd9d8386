/**
 * The doctor checks over a town's layout: which top-level directories are
 * rigs, that every rig has a `settings/` directory, that `.runtime` is
 * ignored by git at the town and in every crew clone, and that no
 * `.gastown/` directory from an old layout is left behind.
 */
module ConfigDoctor {
  import opened Outcome
  import opened Text
  import opened Disk
  import opened Checks

  // ---------------------------------------------------------------------
  // findAllRigs
  // ---------------------------------------------------------------------

  /** The sub-directories whose presence makes a directory a rig, in the order they are tried. */
  const RigMarkers: seq<String> := ["crew", "polecats", "witness", "refinery"]

  /** Top-level names that are never rigs: the mayor's directory, `.beads` and every hidden name. */
  predicate SkippedName(name: String) {
    name == "mayor" || name == ".beads" || HasPrefix(name, ".")
  }

  /** `os.Stat` finds one of the rig markers below `rigPath`. */
  predicate HasMarker(d: Disk, rigPath: Path) {
    exists m :: m in RigMarkers && Exists(d, JoinPath(rigPath, m))
  }

  /** A listing entry of the town that `findAllRigs` keeps. */
  predicate IsRigEntry(d: Disk, townRoot: Path, e: DirEntry) {
    e.isDir && !SkippedName(e.name) && HasMarker(d, JoinPath(townRoot, e.name))
  }

  /** The rig paths of a town listing, in listing order. */
  function RigsIn(d: Disk, townRoot: Path, entries: seq<DirEntry>): (r: seq<Path>)
    ensures |r| <= |entries|
    decreases |entries|
  {
    if entries == [] then []
    else
      var last := entries[|entries| - 1];
      RigsIn(d, townRoot, entries[..|entries| - 1])
        + (if IsRigEntry(d, townRoot, last) then [JoinPath(townRoot, last.name)] else [])
  }

  /** The rigs of a town: none when its directory cannot be listed. */
  function AllRigs(d: Disk, townRoot: Path): seq<Path> {
    match ReadDir(d, townRoot)
    case Err(_) => []
    case Ok(entries) => RigsIn(d, townRoot, entries)
  }

  /** The marker loop of `findAllRigs`: stops at the first marker found. */
  method FindMarker(d: Disk, rigPath: Path) returns (found: bool)
    ensures found <==> HasMarker(d, rigPath)
  {
    for i := 0 to |RigMarkers|
      invariant forall k :: 0 <= k < i ==> !Exists(d, JoinPath(rigPath, RigMarkers[k]))
    {
      if Exists(d, JoinPath(rigPath, RigMarkers[i])) {
        return true;
      }
    }
    return false;
  }

  /** `findAllRigs`. */
  method FindAllRigs(d: Disk, townRoot: Path) returns (rigs: seq<Path>)
    ensures rigs == AllRigs(d, townRoot)
  {
    rigs := [];
    var listing := ReadDir(d, townRoot);
    if listing.Err? {
      return;
    }
    var entries := listing.value;
    for i := 0 to |entries|
      invariant rigs == RigsIn(d, townRoot, entries[..i])
    {
      assert entries[..i + 1][..i] == entries[..i];
      var entry := entries[i];
      if !entry.isDir {
        continue;
      }
      var name := entry.name;
      if name == "mayor" || name == ".beads" || HasPrefix(name, ".") {
        continue;
      }
      var rigPath := JoinPath(townRoot, name);
      var marked := FindMarker(d, rigPath);
      if marked {
        rigs := rigs + [rigPath];
      }
    }
    assert entries[..|entries|] == entries;
  }

  /** A path is a rig exactly when it is the path of a kept entry of the town's listing. */
  lemma {:induction false} RigsInMembers(d: Disk, townRoot: Path, entries: seq<DirEntry>, p: Path)
    ensures p in RigsIn(d, townRoot, entries)
      <==> exists e :: e in entries && IsRigEntry(d, townRoot, e) && p == JoinPath(townRoot, e.name)
    decreases |entries|
  {
    if entries != [] {
      var front := entries[..|entries| - 1];
      assert entries == front + [entries[|entries| - 1]];
      RigsInMembers(d, townRoot, front, p);
    }
  }

  /**
   * `findAllRigs` keeps a top-level directory exactly when its name is not
   * `mayor`, `.beads` or hidden and it holds one of `crew`, `polecats`,
   * `witness` or `refinery`; an unreadable town has no rigs.
   */
  lemma AllRigsIff(d: Disk, townRoot: Path, p: Path)
    ensures p in AllRigs(d, townRoot)
      <==> (ReadDir(d, townRoot).Ok?
           && exists e :: e in ReadDir(d, townRoot).value && IsRigEntry(d, townRoot, e) && p == JoinPath(townRoot, e.name))
  {
    if ReadDir(d, townRoot).Ok? {
      RigsInMembers(d, townRoot, ReadDir(d, townRoot).value, p);
    }
  }

  /** No element of `s` occurs twice. */
  predicate Distinct<T(==)>(s: seq<T>) {
    forall i, j :: 0 <= i < j < |s| ==> s[i] != s[j]
  }

  lemma DistinctSnoc<T>(s: seq<T>, x: T)
    requires Distinct(s) && x !in s
    ensures Distinct(s + [x])
  {
  }

  /** A listing without repeated or empty names yields each rig once. */
  lemma {:induction false} RigsInDistinct(d: Disk, townRoot: Path, entries: seq<DirEntry>)
    requires townRoot != []
    requires forall i, j :: 0 <= i < j < |entries| ==> entries[i].name != entries[j].name
    requires forall i :: 0 <= i < |entries| ==> entries[i].name != []
    ensures Distinct(RigsIn(d, townRoot, entries))
    decreases |entries|
  {
    if entries != [] {
      var front := entries[..|entries| - 1];
      var last := entries[|entries| - 1];
      RigsInDistinct(d, townRoot, front);
      if IsRigEntry(d, townRoot, last) {
        LastRigFresh(d, townRoot, entries);
        DistinctSnoc(RigsIn(d, townRoot, front), JoinPath(townRoot, last.name));
      }
    }
  }

  /** The last entry's path is not among the rigs of the entries before it, when no name repeats. */
  lemma LastRigFresh(d: Disk, townRoot: Path, entries: seq<DirEntry>)
    requires townRoot != [] && entries != []
    requires forall i, j :: 0 <= i < j < |entries| ==> entries[i].name != entries[j].name
    requires forall i :: 0 <= i < |entries| ==> entries[i].name != []
    ensures JoinPath(townRoot, entries[|entries| - 1].name) !in RigsIn(d, townRoot, entries[..|entries| - 1])
  {
    var front := entries[..|entries| - 1];
    var last := entries[|entries| - 1];
    var p := JoinPath(townRoot, last.name);
    RigsInMembers(d, townRoot, front, p);
    forall e | e in front
      ensures p != JoinPath(townRoot, e.name)
    {
      var k :| 0 <= k < |front| && front[k] == e;
      assert entries[k] == e;
      JoinDistinct(townRoot, last.name, e.name);
    }
  }

  // ---------------------------------------------------------------------
  // SettingsCheck
  // ---------------------------------------------------------------------

  const SettingsCheckName: String := "rig-settings"

  /** `constants.RigSettingsPath`: the rig's `settings` directory. */
  function RigSettingsPath(rig: Path): Path {
    JoinPath(rig, "settings")
  }

  /** `os.IsNotExist` of `os.Stat` of the rig's settings path; any other failure counts as present. */
  predicate SettingsMissing(d: Disk, rig: Path) {
    Stat(d, RigSettingsPath(rig)) == NotExist
  }

  /** The rigs lacking their settings directory, in order. */
  function MissingRigs(d: Disk, rigs: seq<Path>): (r: seq<Path>)
    ensures |r| <= |rigs|
    ensures forall k :: 0 <= k < |r| ==> r[k] in rigs && SettingsMissing(d, r[k])
    decreases |rigs|
  {
    if rigs == [] then []
    else
      var last := rigs[|rigs| - 1];
      MissingRigs(d, rigs[..|rigs| - 1]) + (if SettingsMissing(d, last) then [last] else [])
  }

  /** The settings path of each rig. */
  function SettingsPaths(rigs: seq<Path>): (r: seq<Path>)
    ensures |r| == |rigs|
  {
    seq(|rigs|, k requires 0 <= k < |rigs| => RigSettingsPath(rigs[k]))
  }

  /** The detail line for a rig lacking its settings directory, relative to the town. */
  function MissingDetail(townRoot: Path, rig: Path): String {
    "Missing: " + Rel(townRoot, rig) + "/settings/"
  }

  function MissingDetails(townRoot: Path, rigs: seq<Path>): (r: seq<String>)
    ensures |r| == |rigs|
  {
    seq(|rigs|, k requires 0 <= k < |rigs| => MissingDetail(townRoot, rigs[k]))
  }

  /** The outcome of `os.MkdirAll` of each path in order, stopping at the first failure. */
  datatype MkdirRun = MkdirRun(disk: Disk, failedAt: Option<Path>)

  function MkdirEach(d: Disk, paths: seq<Path>): (r: MkdirRun)
    ensures r.failedAt.Some? ==> r.failedAt.value in paths
    decreases |paths|
  {
    if paths == [] then MkdirRun(d, None)
    else if !CanMkdir(d, paths[0]) then MkdirRun(d, Some(paths[0]))
    else MkdirEach(MadeDir(d, paths[0]), paths[1..])
  }

  /** One more rig adds its detail line when its settings are missing. */
  lemma MissingStep(d: Disk, townRoot: Path, rigs: seq<Path>, i: nat)
    requires i < |rigs|
    ensures var before := MissingRigs(d, rigs[..i]);
      && MissingRigs(d, rigs[..i + 1]) == before + (if SettingsMissing(d, rigs[i]) then [rigs[i]] else [])
      && MissingDetails(townRoot, before + [rigs[i]]) == MissingDetails(townRoot, before) + [MissingDetail(townRoot, rigs[i])]
      && SettingsPaths(before + [rigs[i]]) == SettingsPaths(before) + [RigSettingsPath(rigs[i])]
  {
    assert rigs[..i + 1][..i] == rigs[..i];
  }

  /** The first loop of `SettingsCheck.Run`: a detail line per rig lacking its settings, and a count of the others. */
  method CheckSettings(d: Disk, townRoot: Path, rigs: seq<Path>) returns (missing: seq<String>, ok: nat)
    ensures missing == MissingDetails(townRoot, MissingRigs(d, rigs))
    ensures ok + |MissingRigs(d, rigs)| == |rigs|
  {
    missing, ok := [], 0;
    for i := 0 to |rigs|
      invariant missing == MissingDetails(townRoot, MissingRigs(d, rigs[..i]))
      invariant ok + |MissingRigs(d, rigs[..i])| == i
    {
      MissingStep(d, townRoot, rigs, i);
      if Stat(d, RigSettingsPath(rigs[i])) == NotExist {
        missing := missing + [MissingDetail(townRoot, rigs[i])];
      } else {
        ok := ok + 1;
      }
    }
    assert rigs[..|rigs|] == rigs;
  }

  /** The second loop of `SettingsCheck.Run`: the settings path of each rig lacking it. */
  method MissingSettingsOf(d: Disk, rigs: seq<Path>) returns (paths: seq<Path>)
    ensures paths == SettingsPaths(MissingRigs(d, rigs))
  {
    paths := [];
    for i := 0 to |rigs|
      invariant paths == SettingsPaths(MissingRigs(d, rigs[..i]))
    {
      MissingStep(d, [], rigs, i);
      var settingsPath := RigSettingsPath(rigs[i]);
      if Stat(d, settingsPath) == NotExist {
        paths := paths + [settingsPath];
      }
    }
    assert rigs[..|rigs|] == rigs;
  }

  /** `SettingsCheck`: `Run` caches the missing settings paths; `Fix` creates them. */
  class SettingsCheck {
    var missingSettings: seq<Path>

    constructor ()
      ensures missingSettings == []
    {
      missingSettings := [];
    }

    /**
     * `Run`: OK with "No rigs found", leaving the cache as it was, when the
     * town has no rigs; otherwise the cache becomes the settings paths of
     * the rigs lacking them, and the result is OK only when none does, with
     * one detail line per such rig.
     */
    method Run(d: Disk, townRoot: Path) returns (r: CheckResult)
      modifies this
      ensures var rigs := AllRigs(d, townRoot);
        && (rigs == [] ==> r == CheckResult(SettingsCheckName, StatusOK, "No rigs found", [], [])
                            && missingSettings == old(missingSettings))
        && (rigs != [] ==> missingSettings == SettingsPaths(MissingRigs(d, rigs))
                            && r.name == SettingsCheckName
                            && (r.status == StatusOK <==> MissingRigs(d, rigs) == [])
                            && r.details == MissingDetails(townRoot, MissingRigs(d, rigs))
                            && r.message == if MissingRigs(d, rigs) == []
                                            then "All " + NatToDecimal(|rigs|) + " rig(s) have settings/ directory"
                                            else NatToDecimal(|MissingRigs(d, rigs)|) + " rig(s) missing settings/ directory")
      ensures r.status == StatusOK || r.status == StatusWarning
    {
      var rigs := FindAllRigs(d, townRoot);
      if |rigs| == 0 {
        return CheckResult(SettingsCheckName, StatusOK, "No rigs found", [], []);
      }
      var missing, ok := CheckSettings(d, townRoot, rigs);
      missingSettings := MissingSettingsOf(d, rigs);
      if |missing| == 0 {
        return CheckResult(SettingsCheckName, StatusOK, "All " + NatToDecimal(ok) + " rig(s) have settings/ directory", [], []);
      }
      r := CheckResult(SettingsCheckName, StatusWarning, NatToDecimal(|missing|) + " rig(s) missing settings/ directory",
        missing, "Run 'gt doctor --fix' to create missing directories");
    }

    /** `Fix`: creates each cached path in order and fails at the first path it cannot create. */
    method Fix(fs: FileSystem) returns (err: Option<Path>)
      modifies fs
      ensures MkdirEach(old(fs.disk), missingSettings) == MkdirRun(fs.disk, err)
    {
      for i := 0 to |missingSettings|
        invariant MkdirEach(old(fs.disk), missingSettings) == MkdirEach(fs.disk, missingSettings[i..])
      {
        var ok := fs.MkdirAll(missingSettings[i]);
        if !ok {
          return Some(missingSettings[i]);
        }
      }
      return None;
    }
  }

  /** A rig is reported missing exactly when it is checked and `os.Stat` reports its settings path missing. */
  lemma {:induction false} MissingRigsIff(d: Disk, rigs: seq<Path>, rig: Path)
    ensures rig in MissingRigs(d, rigs) <==> rig in rigs && SettingsMissing(d, rig)
    decreases |rigs|
  {
    if rigs != [] {
      var front := rigs[..|rigs| - 1];
      assert rigs == front + [rigs[|rigs| - 1]];
      MissingRigsIff(d, front, rig);
    }
  }

  /** Creating directories never removes a path nor turns a directory into something else. */
  lemma {:induction false} MkdirEachKeeps(d: Disk, paths: seq<Path>, q: Path)
    requires IsDirectory(d, q)
    ensures IsDirectory(MkdirEach(d, paths).disk, q)
    decreases |paths|
  {
    if paths != [] && CanMkdir(d, paths[0]) {
      MkdirEachKeeps(MadeDir(d, paths[0]), paths[1..], q);
    }
  }

  /** When `Fix` succeeds, every cached path is a directory afterwards. */
  lemma {:induction false} MkdirEachMakes(d: Disk, paths: seq<Path>, p: Path)
    requires MkdirEach(d, paths).failedAt.None?
    requires p in paths
    ensures IsDirectory(MkdirEach(d, paths).disk, p)
    decreases |paths|
  {
    var d' := MadeDir(d, paths[0]);
    if p == paths[0] {
      MkdirEachKeeps(d', paths[1..], p);
    } else {
      MkdirEachMakes(d', paths[1..], p);
    }
  }

  // ---------------------------------------------------------------------
  // RuntimeGitignoreCheck
  // ---------------------------------------------------------------------

  const GitignoreCheckName: String := "runtime-gitignore"

  /** The pattern the check looks for. */
  const RuntimePattern: String := ".runtime"

  /** The six spellings `containsPattern` accepts: with or without a trailing `/`, a leading `/` or a leading `**` + `/`. */
  function Spellings(p: String): seq<String> {
    [p, p + "/", "/" + p, "/" + p + "/", "**/" + p, "**/" + p + "/"]
  }

  /**
   * The lines a `bufio.Scanner` yields: the text split at newlines, without
   * the empty piece after a final newline. The scanner also drops a carriage
   * return before each newline, which the trim that follows removes anyway.
   */
  function ScannedLines(content: String): seq<String> {
    var ls := Lines(content);
    if ls[|ls| - 1] == [] then ls[..|ls| - 1] else ls
  }

  /** One scanned line matches: once trimmed, it is one of the accepted spellings. */
  predicate Accepted(line: String, p: String) {
    TrimSpace(line) in Spellings(p)
  }

  /** The scan of `containsPattern`: some line, once trimmed, is one of the accepted spellings. */
  function AnyAccepted(lines: seq<String>, p: String): (r: bool)
    ensures r <==> exists k :: 0 <= k < |lines| && Accepted(lines[k], p)
    decreases |lines|
  {
    if lines == [] then false
    else if Accepted(lines[0], p) then true
    else
      var rest := AnyAccepted(lines[1..], p);
      assert forall k :: 1 <= k < |lines| ==> lines[k] == lines[1..][k - 1];
      rest
  }

  /** `containsPattern`: false when the file cannot be opened or read. */
  function ContainsPattern(d: Disk, path: Path, p: String): (r: bool)
    ensures r ==> ReadFile(d, path).Ok?
  {
    match ReadFile(d, path)
    case Err(_) => false
    case Ok(content) => AnyAccepted(ScannedLines(content), p)
  }

  /**
   * `containsPattern` holds exactly when the file can be read and one of
   * the lines the scanner yields is, once trimmed, one of the six accepted
   * spellings of the pattern.
   */
  lemma ContainsPatternIff(d: Disk, path: Path, p: String)
    ensures ContainsPattern(d, path, p)
      <==> (ReadFile(d, path).Ok?
           && exists k :: 0 <= k < |ScannedLines(ReadFile(d, path).value)|
                          && Accepted(ScannedLines(ReadFile(d, path).value)[k], p))
  {
  }

  /** The line the fix hint asks for is accepted as it stands. */
  lemma RuntimeLineAccepted(line: String)
    requires line == RuntimePattern + "/"
    ensures Lines(line) == [line]
    ensures Accepted(line, RuntimePattern)
  {
    NotContainsChar(line, Newline, '\n');
    assert line[0] == '.' && line[|line| - 1] == '/';
    TrimUnchanged(line, Whitespace);
    assert Spellings(RuntimePattern)[1] == line;
  }

  /** Adding the line `.runtime/` at the end of a `.gitignore`, as the fix hint suggests, makes the check accept it. */
  lemma AppendedRuntimeLine(d: Disk, path: Path, content: String)
    requires ReadFile(d, path) == Ok(content + Newline + (RuntimePattern + "/"))
    ensures ContainsPattern(d, path, RuntimePattern)
  {
    RuntimeLineScanned(content);
  }

  /** The scanned lines of a text ending in the line `.runtime/` accept the pattern. */
  lemma RuntimeLineScanned(content: String)
    ensures AnyAccepted(ScannedLines(content + Newline + (RuntimePattern + "/")), RuntimePattern)
  {
    RuntimeLineAccepted(RuntimePattern + "/");
    AcceptedLastLine(content, RuntimePattern + "/", RuntimePattern);
  }

  /** An accepted last line, without a newline of its own, makes the scan succeed. */
  lemma AcceptedLastLine(content: String, line: String, p: String)
    requires line != [] && Lines(line) == [line] && Accepted(line, p)
    ensures AnyAccepted(ScannedLines(content + Newline + line), p)
  {
    LinesAppend(content, line);
    var ls := Lines(content + Newline + line);
    assert ls == Lines(content) + [line];
    assert ls[|ls| - 1] == line;
    assert ScannedLines(content + Newline + line) == ls;
    AcceptedAt(ls, |ls| - 1, p);
  }

  /** A single accepted line makes the scan succeed. */
  lemma AcceptedAt(lines: seq<String>, k: nat, p: String)
    requires k < |lines| && Accepted(lines[k], p)
    ensures AnyAccepted(lines, p)
  {
  }

  /** A directory whose `.gitignore` does not hold the pattern. */
  predicate LacksRuntime(d: Disk, dir: Path) {
    !ContainsPattern(d, JoinPath(dir, ".gitignore"), RuntimePattern)
  }

  /** A location reported: the town, or one crew member's clone. */
  datatype Issue = TownIssue | CrewIssue(dir: Path)

  function IssueText(townRoot: Path, i: Issue): String {
    match i
    case TownIssue => "Town .gitignore missing .runtime/ pattern"
    case CrewIssue(dir) => Rel(townRoot, dir) + " .gitignore missing .runtime/ pattern"
  }

  function IssueTexts(townRoot: Path, issues: seq<Issue>): (r: seq<String>)
    ensures |r| == |issues|
    decreases |issues|
  {
    if issues == [] then []
    else IssueTexts(townRoot, issues[..|issues| - 1]) + [IssueText(townRoot, issues[|issues| - 1])]
  }

  function CrewPath(rig: Path): Path {
    JoinPath(rig, "crew")
  }

  /** A crew entry reported: a directory, not hidden, whose `.gitignore` lacks the pattern. */
  predicate IsCrewIssue(d: Disk, crewPath: Path, e: DirEntry) {
    e.isDir && !HasPrefix(e.name, ".") && LacksRuntime(d, JoinPath(crewPath, e.name))
  }

  function CrewIssues(d: Disk, crewPath: Path, entries: seq<DirEntry>): (r: seq<Issue>)
    ensures forall k :: 0 <= k < |r| ==> r[k].CrewIssue?
    decreases |entries|
  {
    if entries == [] then []
    else
      var last := entries[|entries| - 1];
      CrewIssues(d, crewPath, entries[..|entries| - 1])
        + (if IsCrewIssue(d, crewPath, last) then [CrewIssue(JoinPath(crewPath, last.name))] else [])
  }

  /** The issues of one rig's crew: none when its `crew` directory cannot be listed. */
  function RigIssues(d: Disk, rig: Path): (r: seq<Issue>)
    ensures forall k :: 0 <= k < |r| ==> r[k].CrewIssue?
  {
    match ReadDir(d, CrewPath(rig))
    case Err(_) => []
    case Ok(entries) => CrewIssues(d, CrewPath(rig), entries)
  }

  function RigsIssues(d: Disk, rigs: seq<Path>): (r: seq<Issue>)
    ensures forall k :: 0 <= k < |r| ==> r[k].CrewIssue?
    decreases |rigs|
  {
    if rigs == [] then []
    else RigsIssues(d, rigs[..|rigs| - 1]) + RigIssues(d, rigs[|rigs| - 1])
  }

  /** Everything `RuntimeGitignoreCheck.Run` reports: the town first, then each rig's crew in order. */
  function GitignoreIssues(d: Disk, townRoot: Path): seq<Issue> {
    (if LacksRuntime(d, townRoot) then [TownIssue] else []) + RigsIssues(d, AllRigs(d, townRoot))
  }

  lemma IssueTextsSnoc(townRoot: Path, a: seq<Issue>, x: Issue)
    ensures IssueTexts(townRoot, a + [x]) == IssueTexts(townRoot, a) + [IssueText(townRoot, x)]
  {
    assert (a + [x])[..|a|] == a;
  }

  lemma {:induction false} IssueTextsAppend(townRoot: Path, a: seq<Issue>, b: seq<Issue>)
    ensures IssueTexts(townRoot, a + b) == IssueTexts(townRoot, a) + IssueTexts(townRoot, b)
    decreases |b|
  {
    if b != [] {
      var front := b[..|b| - 1];
      assert (a + b)[..|a + b| - 1] == a + front;
      IssueTextsAppend(townRoot, a, front);
    } else {
      assert a + b == a;
    }
  }

  /** One more crew entry adds an issue exactly when it is one. */
  lemma CrewStep(d: Disk, crewPath: Path, crews: seq<DirEntry>, j: nat)
    requires j < |crews|
    ensures IsCrewIssue(d, crewPath, crews[j]) ==>
      CrewIssues(d, crewPath, crews[..j + 1]) == CrewIssues(d, crewPath, crews[..j]) + [CrewIssue(JoinPath(crewPath, crews[j].name))]
    ensures !IsCrewIssue(d, crewPath, crews[j]) ==>
      CrewIssues(d, crewPath, crews[..j + 1]) == CrewIssues(d, crewPath, crews[..j])
  {
    assert crews[..j + 1][..j] == crews[..j];
    assert CrewIssues(d, crewPath, crews[..j]) + [] == CrewIssues(d, crewPath, crews[..j]);
  }

  /** One more rig adds the texts of its crew's issues. */
  lemma RigsIssuesStep(d: Disk, townRoot: Path, town: seq<Issue>, rigs: seq<Path>, i: nat)
    requires i < |rigs|
    ensures IssueTexts(townRoot, town + RigsIssues(d, rigs[..i + 1]))
      == IssueTexts(townRoot, town + RigsIssues(d, rigs[..i])) + IssueTexts(townRoot, RigIssues(d, rigs[i]))
  {
    assert rigs[..i + 1][..i] == rigs[..i];
    AppendAssoc(town, RigsIssues(d, rigs[..i]), RigIssues(d, rigs[i]));
    IssueTextsAppend(townRoot, town + RigsIssues(d, rigs[..i]), RigIssues(d, rigs[i]));
  }

  /** The crew loop of `RuntimeGitignoreCheck.Run` for one rig. */
  method CheckCrew(d: Disk, townRoot: Path, rig: Path) returns (issues: seq<String>)
    ensures issues == IssueTexts(townRoot, RigIssues(d, rig))
  {
    issues := [];
    var crewPath := JoinPath(rig, "crew");
    var listing := ReadDir(d, crewPath);
    if listing.Err? {
      return;
    }
    var crews := listing.value;
    for j := 0 to |crews|
      invariant issues == IssueTexts(townRoot, CrewIssues(d, crewPath, crews[..j]))
    {
      CrewStep(d, crewPath, crews, j);
      var crew := crews[j];
      if crew.isDir && !HasPrefix(crew.name, ".") {
        var crewGitignore := Join3(crewPath, crew.name, ".gitignore");
        if !ContainsPattern(d, crewGitignore, RuntimePattern) {
          IssueTextsSnoc(townRoot, CrewIssues(d, crewPath, crews[..j]), CrewIssue(JoinPath(crewPath, crew.name)));
          issues := issues + [Rel(townRoot, JoinPath(crewPath, crew.name)) + " .gitignore missing .runtime/ pattern"];
        }
      }
    }
    assert crews[..|crews|] == crews;
  }

  /**
   * `RuntimeGitignoreCheck.Run`: one detail line per location whose
   * `.gitignore` lacks `.runtime`, OK exactly when there is none, and a
   * message counting those locations.
   */
  method RuntimeGitignoreRun(d: Disk, townRoot: Path) returns (r: CheckResult)
    ensures r.name == GitignoreCheckName
    ensures r.status == (if GitignoreIssues(d, townRoot) == [] then StatusOK else StatusWarning)
    ensures r.details == IssueTexts(townRoot, GitignoreIssues(d, townRoot))
    ensures r.message == if GitignoreIssues(d, townRoot) == []
      then ".runtime/ properly gitignored"
      else NatToDecimal(|GitignoreIssues(d, townRoot)|) + " location(s) missing .runtime gitignore"
  {
    ghost var town: seq<Issue> := if LacksRuntime(d, townRoot) then [TownIssue] else [];
    var issues: seq<String> := [];
    if !ContainsPattern(d, JoinPath(townRoot, ".gitignore"), RuntimePattern) {
      issues := ["Town .gitignore missing .runtime/ pattern"];
    }
    assert issues == IssueTexts(townRoot, town) by {
      assert town == [] || town[..0] == [];
    }
    var rigs := FindAllRigs(d, townRoot);
    for i := 0 to |rigs|
      invariant issues == IssueTexts(townRoot, town + RigsIssues(d, rigs[..i]))
    {
      var crewIssues := CheckCrew(d, townRoot, rigs[i]);
      RigsIssuesStep(d, townRoot, town, rigs, i);
      issues := issues + crewIssues;
    }
    assert rigs[..|rigs|] == rigs;
    assert |issues| == |GitignoreIssues(d, townRoot)|;
    if |issues| == 0 {
      return CheckResult(GitignoreCheckName, StatusOK, ".runtime/ properly gitignored", [], []);
    }
    r := CheckResult(GitignoreCheckName, StatusWarning, NatToDecimal(|issues|) + " location(s) missing .runtime gitignore",
      issues, "Add '.runtime/' to .gitignore files");
  }

  /** The town is reported exactly when its `.gitignore` lacks the pattern. */
  lemma TownIssueIff(d: Disk, townRoot: Path)
    ensures TownIssue in GitignoreIssues(d, townRoot) <==> LacksRuntime(d, townRoot)
  {
  }

  /** A crew clone is reported by its rig exactly when it is a non-hidden directory of the rig's crew lacking the pattern. */
  lemma {:induction false} CrewIssuesMembers(d: Disk, crewPath: Path, entries: seq<DirEntry>, dir: Path)
    ensures CrewIssue(dir) in CrewIssues(d, crewPath, entries)
      <==> exists e :: e in entries && IsCrewIssue(d, crewPath, e) && dir == JoinPath(crewPath, e.name)
    decreases |entries|
  {
    if entries != [] {
      var front := entries[..|entries| - 1];
      assert entries == front + [entries[|entries| - 1]];
      CrewIssuesMembers(d, crewPath, front, dir);
    }
  }

  lemma {:induction false} RigsIssuesMembers(d: Disk, rigs: seq<Path>, i: Issue)
    ensures i in RigsIssues(d, rigs) <==> exists rig :: rig in rigs && i in RigIssues(d, rig)
    decreases |rigs|
  {
    if rigs != [] {
      var front := rigs[..|rigs| - 1];
      assert rigs == front + [rigs[|rigs| - 1]];
      RigsIssuesMembers(d, front, i);
    }
  }

  /**
   * A crew clone is reported exactly when it belongs to one of the town's
   * rigs, whose `crew` directory can be listed and shows it as a non-hidden
   * directory whose `.gitignore` lacks the pattern.
   */
  lemma CrewIssueIff(d: Disk, townRoot: Path, dir: Path)
    ensures CrewIssue(dir) in GitignoreIssues(d, townRoot)
      <==> exists rig :: rig in AllRigs(d, townRoot) && ReadDir(d, CrewPath(rig)).Ok?
             && exists e :: e in ReadDir(d, CrewPath(rig)).value && IsCrewIssue(d, CrewPath(rig), e)
                            && dir == JoinPath(CrewPath(rig), e.name)
  {
    RigsIssuesMembers(d, AllRigs(d, townRoot), CrewIssue(dir));
    forall rig | rig in AllRigs(d, townRoot) && ReadDir(d, CrewPath(rig)).Ok?
      ensures CrewIssue(dir) in RigIssues(d, rig)
        <==> exists e :: e in ReadDir(d, CrewPath(rig)).value && IsCrewIssue(d, CrewPath(rig), e)
                        && dir == JoinPath(CrewPath(rig), e.name)
    {
      CrewIssuesMembers(d, CrewPath(rig), ReadDir(d, CrewPath(rig)).value, dir);
    }
  }

  // ---------------------------------------------------------------------
  // LegacyGastownCheck
  // ---------------------------------------------------------------------

  const LegacyGastownCheckName: String := "legacy-gastown"

  function GastownDir(root: Path): Path {
    JoinPath(root, ".gastown")
  }

  /** A `.gastown` directory found: the town's, or a rig's. */
  datatype Legacy = TownLegacy | RigLegacy(rig: Path)

  function LegacyDir(townRoot: Path, l: Legacy): Path {
    match l
    case TownLegacy => GastownDir(townRoot)
    case RigLegacy(rig) => GastownDir(rig)
  }

  function LegacyLabel(townRoot: Path, l: Legacy): String {
    match l
    case TownLegacy => ".gastown/ (town root)"
    case RigLegacy(rig) => Rel(townRoot, rig) + "/.gastown/"
  }

  /** The `.gastown` directories of the listed locations, in order. */
  function LegacyDirs(townRoot: Path, ls: seq<Legacy>): (r: seq<Path>)
    ensures |r| == |ls|
    decreases |ls|
  {
    if ls == [] then [] else LegacyDirs(townRoot, ls[..|ls| - 1]) + [LegacyDir(townRoot, ls[|ls| - 1])]
  }

  /** The labels `Run` reports for the listed locations, in order. */
  function LegacyLabels(townRoot: Path, ls: seq<Legacy>): (r: seq<String>)
    ensures |r| == |ls|
    decreases |ls|
  {
    if ls == [] then [] else LegacyLabels(townRoot, ls[..|ls| - 1]) + [LegacyLabel(townRoot, ls[|ls| - 1])]
  }

  /** The rigs holding a `.gastown` directory, in order. */
  function RigLegacies(d: Disk, rigs: seq<Path>): seq<Legacy>
    decreases |rigs|
  {
    if rigs == [] then []
    else
      var last := rigs[|rigs| - 1];
      RigLegacies(d, rigs[..|rigs| - 1]) + (if IsDirectory(d, GastownDir(last)) then [RigLegacy(last)] else [])
  }

  /** What `LegacyGastownCheck.Run` finds: the town's `.gastown` directory, then each rig's. */
  function Legacies(d: Disk, townRoot: Path): seq<Legacy> {
    (if IsDirectory(d, GastownDir(townRoot)) then [TownLegacy] else []) + RigLegacies(d, AllRigs(d, townRoot))
  }

  /** One more rig extends both projections of what was found. */
  lemma LegacyStep(d: Disk, townRoot: Path, town: seq<Legacy>, rigs: seq<Path>, i: nat)
    requires i < |rigs|
    ensures var before := town + RigLegacies(d, rigs[..i]);
      var after := town + RigLegacies(d, rigs[..i + 1]);
      && (IsDirectory(d, GastownDir(rigs[i])) ==>
            after == before + [RigLegacy(rigs[i])]
            && LegacyDirs(townRoot, after) == LegacyDirs(townRoot, before) + [GastownDir(rigs[i])]
            && LegacyLabels(townRoot, after) == LegacyLabels(townRoot, before) + [LegacyLabel(townRoot, RigLegacy(rigs[i]))])
      && (!IsDirectory(d, GastownDir(rigs[i])) ==> after == before)
  {
    assert rigs[..i + 1][..i] == rigs[..i];
    var before := town + RigLegacies(d, rigs[..i]);
    if IsDirectory(d, GastownDir(rigs[i])) {
      AppendAssoc(town, RigLegacies(d, rigs[..i]), [RigLegacy(rigs[i])]);
      assert (before + [RigLegacy(rigs[i])])[..|before|] == before;
    } else {
      assert RigLegacies(d, rigs[..i]) + [] == RigLegacies(d, rigs[..i]);
    }
  }

  /** The first loop of `LegacyGastownCheck.Run`: the labels of what is found. */
  method FindLegacyLabels(d: Disk, townRoot: Path, rigs: seq<Path>) returns (found: seq<String>)
    ensures found == LegacyLabels(townRoot, (if IsDirectory(d, GastownDir(townRoot)) then [TownLegacy] else []) + RigLegacies(d, rigs))
  {
    found := [];
    ghost var town: seq<Legacy> := [];
    if IsDirectory(d, JoinPath(townRoot, ".gastown")) {
      found := [".gastown/ (town root)"];
      town := [TownLegacy];
      assert town[..0] == [];
    }
    for i := 0 to |rigs|
      invariant found == LegacyLabels(townRoot, town + RigLegacies(d, rigs[..i]))
    {
      LegacyStep(d, townRoot, town, rigs, i);
      var rigGastown := JoinPath(rigs[i], ".gastown");
      if IsDirectory(d, rigGastown) {
        found := found + [Rel(townRoot, rigs[i]) + "/.gastown/"];
      }
    }
    assert rigs[..|rigs|] == rigs;
  }

  /** The second loop of `LegacyGastownCheck.Run`: the directories of what is found. */
  method FindLegacyDirs(d: Disk, townRoot: Path, rigs: seq<Path>) returns (dirs: seq<Path>)
    ensures dirs == LegacyDirs(townRoot, (if IsDirectory(d, GastownDir(townRoot)) then [TownLegacy] else []) + RigLegacies(d, rigs))
  {
    dirs := [];
    ghost var town: seq<Legacy> := [];
    var townGastown := JoinPath(townRoot, ".gastown");
    if IsDirectory(d, townGastown) {
      dirs := [townGastown];
      town := [TownLegacy];
      assert town[..0] == [];
    }
    for i := 0 to |rigs|
      invariant dirs == LegacyDirs(townRoot, town + RigLegacies(d, rigs[..i]))
    {
      LegacyStep(d, townRoot, town, rigs, i);
      var rigGastown := JoinPath(rigs[i], ".gastown");
      if IsDirectory(d, rigGastown) {
        dirs := dirs + [rigGastown];
      }
    }
    assert rigs[..|rigs|] == rigs;
  }

  /** The outcome of `os.RemoveAll` of each path in order, stopping at the first failure. */
  datatype RemoveAllRun = RemoveAllRun(disk: Disk, failedAt: Option<Path>)

  function RemoveAllEach(d: Disk, paths: seq<Path>): (r: RemoveAllRun)
    ensures r.failedAt.Some? ==> r.failedAt.value in paths
    decreases |paths|
  {
    if paths == [] then RemoveAllRun(d, None)
    else if !CanRemoveAll(d, paths[0]) then RemoveAllRun(d, Some(paths[0]))
    else RemoveAllEach(RemovedAll(d, paths[0]), paths[1..])
  }

  /** `LegacyGastownCheck`: `Run` caches the `.gastown` directories it reports; `Fix` removes them. */
  class LegacyGastownCheck {
    var legacyDirs: seq<Path>

    constructor ()
      ensures legacyDirs == []
    {
      legacyDirs := [];
    }

    /**
     * `Run`: the cache becomes the existing `.gastown` directories of the
     * town and of its rigs, the details are one label for each of the same
     * directories, and the result is OK exactly when there is none; the
     * message counts them.
     */
    method Run(d: Disk, townRoot: Path) returns (r: CheckResult)
      modifies this
      ensures legacyDirs == LegacyDirs(townRoot, Legacies(d, townRoot))
      ensures r.name == LegacyGastownCheckName
      ensures r.details == LegacyLabels(townRoot, Legacies(d, townRoot))
      ensures r.status == (if legacyDirs == [] then StatusOK else StatusWarning)
      ensures r.message == if legacyDirs == []
        then "No legacy .gastown/ directories found"
        else NatToDecimal(|Legacies(d, townRoot)|) + " legacy .gastown/ directory(ies) found"
    {
      var rigs := FindAllRigs(d, townRoot);
      var found := FindLegacyLabels(d, townRoot, rigs);
      legacyDirs := FindLegacyDirs(d, townRoot, rigs);
      if |found| == 0 {
        return CheckResult(LegacyGastownCheckName, StatusOK, "No legacy .gastown/ directories found", [], []);
      }
      r := CheckResult(LegacyGastownCheckName, StatusWarning, NatToDecimal(|found|) + " legacy .gastown/ directory(ies) found",
        found, "Run 'gt doctor --fix' to remove after verifying migration is complete");
    }

    /** `Fix`: removes each cached directory in order and fails at the first one it cannot remove. */
    method Fix(fs: FileSystem) returns (err: Option<Path>)
      modifies fs
      ensures RemoveAllEach(old(fs.disk), legacyDirs) == RemoveAllRun(fs.disk, err)
    {
      for i := 0 to |legacyDirs|
        invariant RemoveAllEach(old(fs.disk), legacyDirs) == RemoveAllEach(fs.disk, legacyDirs[i..])
      {
        var ok := fs.RemoveAll(legacyDirs[i]);
        if !ok {
          return Some(legacyDirs[i]);
        }
      }
      return None;
    }
  }

  /** The town's `.gastown` directory is found exactly when `os.Stat` reports it as a directory. */
  lemma TownLegacyIff(d: Disk, townRoot: Path)
    ensures TownLegacy in Legacies(d, townRoot) <==> IsDirectory(d, GastownDir(townRoot))
  {
    RigLegaciesAreRigs(d, AllRigs(d, townRoot));
  }

  lemma {:induction false} RigLegaciesAreRigs(d: Disk, rigs: seq<Path>)
    ensures forall l :: l in RigLegacies(d, rigs) ==> l.RigLegacy? && l.rig in rigs && IsDirectory(d, GastownDir(l.rig))
    decreases |rigs|
  {
    if rigs != [] {
      var front := rigs[..|rigs| - 1];
      assert rigs == front + [rigs[|rigs| - 1]];
      RigLegaciesAreRigs(d, front);
    }
  }

  /** A rig's `.gastown` directory is found exactly when the rig is one of the town's and `os.Stat` reports a directory there. */
  lemma {:induction false} RigLegacyIff(d: Disk, rigs: seq<Path>, rig: Path)
    ensures RigLegacy(rig) in RigLegacies(d, rigs) <==> rig in rigs && IsDirectory(d, GastownDir(rig))
    decreases |rigs|
  {
    if rigs != [] {
      var front := rigs[..|rigs| - 1];
      assert rigs == front + [rigs[|rigs| - 1]];
      RigLegacyIff(d, front, rig);
    }
  }

  /** Removing directories never brings a removed path back, and never changes which paths fail. */
  lemma {:induction false} RemoveAllEachKeepsGone(d: Disk, paths: seq<Path>, q: Path)
    requires q !in d.nodes
    ensures q !in RemoveAllEach(d, paths).disk.nodes
    ensures RemoveAllEach(d, paths).disk.faulty == d.faulty
    decreases |paths|
  {
    if paths != [] && CanRemoveAll(d, paths[0]) {
      RemoveAllEachKeepsGone(RemovedAll(d, paths[0]), paths[1..], q);
    }
  }

  /** When `Fix` succeeds, none of the cached directories exists any more. */
  lemma {:induction false} RemoveAllEachRemoves(d: Disk, paths: seq<Path>, p: Path)
    requires RemoveAllEach(d, paths).failedAt.None?
    requires p in paths
    ensures Stat(RemoveAllEach(d, paths).disk, p) == NotExist
    decreases |paths|
  {
    var d' := RemovedAll(d, paths[0]);
    if p == paths[0] {
      assert p !in d'.nodes;
      RemoveAllEachKeepsGone(d', paths[1..], p);
    } else {
      RemoveAllEachRemoves(d', paths[1..], p);
    }
  }
}
