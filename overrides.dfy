/**
 * Local formula overrides: the scans that classify the formula files of the
 * town and of each rig against the embedded set, and the `reset`, `update`
 * and `modify` commands that remove, merge and create those files.
 */
module Overrides {
  import opened Outcome
  import opened Text
  import opened Disk
  import opened Embed
  import opened Resolve
  import Rigs
  import Merge

  datatype Level = Town | Rig

  /** One local formula file: its formula name, its path, its level and, at rig level, the rig's name. */
  datatype Override = Override(name: String, path: Path, level: Level, rigName: String)

  /** Which formula files a scan keeps: those that override an embedded formula, those unknown to a name list, or all. */
  datatype Selection = Overridden(emb: Embedded) | Custom(known: set<String>) | Every

  predicate Selected(sel: Selection, name: String) {
    match sel
    case Overridden(emb) => EmbeddedFormulaExists(emb, name)
    case Custom(known) => name !in known
    case Every => true
  }

  /** A listing entry the scans look at: a file whose name ends with the formula suffix. */
  predicate IsFormulaEntry(e: DirEntry) {
    !e.isDir && HasSuffix(e.name, Suffix)
  }

  /** The override an entry of `dir` describes. */
  function EntryOverride(dir: Path, e: DirEntry, level: Level, rigName: String): Override {
    Override(TrimSuffix(e.name, Suffix), JoinPath(dir, e.name), level, rigName)
  }

  /** `o` describes a formula entry of the listing that `sel` keeps. */
  ghost predicate Lists(dir: Path, entries: seq<DirEntry>, level: Level, rigName: String, sel: Selection, o: Override) {
    exists e :: e in entries && IsFormulaEntry(e) && o == EntryOverride(dir, e, level, rigName) && Selected(sel, o.name)
  }

  /** The overrides a listing yields, in listing order. */
  function DirMatches(dir: Path, entries: seq<DirEntry>, level: Level, rigName: String, sel: Selection): (r: seq<Override>)
    ensures forall o :: o in r <==> Lists(dir, entries, level, rigName, sel, o)
    decreases |entries|
  {
    if entries == [] then []
    else
      var e := entries[|entries| - 1];
      var before := DirMatches(dir, entries[..|entries| - 1], level, rigName, sel);
      var o := EntryOverride(dir, e, level, rigName);
      var r := if IsFormulaEntry(e) && Selected(sel, o.name) then before + [o] else before;
      assert forall x :: x in entries <==> x in entries[..|entries| - 1] || x == e;
      r
  }

  /** One directory's scan: nothing when it cannot be listed. */
  function DirScan(d: Disk, dir: Path, level: Level, rigName: String, sel: Selection): (r: seq<Override>)
    ensures ReadDir(d, dir).Err? ==> r == []
    ensures ReadDir(d, dir).Ok? ==> forall o :: o in r <==> Lists(dir, ReadDir(d, dir).value, level, rigName, sel, o)
  {
    match ReadDir(d, dir)
    case Err(_) => []
    case Ok(entries) => DirMatches(dir, entries, level, rigName, sel)
  }

  /** The scans of each rig's formulas directory, in rig order, each named after its rig. */
  function RigScans(d: Disk, rigs: seq<Path>, sel: Selection): (r: seq<Override>)
    ensures forall o :: o in r ==> o.level == Rig
    decreases |rigs|
  {
    if rigs == [] then []
    else DirScan(d, FormulasDir(rigs[0]), Rig, Base(rigs[0]), sel) + RigScans(d, rigs[1..], sel)
  }

  /** The town's formula files, then those of every rig the registry lists. */
  function Scan(d: Disk, townRoot: Path, sel: Selection): (r: seq<Override>)
    ensures forall i, j :: 0 <= i < j < |r| && r[j].level == Town ==> r[i].level == Town
  {
    var town := DirScan(d, FormulasDir(townRoot), Town, [], sel);
    assert forall o :: o in town ==> o.level == Town;
    town + RigScans(d, Rigs.ScannedRigDirs(d, townRoot), sel)
  }

  /** `scanAllFormulaOverrides`: the local files that override an embedded formula. */
  function ScanAllFormulaOverrides(d: Disk, emb: Embedded, townRoot: Path): (r: seq<Override>)
    ensures forall o :: o in r ==> EmbeddedFormulaExists(emb, o.name)
  {
    var r := Scan(d, townRoot, Overridden(emb));
    ScanSelects(d, townRoot, Overridden(emb));
    r
  }

  /** `findCustomFormulas`: the local files whose name is not in the embedded name list. */
  function FindCustomFormulas(d: Disk, townRoot: Path, embeddedNames: seq<String>): (r: seq<Override>)
    ensures forall o :: o in r ==> o.name !in embeddedNames
  {
    var known := set n | n in embeddedNames;
    var r := Scan(d, townRoot, Custom(known));
    CustomSelects(d, townRoot, embeddedNames, known);
    r
  }

  /** A custom scan leaves out every embedded name. */
  lemma CustomSelects(d: Disk, townRoot: Path, embeddedNames: seq<String>, known: set<String>)
    requires forall n :: n in embeddedNames ==> n in known
    ensures forall o :: o in Scan(d, townRoot, Custom(known)) ==> o.name !in embeddedNames
  {
    ScanSelects(d, townRoot, Custom(known));
    forall o | o in Scan(d, townRoot, Custom(known))
      ensures o.name !in known
    {
      assert Selected(Custom(known), o.name);
    }
  }

  /** In one directory, a selection keeps exactly the files of the full scan whose name it selects. */
  lemma DirScanSelects(d: Disk, dir: Path, level: Level, rigName: String, sel: Selection)
    ensures forall o :: o in DirScan(d, dir, level, rigName, sel) <==> o in DirScan(d, dir, level, rigName, Every) && Selected(sel, o.name)
  {
  }

  /** Across the rigs, a selection keeps exactly the files of the full scan whose name it selects. */
  lemma {:induction false} RigScansSelect(d: Disk, rigs: seq<Path>, sel: Selection)
    ensures forall o :: o in RigScans(d, rigs, sel) <==> o in RigScans(d, rigs, Every) && Selected(sel, o.name)
    decreases |rigs|
  {
    if rigs != [] {
      DirScanSelects(d, FormulasDir(rigs[0]), Rig, Base(rigs[0]), sel);
      RigScansSelect(d, rigs[1..], sel);
    }
  }

  lemma ScanSelects(d: Disk, townRoot: Path, sel: Selection)
    ensures forall o :: o in Scan(d, townRoot, sel) <==> o in Scan(d, townRoot, Every) && Selected(sel, o.name)
  {
    var rigs := Rigs.ScannedRigDirs(d, townRoot);
    DirScanSelects(d, FormulasDir(townRoot), Town, [], sel);
    RigScansSelect(d, rigs, sel);
    assert Scan(d, townRoot, sel) == DirScan(d, FormulasDir(townRoot), Town, [], sel) + RigScans(d, rigs, sel);
    assert Scan(d, townRoot, Every) == DirScan(d, FormulasDir(townRoot), Town, [], Every) + RigScans(d, rigs, Every);
  }

  /**
   * With the name list `GetEmbeddedFormulaNames` gives, every local formula
   * file whose stem is not itself a file name is reported by
   * exactly one of the two scans: as an override or as a custom formula.
   */
  lemma OverridesAndCustomPartition(d: Disk, emb: Embedded, townRoot: Path, o: Override)
    requires WellFormed(emb)
    requires o in Scan(d, townRoot, Every) && !IsFilename(o.name)
    ensures o in ScanAllFormulaOverrides(d, emb, townRoot) <==> o !in FindCustomFormulas(d, townRoot, NamesOf(FileEntries(emb.listing.value)))
  {
    var names := NamesOf(FileEntries(emb.listing.value));
    ScanSelects(d, townRoot, Overridden(emb));
    ScanSelects(d, townRoot, Custom(set n | n in names));
    ListedIffExists(emb, o.name);
  }

  /**
   * A town file named after an embedded file name plus the suffix is
   * reported by both scans: its stem is a file name, which
   * `EmbeddedFormulaExists` finds while the suffix-free name list lacks it.
   */
  lemma DoubleSuffixInBoth(d: Disk, emb: Embedded, townRoot: Path, f: String, e: DirEntry)
    requires WellFormed(emb) && f in emb.files && f + Suffix !in emb.files
    requires ReadDir(d, FormulasDir(townRoot)).Ok? && e in ReadDir(d, FormulasDir(townRoot)).value
    requires e == DirEntry(f + Suffix, false)
    ensures var o := Override(f, JoinPath(FormulasDir(townRoot), e.name), Town, []);
      && o in ScanAllFormulaOverrides(d, emb, townRoot)
      && o in FindCustomFormulas(d, townRoot, NamesOf(FileEntries(emb.listing.value)))
  {
    var names := NamesOf(FileEntries(emb.listing.value));
    var o := Override(f, JoinPath(FormulasDir(townRoot), e.name), Town, []);
    assert HasSuffix(e.name, Suffix) by {
      assert e.name[|e.name| - |Suffix|..] == Suffix;
    }
    assert TrimSuffix(e.name, Suffix) == f;
    TownFileReported(d, townRoot, e);
    assert IsFilename(f);
    assert EmbeddedFormulaExists(emb, f);
    assert f !in names by {
      var files := FileEntries(emb.listing.value);
      forall k | 0 <= k < |names|
        ensures names[k] != f
      {
        assert files[k].name in emb.files;
        assert names[k] + Suffix == files[k].name;
      }
    }
    ScanSelects(d, townRoot, Overridden(emb));
    ScanSelects(d, townRoot, Custom(set n | n in names));
  }

  /** A formula file directly in the town's formulas directory is reported at town level under its stem. */
  lemma TownFileReported(d: Disk, townRoot: Path, e: DirEntry)
    requires ReadDir(d, FormulasDir(townRoot)).Ok? && e in ReadDir(d, FormulasDir(townRoot)).value
    requires IsFormulaEntry(e)
    ensures Override(TrimSuffix(e.name, Suffix), JoinPath(FormulasDir(townRoot), e.name), Town, []) in Scan(d, townRoot, Every)
  {
  }

  /** A formula file in the formulas directory of a rig the registry lists is reported at rig level under its stem. */
  lemma RigFileReported(d: Disk, townRoot: Path, rig: Path, e: DirEntry)
    requires rig in Rigs.ScannedRigDirs(d, townRoot)
    requires ReadDir(d, FormulasDir(rig)).Ok? && e in ReadDir(d, FormulasDir(rig)).value
    requires IsFormulaEntry(e)
    ensures Override(TrimSuffix(e.name, Suffix), JoinPath(FormulasDir(rig), e.name), Rig, Base(rig)) in Scan(d, townRoot, Every)
  {
    var rigs := Rigs.ScannedRigDirs(d, townRoot);
    RigScansReport(d, rigs, rig, e);
    assert Scan(d, townRoot, Every) == DirScan(d, FormulasDir(townRoot), Town, [], Every) + RigScans(d, rigs, Every);
  }

  lemma {:induction false} RigScansReport(d: Disk, rigs: seq<Path>, rig: Path, e: DirEntry)
    requires rig in rigs
    requires ReadDir(d, FormulasDir(rig)).Ok? && e in ReadDir(d, FormulasDir(rig)).value
    requires IsFormulaEntry(e)
    ensures Override(TrimSuffix(e.name, Suffix), JoinPath(FormulasDir(rig), e.name), Rig, Base(rig)) in RigScans(d, rigs, Every)
    decreases |rigs|
  {
    var o := Override(TrimSuffix(e.name, Suffix), JoinPath(FormulasDir(rig), e.name), Rig, Base(rig));
    if rigs[0] == rig {
      assert Lists(FormulasDir(rig), ReadDir(d, FormulasDir(rig)).value, Rig, Base(rig), Every, o);
      assert o in DirScan(d, FormulasDir(rig), Rig, Base(rig), Every);
    } else {
      RigScansReport(d, rigs[1..], rig, e);
    }
  }

  // ---------------------------------------------------------------------
  // Overrides of one formula
  // ---------------------------------------------------------------------

  /** The path of `filename` in each rig's formulas directory. */
  function RigFormulaPaths(rigs: seq<Path>, filename: String): (r: seq<Path>)
    ensures |r| == |rigs|
    ensures forall k :: 0 <= k < |r| ==> r[k] == JoinPath(FormulasDir(rigs[k]), filename)
  {
    seq(|rigs|, k requires 0 <= k < |rigs| => JoinPath(FormulasDir(rigs[k]), filename))
  }

  /** The override a rig holds for `name` when its file exists. */
  function RigOverride(rig: Path, name: String): Override {
    Override(name, JoinPath(FormulasDir(rig), name + Suffix), Rig, Base(rig))
  }

  /** The rig overrides of `name`, in rig order: those whose file exists. */
  function RigHits(d: Disk, rigs: seq<Path>, name: String): (r: seq<Override>)
    ensures forall o :: o in r ==> o.level == Rig && o.name == name && Exists(d, o.path)
    ensures forall rig :: rig in rigs && Exists(d, RigOverride(rig, name).path) ==> RigOverride(rig, name) in r
    decreases |rigs|
  {
    if rigs == [] then []
    else
      var o := RigOverride(rigs[0], name);
      var rest := RigHits(d, rigs[1..], name);
      assert forall rig :: rig in rigs ==> rig == rigs[0] || rig in rigs[1..];
      (if Exists(d, o.path) then [o] else []) + rest
  }

  /** `scanFormulaOverridesForName`: the town file when it exists, then each rig's. */
  function ScanFormulaOverridesForName(d: Disk, townRoot: Path, name: String): (r: seq<Override>)
    ensures forall o :: o in r ==> o.name == name && Exists(d, o.path)
    ensures Exists(d, JoinPath(FormulasDir(townRoot), name + Suffix)) <==> (|r| > 0 && r[0].level == Town)
    ensures forall k :: 0 < k < |r| ==> r[k].level == Rig
    ensures forall rig :: rig in Rigs.ScannedRigDirs(d, townRoot) && Exists(d, RigOverride(rig, name).path) ==> RigOverride(rig, name) in r
  {
    var townPath := JoinPath(FormulasDir(townRoot), name + Suffix);
    var town := if Exists(d, townPath) then [Override(name, townPath, Town, [])] else [];
    var rigs := RigHits(d, Rigs.ScannedRigDirs(d, townRoot), name);
    assert forall k :: 0 <= k < |rigs| ==> rigs[k] in rigs;
    town + rigs
  }

  /** The override `update` works on: the first at rig level, else the first of all. */
  function SelectOverride(overrides: seq<Override>): (r: Override)
    requires overrides != []
    ensures r in overrides
    ensures r.level == Rig <==> exists o :: o in overrides && o.level == Rig
    ensures r.level == Town ==> r == overrides[0]
    ensures r.level == Rig ==> exists k :: 0 <= k < |overrides| && r == overrides[k] && forall j :: 0 <= j < k ==> overrides[j].level != Rig
  {
    var k := FirstRig(overrides, 0);
    if k == -1 then overrides[0] else overrides[k]
  }

  /** The index of the first rig-level override at or after `from`, or -1. */
  function FirstRig(overrides: seq<Override>, from: nat): (r: int)
    requires from <= |overrides|
    ensures r == -1 || (from <= r < |overrides| && overrides[r].level == Rig)
    ensures forall j :: from <= j < |overrides| && (r == -1 || j < r) ==> overrides[j].level != Rig
    decreases |overrides| - from
  {
    if from == |overrides| then -1
    else if overrides[from].level == Rig then from
    else FirstRig(overrides, from + 1)
  }

  /** `update` works on a rig override whenever some rig holds one, never on the town's. */
  lemma RigOverTown(d: Disk, townRoot: Path, name: String, rig: Path)
    requires rig in Rigs.ScannedRigDirs(d, townRoot)
    requires Exists(d, JoinPath(FormulasDir(rig), name + Suffix))
    ensures SelectOverride(ScanFormulaOverridesForName(d, townRoot, name)).level == Rig
  {
  }

  // ---------------------------------------------------------------------
  // gt formula reset
  // ---------------------------------------------------------------------

  datatype ResetDone = ResetDone(path: Path, nowEmbedded: bool)

  datatype ResetError =
    | ResetNoTownRoot
    | BothLevels(rigName: String)
    | NoOverride(path: Path, usingEmbedded: bool)
    | RemoveFailed(path: Path)

  datatype ResetOutcome = ResetOutcome(result: Result<ResetDone, ResetError>, disk: Disk)

  /** The file `reset` removes: in the named rig with `--rig`, else in the town. */
  function ResetTarget(townRoot: Path, rigFlag: String, filename: String): Path {
    if rigFlag != [] then JoinPath(FormulasDir(JoinPath(townRoot, rigFlag)), filename)
    else JoinPath(FormulasDir(townRoot), filename)
  }

  /**
   * The effect of `runFormulaReset`: without `--rig`, a town override that
   * some rig also overrides is refused; a target `os.Stat` reports missing is
   * an error; anything else is removed with `os.Remove`.
   */
  function ResetEffect(d: Disk, emb: Embedded, townRoot: Option<Path>, rigFlag: String, name: String): ResetOutcome {
    match townRoot
    case None => ResetOutcome(Err(ResetNoTownRoot), d)
    case Some(root) =>
      var filename := name + Suffix;
      var target := ResetTarget(root, rigFlag, filename);
      var rigs := Rigs.ScannedRigDirs(d, root);
      var i := FirstExisting(d, RigFormulaPaths(rigs, filename), 0);
      if rigFlag == [] && i != -1 && Exists(d, target) then ResetOutcome(Err(BothLevels(Base(rigs[i]))), d)
      else if Stat(d, target) == NotExist then ResetOutcome(Err(NoOverride(target, EmbeddedFormulaExists(emb, name))), d)
      else if !CanRemove(d, target) then ResetOutcome(Err(RemoveFailed(target)), d)
      else ResetOutcome(Ok(ResetDone(target, EmbeddedFormulaExists(emb, name))), Removed(d, target))
  }

  /** The loop of `runFormulaReset` over the rigs: the first rig holding the file, when the town holds it too. */
  method ShadowingRig(d: Disk, rigDirs: seq<Path>, filename: String, target: Path) returns (k: int)
    ensures k == (if Exists(d, target) then FirstExisting(d, RigFormulaPaths(rigDirs, filename), 0) else -1)
    ensures k == -1 || 0 <= k < |rigDirs|
  {
    ghost var paths := RigFormulaPaths(rigDirs, filename);
    k := 0;
    while k < |rigDirs|
      invariant 0 <= k <= |rigDirs|
      invariant Exists(d, target) ==> forall j :: 0 <= j < k ==> !Exists(d, paths[j])
    {
      var rigPath := JoinPath(FormulasDir(rigDirs[k]), filename);
      assert rigPath == paths[k];
      if Exists(d, rigPath) && Exists(d, target) {
        FirstExistingAt(d, paths, k);
        return;
      }
      k := k + 1;
    }
    k := -1;
  }

  /** `runFormulaReset`. */
  method RunFormulaReset(fs: FileSystem, emb: Embedded, townRoot: Option<Path>, rigFlag: String, name: String)
    returns (r: Result<ResetDone, ResetError>)
    modifies fs
    ensures ResetEffect(old(fs.disk), emb, townRoot, rigFlag, name) == ResetOutcome(r, fs.disk)
  {
    if townRoot.None? {
      return Err(ResetNoTownRoot);
    }
    var root := townRoot.value;
    var filename := name + Suffix;
    var target := ResetTarget(root, rigFlag, filename);
    if rigFlag == [] {
      var rigDirs := Rigs.DiscoverRigDirs(fs.disk, root);
      var k := ShadowingRig(fs.disk, rigDirs, filename, target);
      if k != -1 {
        return Err(BothLevels(Base(rigDirs[k])));
      }
    }
    if Stat(fs.disk, target) == NotExist {
      return Err(NoOverride(target, EmbeddedFormulaExists(emb, name)));
    }
    var removed := fs.Remove(target);
    if !removed {
      return Err(RemoveFailed(target));
    }
    r := Ok(ResetDone(target, EmbeddedFormulaExists(emb, name)));
  }

  /** Without `--rig`, a town override shadowed by a rig override is refused and nothing is removed. */
  lemma ResetRefusesBothLevels(d: Disk, emb: Embedded, townRoot: Path, name: String, rig: Path)
    requires rig in Rigs.ScannedRigDirs(d, townRoot)
    requires Exists(d, JoinPath(FormulasDir(rig), name + Suffix))
    requires Exists(d, JoinPath(FormulasDir(townRoot), name + Suffix))
    ensures ResetEffect(d, emb, Some(townRoot), [], name).result.Err?
    ensures ResetEffect(d, emb, Some(townRoot), [], name).result.error.BothLevels?
    ensures ResetEffect(d, emb, Some(townRoot), [], name).disk == d
  {
    var rigs := Rigs.ScannedRigDirs(d, townRoot);
    var paths := RigFormulaPaths(rigs, name + Suffix);
    var k :| 0 <= k < |rigs| && rigs[k] == rig;
    assert Exists(d, paths[k]);
  }

  /** A missing target is an error that names whether the embedded version is in use; nothing changes. */
  lemma ResetMissingTarget(d: Disk, emb: Embedded, townRoot: Path, rigFlag: String, name: String)
    requires Stat(d, ResetTarget(townRoot, rigFlag, name + Suffix)) == NotExist
    ensures ResetEffect(d, emb, Some(townRoot), rigFlag, name)
      == ResetOutcome(Err(NoOverride(ResetTarget(townRoot, rigFlag, name + Suffix), EmbeddedFormulaExists(emb, name))), d)
  {
  }

  /** A successful reset removes its target and leaves every other path as it was. */
  lemma ResetRemovesOnlyTarget(d: Disk, emb: Embedded, townRoot: Path, rigFlag: String, name: String, p: Path)
    requires ResetEffect(d, emb, Some(townRoot), rigFlag, name).result.Ok?
    ensures var out := ResetEffect(d, emb, Some(townRoot), rigFlag, name);
      && out.result.value.path == ResetTarget(townRoot, rigFlag, name + Suffix)
      && Stat(out.disk, out.result.value.path) == NotExist
      && (p != out.result.value.path ==> Stat(out.disk, p) == Stat(d, p) && ReadFile(out.disk, p) == ReadFile(d, p))
  {
    var target := ResetTarget(townRoot, rigFlag, name + Suffix);
    ResetOkRemoves(d, emb, townRoot, rigFlag, name);
    RemovedStat(d, target, p);
  }

  lemma FormulasDirNonEmpty(root: Path)
    ensures FormulasDir(root) != []
  {
  }

  /**
   * Resetting the town override of an embedded formula, with no JSON
   * override beside it, makes the town-level resolution fall back to the
   * embedded formula.
   */
  lemma ResetRestoresEmbedded(d: Disk, emb: Embedded, townRoot: Path, name: String)
    requires ResetEffect(d, emb, Some(townRoot), [], name).result.Ok?
    requires EmbeddedFormulaExists(emb, name)
    requires !Exists(d, JoinPath(FormulasDir(townRoot), name + JsonExtension))
    ensures FindFormulaWithSource(ResetEffect(d, emb, Some(townRoot), [], name).disk, emb, None, Some(townRoot), name)
      == Ok(Location(name, FromEmbedded))
  {
    var dir := FormulasDir(townRoot);
    var toml := JoinPath(dir, name + TomlExtension);
    var json := JoinPath(dir, name + JsonExtension);
    ResetOkRemoves(d, emb, townRoot, [], name);
    var d' := Removed(d, toml);
    assert (name + TomlExtension)[|name|..] != (name + JsonExtension)[|name|..];
    FormulasDirNonEmpty(townRoot);
    JoinDistinct(dir, name + TomlExtension, name + JsonExtension);
    TownCandidates(townRoot, name);
    assert !Exists(d', toml) && !Exists(d', json);
    EmbeddedFallback(d', emb, None, Some(townRoot), name);
  }

  /** A reset that succeeds removes its target and nothing else. */
  lemma ResetOkRemoves(d: Disk, emb: Embedded, townRoot: Path, rigFlag: String, name: String)
    requires ResetEffect(d, emb, Some(townRoot), rigFlag, name).result.Ok?
    ensures ResetEffect(d, emb, Some(townRoot), rigFlag, name).result.value.path == ResetTarget(townRoot, rigFlag, name + Suffix)
    ensures ResetEffect(d, emb, Some(townRoot), rigFlag, name).disk == Removed(d, ResetTarget(townRoot, rigFlag, name + Suffix))
    ensures CanRemove(d, ResetTarget(townRoot, rigFlag, name + Suffix))
  {
  }

  /** With only a town root, the candidates are the town's TOML and JSON files. */
  lemma TownCandidates(townRoot: Path, name: String)
    ensures Candidates(SearchDirs(None, Some(townRoot)), name)
      == [JoinPath(FormulasDir(townRoot), name + TomlExtension), JoinPath(FormulasDir(townRoot), name + JsonExtension)]
  {
  }

  // ---------------------------------------------------------------------
  // gt formula update
  // ---------------------------------------------------------------------

  /** The agent side of an update: `GT_DEFAULT_AGENT`, the presets, the `PATH`, and the agent run (its output, or `None` on failure). */
  datatype AgentEnv = AgentEnv(
    envAgent: String,
    presets: map<String, Merge.Preset>,
    onPath: set<String>,
    run: (String, seq<String>) -> Option<String>)

  datatype UpdateDone =
    | UpToDate(path: Path)
    | Proposed(path: Path, merged: String)
    | Applied(path: Path, backup: Path)

  datatype UpdateError =
    | UpdateNotEmbedded(name: String)
    | UpdateNoTownRoot
    | NothingToUpdate(name: String)
    | OverrideUnreadable(path: Path)
    | AgentUnavailable(error: Merge.AgentError)
    | MergeFailed(path: Path)
    | EmptyMerge(path: Path)
    | BackupFailed(path: Path)
    | WriteMergedFailed(path: Path)

  datatype UpdateOutcome = UpdateOutcome(result: Result<UpdateDone, UpdateError>, disk: Disk)

  /** An override records a base version and it is the current one: no update is needed. */
  predicate IsCurrent(content: String, currentHash: String) {
    ExtractBaseHash(content) != [] && ExtractBaseHash(content) == currentHash
  }

  /** The backup `update --apply` writes before replacing an override. */
  function BackupPath(path: Path): Path {
    path + ".bak"
  }

  /** The bytes `update --apply` writes: a fresh header for the current hash, then the merge without any header it carried. */
  function MergedFile(currentHash: String, name: String, merged: String): String {
    Header(currentHash, name) + Merge.StripHeader(merged)
  }

  /** The apply step: back up the old bytes, then write the merged file. */
  function ApplyMerge(d: Disk, path: Path, content: String, currentHash: String, name: String, merged: String): UpdateOutcome {
    var bak := BackupPath(path);
    if !CanWrite(d, bak) then UpdateOutcome(Err(BackupFailed(bak)), d)
    else
      var backedUp := Written(d, bak, content);
      if !CanWrite(backedUp, path) then UpdateOutcome(Err(WriteMergedFailed(path)), backedUp)
      else UpdateOutcome(Ok(Applied(path, bak)), Written(backedUp, path, MergedFile(currentHash, name, merged)))
  }

  /** The agent step: choose the agent, run it on the prompt, and keep its trimmed, non-empty output. */
  function AgentMerge(d: Disk, env: AgentEnv, townRoot: Path, name: String, path: Path, content: String,
                      baseHash: String, currentHash: String, embedded: String): Result<String, UpdateError>
  {
    match Merge.DetectFormulaUpdateAgent(env.envAgent, d, env.presets, env.onPath, townRoot)
    case Err(e) => Err(AgentUnavailable(e))
    case Ok(agent) =>
      var prompt := Merge.BuildMergePrompt(name, baseHash, currentHash, embedded, content);
      match env.run(agent.command, agent.args + [prompt])
      case None => Err(MergeFailed(path))
      case Some(output) =>
        var merged := TrimSpace(output);
        if merged == [] then Err(EmptyMerge(path)) else Ok(merged)
  }

  /**
   * Everything `runFormulaUpdate` does once it has chosen the override `o`:
   * stop when it records the current embedded hash, otherwise have the agent
   * merge it and, with `--apply`, write the merge back.
   */
  function UpdateOverride(d: Disk, emb: Embedded, sha: String -> Digest, env: AgentEnv, townRoot: Path, name: String, o: Override, apply: bool): (r: UpdateOutcome)
    requires EmbeddedFormulaExists(emb, name)
    ensures !apply ==> r.disk == d
  {
    match ReadFile(d, o.path)
    case Err(_) => UpdateOutcome(Err(OverrideUnreadable(o.path)), d)
    case Ok(content) =>
      var currentHash := GetEmbeddedFormulaHash(emb, sha, name).value;
      if IsCurrent(content, currentHash) then UpdateOutcome(Ok(UpToDate(o.path)), d)
      else
        var embedded := GetEmbeddedFormula(emb, name).value;
        match AgentMerge(d, env, townRoot, name, o.path, content, ExtractBaseHash(content), currentHash, embedded)
        case Err(e) => UpdateOutcome(Err(e), d)
        case Ok(merged) =>
          if apply then ApplyMerge(d, o.path, content, currentHash, name, merged)
          else UpdateOutcome(Ok(Proposed(o.path, merged)), d)
  }

  /** The effect of `runFormulaUpdate`: check the name and the town, then update the override `SelectOverride` picks. */
  function UpdateEffect(d: Disk, emb: Embedded, sha: String -> Digest, env: AgentEnv, townRoot: Option<Path>, name: String, apply: bool): UpdateOutcome {
    if !EmbeddedFormulaExists(emb, name) then UpdateOutcome(Err(UpdateNotEmbedded(name)), d)
    else if townRoot.None? then UpdateOutcome(Err(UpdateNoTownRoot), d)
    else
      var overrides := ScanFormulaOverridesForName(d, townRoot.value, name);
      if overrides == [] then UpdateOutcome(Err(NothingToUpdate(name)), d)
      else UpdateOverride(d, emb, sha, env, townRoot.value, name, SelectOverride(overrides), apply)
  }

  /** `runFormulaUpdate`. */
  method RunFormulaUpdate(fs: FileSystem, emb: Embedded, sha: String -> Digest, env: AgentEnv, townRoot: Option<Path>, name: String, apply: bool)
    returns (r: Result<UpdateDone, UpdateError>)
    modifies fs
    ensures UpdateEffect(old(fs.disk), emb, sha, env, townRoot, name, apply) == UpdateOutcome(r, fs.disk)
  {
    if !EmbeddedFormulaExists(emb, name) {
      return Err(UpdateNotEmbedded(name));
    }
    if townRoot.None? {
      return Err(UpdateNoTownRoot);
    }
    var overrides := ScanFormulaOverridesForName(fs.disk, townRoot.value, name);
    if |overrides| == 0 {
      return Err(NothingToUpdate(name));
    }
    var chosen := ChooseOverride(overrides);
    var read := ReadFile(fs.disk, chosen.path);
    if read.Err? {
      return Err(OverrideUnreadable(chosen.path));
    }
    var content := read.value;
    var baseHash := ExtractBaseHash(content);
    var currentHash := GetEmbeddedFormulaHash(emb, sha, name).value;
    if baseHash != [] && baseHash == currentHash {
      return Ok(UpToDate(chosen.path));
    }
    var embedded := GetEmbeddedFormula(emb, name).value;
    var merge := AgentMerge(fs.disk, env, townRoot.value, name, chosen.path, content, baseHash, currentHash, embedded);
    if merge.Err? {
      return Err(merge.error);
    }
    var merged := merge.value;
    if !apply {
      return Ok(Proposed(chosen.path, merged));
    }
    r := WriteMergedOverride(fs, chosen.path, content, currentHash, name, merged);
  }

  /** The loop of `runFormulaUpdate` that picks the override: the first at rig level, else the first of all. */
  method ChooseOverride(overrides: seq<Override>) returns (chosen: Override)
    requires overrides != []
    ensures chosen == SelectOverride(overrides)
  {
    chosen := overrides[0];
    var k := 0;
    while k < |overrides|
      invariant 0 <= k <= |overrides|
      invariant FirstRig(overrides, 0) == FirstRig(overrides, k)
      invariant chosen == overrides[0]
    {
      if overrides[k].level == Rig {
        chosen := overrides[k];
        break;
      }
      k := k + 1;
    }
  }

  /** The `--apply` branch of `runFormulaUpdate`: back up the override, then write the header and the merge without its header. */
  method WriteMergedOverride(fs: FileSystem, path: Path, content: String, currentHash: String, name: String, merged: String)
    returns (r: Result<UpdateDone, UpdateError>)
    modifies fs
    ensures ApplyMerge(old(fs.disk), path, content, currentHash, name, merged) == UpdateOutcome(r, fs.disk)
  {
    var bak := BackupPath(path);
    var backedUp := fs.WriteFile(bak, content);
    if !backedUp {
      return Err(BackupFailed(bak));
    }
    var stripped := Merge.StripFormulaHeader(merged);
    var wrote := fs.WriteFile(path, Header(currentHash, name) + stripped);
    if !wrote {
      return Err(WriteMergedFailed(path));
    }
    r := Ok(Applied(path, bak));
  }

  /** Without `--apply` an update never touches the file system. */
  lemma ProposalWritesNothing(d: Disk, emb: Embedded, sha: String -> Digest, env: AgentEnv, townRoot: Option<Path>, name: String)
    ensures UpdateEffect(d, emb, sha, env, townRoot, name, false).disk == d
  {
  }

  /**
   * An override that records the current embedded hash is reported up to
   * date, whatever the agent environment: no agent is looked for or run, and
   * nothing is written.
   */
  lemma CurrentNeedsNoAgent(d: Disk, emb: Embedded, sha: String -> Digest, env1: AgentEnv, env2: AgentEnv, townRoot: Path, name: String, apply: bool)
    requires EmbeddedFormulaExists(emb, name)
    requires ScanFormulaOverridesForName(d, townRoot, name) != []
    requires var o := SelectOverride(ScanFormulaOverridesForName(d, townRoot, name));
      ReadFile(d, o.path).Ok? && IsCurrent(ReadFile(d, o.path).value, GetEmbeddedFormulaHash(emb, sha, name).value)
    ensures UpdateEffect(d, emb, sha, env1, Some(townRoot), name, apply) == UpdateEffect(d, emb, sha, env2, Some(townRoot), name, apply)
    ensures UpdateEffect(d, emb, sha, env1, Some(townRoot), name, apply)
      == UpdateOutcome(Ok(UpToDate(SelectOverride(ScanFormulaOverridesForName(d, townRoot, name)).path)), d)
  {
  }

  /** The merged file records the current hash, so a later update finds the override up to date. */
  lemma MergedFileIsCurrent(currentHash: Digest, name: String, merged: String)
    ensures ExtractBaseHash(MergedFile(currentHash, name, merged)) == currentHash
    ensures IsCurrent(MergedFile(currentHash, name, merged), currentHash)
  {
    HeaderBaseHash(currentHash, name, Merge.StripHeader(merged));
  }

  /** A successful apply step leaves the old bytes in the backup and the merged file, up to date, in place of the override. */
  lemma ApplyMergeWrites(d: Disk, path: Path, content: String, currentHash: Digest, name: String, merged: String)
    requires ApplyMerge(d, path, content, currentHash, name, merged).result.Ok?
    ensures var out := ApplyMerge(d, path, content, currentHash, name, merged);
      && out.result.value == Applied(path, BackupPath(path))
      && ReadFile(out.disk, BackupPath(path)) == Ok(content)
      && ReadFile(out.disk, path) == Ok(MergedFile(currentHash, name, merged))
      && IsCurrent(ReadFile(out.disk, path).value, currentHash)
  {
    var bak := BackupPath(path);
    var backedUp := Written(d, bak, content);
    var file := MergedFile(currentHash, name, merged);
    assert ApplyMerge(d, path, content, currentHash, name, merged) == UpdateOutcome(Ok(Applied(path, bak)), Written(backedUp, path, file));
    assert |bak| != |path|;
    ReadWritten(d, bak, content, bak);
    ReadWritten(backedUp, path, file, bak);
    ReadWritten(backedUp, path, file, path);
    MergedFileIsCurrent(currentHash, name, merged);
  }

  /**
   * What an applied update promises about the file system `after` it: the
   * old bytes of the override are in the backup, and the override holds a
   * file that records `currentHash`, which the old bytes did not.
   */
  predicate AppliedWell(before: Disk, after: Disk, done: UpdateDone, currentHash: String) {
    && done.Applied?
    && done.backup == BackupPath(done.path)
    && ReadFile(before, done.path).Ok?
    && ReadFile(after, done.backup) == ReadFile(before, done.path)
    && ReadFile(after, done.path).Ok?
    && IsCurrent(ReadFile(after, done.path).value, currentHash)
    && !IsCurrent(ReadFile(before, done.path).value, currentHash)
  }

  /** An update of a chosen override that applies a merge keeps the promise of `AppliedWell`. */
  lemma OverrideApplied(d: Disk, emb: Embedded, sha: String -> Digest, env: AgentEnv, townRoot: Path, name: String, o: Override)
    requires EmbeddedFormulaExists(emb, name)
    requires UpdateOverride(d, emb, sha, env, townRoot, name, o, true).result.Ok?
    requires UpdateOverride(d, emb, sha, env, townRoot, name, o, true).result.value.Applied?
    ensures var out := UpdateOverride(d, emb, sha, env, townRoot, name, o, true);
      AppliedWell(d, out.disk, out.result.value, GetEmbeddedFormulaHash(emb, sha, name).value)
  {
    var content := ReadFile(d, o.path).value;
    var currentHash := GetEmbeddedFormulaHash(emb, sha, name).value;
    var embedded := GetEmbeddedFormula(emb, name).value;
    var merged := AgentMerge(d, env, townRoot, name, o.path, content, ExtractBaseHash(content), currentHash, embedded).value;
    assert UpdateOverride(d, emb, sha, env, townRoot, name, o, true) == ApplyMerge(d, o.path, content, currentHash, name, merged);
    ApplyMergeWrites(d, o.path, content, currentHash, name, merged);
  }

  /**
   * An applied update leaves the old bytes in the backup, and in the
   * override a fresh header for the current hash followed by the merge
   * without its own header; the override it replaced was not up to date.
   */
  lemma AppliedUpdate(d: Disk, emb: Embedded, sha: String -> Digest, env: AgentEnv, townRoot: Path, name: String)
    requires UpdateEffect(d, emb, sha, env, Some(townRoot), name, true).result.Ok?
    requires UpdateEffect(d, emb, sha, env, Some(townRoot), name, true).result.value.Applied?
    ensures var out := UpdateEffect(d, emb, sha, env, Some(townRoot), name, true);
      AppliedWell(d, out.disk, out.result.value, GetEmbeddedFormulaHash(emb, sha, name).value)
  {
    var o := SelectOverride(ScanFormulaOverridesForName(d, townRoot, name));
    OverrideApplied(d, emb, sha, env, townRoot, name, o);
  }

  // ---------------------------------------------------------------------
  // gt formula modify
  // ---------------------------------------------------------------------

  datatype ModifyError =
    | ModifyNotEmbedded(name: String)
    | ModifyNoTownRoot
    | OverrideExists(path: Path)
    | CopyFailed(error: CopyError)

  datatype ModifyOutcome = ModifyOutcome(result: Result<Path, ModifyError>, disk: Disk)

  /** The directory `modify` copies into: the rig's with `--rig`, the given town's with `--town`, else the town's. */
  function ModifyDir(townRoot: Option<Path>, rigFlag: String, townFlag: String): (r: Result<Path, ModifyError>)
    ensures rigFlag == [] && townFlag != [] ==> r == Ok(FormulasDir(townFlag))
    ensures r.Err? <==> (rigFlag != [] || townFlag == []) && townRoot.None?
  {
    if rigFlag != [] then
      if townRoot.None? then Err(ModifyNoTownRoot) else Ok(FormulasDir(JoinPath(townRoot.value, rigFlag)))
    else if townFlag != [] then Ok(FormulasDir(townFlag))
    else if townRoot.None? then Err(ModifyNoTownRoot)
    else Ok(FormulasDir(townRoot.value))
  }

  /**
   * The effect of `runFormulaModify`: refuse a name that is not embedded and
   * a destination that already exists, then copy the embedded formula.
   */
  function ModifyEffect(d: Disk, emb: Embedded, sha: String -> Digest, townRoot: Option<Path>, rigFlag: String, townFlag: String, name: String): ModifyOutcome {
    if !EmbeddedFormulaExists(emb, name) then ModifyOutcome(Err(ModifyNotEmbedded(name)), d)
    else
      match ModifyDir(townRoot, rigFlag, townFlag)
      case Err(e) => ModifyOutcome(Err(e), d)
      case Ok(destDir) =>
        var destPath := JoinPath(destDir, name + Suffix);
        if Exists(d, destPath) then ModifyOutcome(Err(OverrideExists(destPath)), d)
        else
          var c := Copy(d, emb, sha, name, destDir);
          match c.result
          case Err(e) => ModifyOutcome(Err(CopyFailed(e)), c.disk)
          case Ok(p) => ModifyOutcome(Ok(p), c.disk)
  }

  /** `runFormulaModify`. */
  method RunFormulaModify(fs: FileSystem, emb: Embedded, sha: String -> Digest, townRoot: Option<Path>, rigFlag: String, townFlag: String, name: String)
    returns (r: Result<Path, ModifyError>)
    modifies fs
    ensures ModifyEffect(old(fs.disk), emb, sha, townRoot, rigFlag, townFlag, name) == ModifyOutcome(r, fs.disk)
  {
    if !EmbeddedFormulaExists(emb, name) {
      return Err(ModifyNotEmbedded(name));
    }
    var dir := ModifyDir(townRoot, rigFlag, townFlag);
    if dir.Err? {
      return Err(dir.error);
    }
    var destPath := JoinPath(dir.value, name + Suffix);
    if Exists(fs.disk, destPath) {
      return Err(OverrideExists(destPath));
    }
    var copied := CopyFormulaTo(fs, emb, sha, name, dir.value);
    if copied.Err? {
      return Err(CopyFailed(copied.error));
    }
    r := Ok(copied.value);
  }

  /** `modify` never changes an existing override. */
  lemma ModifyKeepsExisting(d: Disk, emb: Embedded, sha: String -> Digest, townRoot: Option<Path>, rigFlag: String, townFlag: String, name: String)
    requires ModifyDir(townRoot, rigFlag, townFlag).Ok?
    requires Exists(d, JoinPath(ModifyDir(townRoot, rigFlag, townFlag).value, name + Suffix))
    ensures ModifyEffect(d, emb, sha, townRoot, rigFlag, townFlag, name).result.Err?
    ensures ModifyEffect(d, emb, sha, townRoot, rigFlag, townFlag, name).disk == d
  {
  }

  /**
   * A created override is up to date with the embedded formula it copies:
   * an `update` right after it has nothing to merge.
   */
  lemma ModifiedIsCurrent(d: Disk, emb: Embedded, sha: String -> Digest, townRoot: Option<Path>, rigFlag: String, townFlag: String, name: String)
    requires ModifyEffect(d, emb, sha, townRoot, rigFlag, townFlag, name).result.Ok?
    ensures var out := ModifyEffect(d, emb, sha, townRoot, rigFlag, townFlag, name);
      && ReadFile(out.disk, out.result.value).Ok?
      && IsCurrent(ReadFile(out.disk, out.result.value).value, GetEmbeddedFormulaHash(emb, sha, name).value)
      && HasSuffix(ReadFile(out.disk, out.result.value).value, GetEmbeddedFormula(emb, name).value)
  {
    var destDir := ModifyDir(townRoot, rigFlag, townFlag).value;
    CopySucceeds(d, emb, sha, name, destDir);
    var content := GetEmbeddedFormula(emb, name).value;
    HeaderBaseHash(sha(content), name, content);
  }
}
