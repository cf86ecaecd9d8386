/**
 * The doctor checks over formulas: that the embedded formulas can be
 * listed, and that no town or rig keeps a provisioned copy of an embedded
 * formula that is byte-for-byte the embedded one (such copies are left over
 * from old installs and only shadow the embedded version).
 */
module FormulaDoctor {
  import opened Outcome
  import opened Text
  import opened Disk
  import opened Embed
  import opened Checks
  import Resolve
  import Rigs

  const FormulaCheckName: String := "formulas"
  const LegacyCheckName: String := "legacy-formulas"

  /**
   * `FormulaCheck.Run`: a warning when the embedded formulas cannot be
   * listed or there are none, else OK with their number.
   */
  method FormulaCheckRun(emb: Embedded) returns (r: CheckResult)
    ensures r.name == FormulaCheckName && r.details == []
    ensures r.status == StatusOK <==> emb.listing.Some? && FileEntries(emb.listing.value) != []
    ensures r.status == StatusOK || r.status == StatusWarning
    ensures r.status == StatusOK ==> r.message == NatToDecimal(|FileEntries(emb.listing.value)|) + " embedded formulas available"
  {
    var names := GetEmbeddedFormulaNames(emb);
    if names.Err? {
      return CheckResult(FormulaCheckName, StatusWarning, "Could not read embedded formulas", [], []);
    }
    if |names.value| == 0 {
      return CheckResult(FormulaCheckName, StatusWarning, "No embedded formulas found", [], []);
    }
    r := CheckResult(FormulaCheckName, StatusOK, NatToDecimal(|names.value|) + " embedded formulas available", [], []);
  }

  /**
   * A listing entry that `scanForLegacyFormulas` collects: a file named
   * `*.formula.toml` whose stem is embedded, whose bytes can be read and are
   * exactly the embedded bytes.
   */
  predicate IsLegacy(d: Disk, emb: Embedded, dir: Path, e: DirEntry) {
    var name := TrimSuffix(e.name, Suffix);
    var local := ReadFile(d, JoinPath(dir, e.name));
    var embedded := GetEmbeddedFormula(emb, name);
    && !e.isDir && HasSuffix(e.name, Suffix)
    && EmbeddedFormulaExists(emb, name)
    && local.Ok? && embedded.Ok? && local.value == embedded.value
  }

  /** The paths of the legacy entries of a listing of `dir`, in listing order. */
  function LegacyIn(d: Disk, emb: Embedded, dir: Path, entries: seq<DirEntry>): (r: seq<Path>)
    ensures |r| <= |entries|
    decreases |entries|
  {
    if entries == [] then []
    else
      var last := entries[|entries| - 1];
      LegacyIn(d, emb, dir, entries[..|entries| - 1])
        + (if IsLegacy(d, emb, dir, last) then [JoinPath(dir, last.name)] else [])
  }

  /** One more entry of the listing adds its path exactly when it is a legacy copy. */
  lemma LegacyStep(d: Disk, emb: Embedded, dir: Path, entries: seq<DirEntry>, i: nat)
    requires i < |entries|
    ensures IsLegacy(d, emb, dir, entries[i]) ==>
      LegacyIn(d, emb, dir, entries[..i + 1]) == LegacyIn(d, emb, dir, entries[..i]) + [JoinPath(dir, entries[i].name)]
    ensures !IsLegacy(d, emb, dir, entries[i]) ==> LegacyIn(d, emb, dir, entries[..i + 1]) == LegacyIn(d, emb, dir, entries[..i])
  {
    assert entries[..i + 1][..i] == entries[..i];
    assert LegacyIn(d, emb, dir, entries[..i]) + [] == LegacyIn(d, emb, dir, entries[..i]);
  }

  /** The tests `scanForLegacyFormulas` applies to one entry of `dir`, in its order, skipping the entry at the first that fails. */
  method CheckEntry(d: Disk, emb: Embedded, dir: Path, entry: DirEntry) returns (legacy: bool)
    ensures legacy == IsLegacy(d, emb, dir, entry)
  {
    if entry.isDir || !HasSuffix(entry.name, Suffix) {
      return false;
    }
    var name := TrimSuffix(entry.name, Suffix);
    if !EmbeddedFormulaExists(emb, name) {
      return false;
    }
    var local := ReadFile(d, JoinPath(dir, entry.name));
    if local.Err? {
      return false;
    }
    var embedded := GetEmbeddedFormula(emb, name);
    if embedded.Err? {
      return false;
    }
    legacy := local.value == embedded.value;
  }

  /** What one scan of `dir` collects: nothing when it cannot be listed. */
  function ScannedLegacy(d: Disk, emb: Embedded, dir: Path): seq<Path> {
    match ReadDir(d, dir)
    case Err(_) => []
    case Ok(entries) => LegacyIn(d, emb, dir, entries)
  }

  /** The scans of the rigs' formulas directories, one after the other. */
  function RigsLegacy(d: Disk, emb: Embedded, rigDirs: seq<Path>): seq<Path>
    decreases |rigDirs|
  {
    if rigDirs == [] then []
    else
      RigsLegacy(d, emb, rigDirs[..|rigDirs| - 1])
        + ScannedLegacy(d, emb, Resolve.FormulasDir(rigDirs[|rigDirs| - 1]))
  }
  /** One more rig appends that rig's scan. */
  lemma RigsLegacyStep(d: Disk, emb: Embedded, rigDirs: seq<Path>, i: nat)
    requires i < |rigDirs|
    ensures RigsLegacy(d, emb, rigDirs[..i + 1]) == RigsLegacy(d, emb, rigDirs[..i]) + ScannedLegacy(d, emb, Resolve.FormulasDir(rigDirs[i]))
  {
    assert rigDirs[..i + 1][..i] == rigDirs[..i];
  }


  /** What `Run` collects: the town's formulas directory, then each rig's. */
  function LegacyFormulas(d: Disk, emb: Embedded, townRoot: Path): seq<Path> {
    ScannedLegacy(d, emb, Resolve.FormulasDir(townRoot)) + RigsLegacy(d, emb, Rigs.ScannedRigDirs(d, townRoot))
  }

  /** The outcome of removing a list of paths one by one, going on after failures. */
  datatype Removal = Removal(disk: Disk, removed: seq<Path>, failed: seq<Path>)

  /** `os.Remove` of each path in order, each one seeing the disk the previous ones left. */
  function RemoveEach(d: Disk, paths: seq<Path>): (r: Removal)
    ensures multiset(r.removed) + multiset(r.failed) == multiset(paths)
    decreases |paths|
  {
    if paths == [] then Removal(d, [], [])
    else
      var front := paths[..|paths| - 1];
      var p := paths[|paths| - 1];
      var before := RemoveEach(d, front);
      assert paths == front + [p];
      if CanRemove(before.disk, p) then Removal(Removed(before.disk, p), before.removed + [p], before.failed)
      else Removal(before.disk, before.removed, before.failed + [p])
  }

  /** `LegacyProvisionedFormulasCheck`: `Run` caches the paths it reports; `Fix` removes them. */
  class LegacyProvisionedFormulasCheck {
    var legacyFormulas: seq<Path>

    constructor ()
      ensures legacyFormulas == []
    {
      legacyFormulas := [];
    }

    /** `scanForLegacyFormulas`: appends the legacy copies found in one directory. */
    method ScanForLegacyFormulas(d: Disk, emb: Embedded, formulasDir: Path)
      modifies this
      ensures legacyFormulas == old(legacyFormulas) + ScannedLegacy(d, emb, formulasDir)
    {
      var listing := ReadDir(d, formulasDir);
      if listing.Err? {
        assert legacyFormulas + [] == legacyFormulas;
        return;
      }
      var entries := listing.value;
      ghost var before := legacyFormulas;
      for i := 0 to |entries|
        invariant legacyFormulas == before + LegacyIn(d, emb, formulasDir, entries[..i])
      {
        LegacyStep(d, emb, formulasDir, entries, i);
        var legacy := CheckEntry(d, emb, formulasDir, entries[i]);
        if legacy {
          legacyFormulas := legacyFormulas + [JoinPath(formulasDir, entries[i].name)];
        }
      }
      assert entries[..|entries|] == entries;
    }

    /**
     * `Run`: clears the cache, scans the town's formulas directory and then
     * each rig's, and warns with the collected paths as details unless
     * nothing was collected; the message says so, or gives their count.
     */
    method Run(d: Disk, emb: Embedded, townRoot: Path) returns (r: CheckResult)
      modifies this
      ensures legacyFormulas == LegacyFormulas(d, emb, townRoot)
      ensures r.name == LegacyCheckName
      ensures r.status == (if legacyFormulas == [] then StatusOK else StatusWarning)
      ensures r.details == legacyFormulas
      ensures r.message == if legacyFormulas == [] then "No legacy provisioned formulas found"
        else "Found " + NatToDecimal(|legacyFormulas|) + " legacy provisioned formulas that match embedded versions"
      ensures r.fixHint == []
    {
      legacyFormulas := [];
      ScanForLegacyFormulas(d, emb, Resolve.FormulasDir(townRoot));
      var rigDirs := Rigs.DiscoverRigDirs(d, townRoot);
      ghost var town := ScannedLegacy(d, emb, Resolve.FormulasDir(townRoot));
      for i := 0 to |rigDirs|
        invariant legacyFormulas == town + RigsLegacy(d, emb, rigDirs[..i])
      {
        RigsLegacyStep(d, emb, rigDirs, i);
        ScanForLegacyFormulas(d, emb, Resolve.FormulasDir(rigDirs[i]));
        AppendAssoc(town, RigsLegacy(d, emb, rigDirs[..i]), ScannedLegacy(d, emb, Resolve.FormulasDir(rigDirs[i])));
      }
      assert rigDirs[..|rigDirs|] == rigDirs;
      if |legacyFormulas| == 0 {
        return CheckResult(LegacyCheckName, StatusOK, "No legacy provisioned formulas found", [], []);
      }
      r := CheckResult(LegacyCheckName, StatusWarning,
        "Found " + NatToDecimal(|legacyFormulas|) + " legacy provisioned formulas that match embedded versions",
        legacyFormulas, []);
    }

    /**
     * `Fix`: removes every cached path, going on after a failure; the error
     * it returns lists the paths it could not remove, and there is none
     * when every removal succeeded.
     */
    method Fix(fs: FileSystem) returns (err: Option<seq<Path>>)
      modifies fs
      ensures var run := RemoveEach(old(fs.disk), legacyFormulas);
        fs.disk == run.disk && err == (if run.failed == [] then None else Some(run.failed))
    {
      if |legacyFormulas| == 0 {
        return None;
      }
      var removed: seq<Path> := [];
      var errors: seq<Path> := [];
      for i := 0 to |legacyFormulas|
        invariant RemoveEach(old(fs.disk), legacyFormulas[..i]) == Removal(fs.disk, removed, errors)
      {
        assert legacyFormulas[..i + 1][..i] == legacyFormulas[..i];
        var path := legacyFormulas[i];
        var ok := fs.Remove(path);
        if ok {
          removed := removed + [path];
        } else {
          errors := errors + [path];
        }
      }
      assert legacyFormulas[..|legacyFormulas|] == legacyFormulas;
      err := if errors == [] then None else Some(errors);
    }
  }

  /** A path is collected from a listing exactly when it is the path of a legacy entry of that listing. */
  lemma {:induction false} LegacyInMembers(d: Disk, emb: Embedded, dir: Path, entries: seq<DirEntry>, p: Path)
    ensures p in LegacyIn(d, emb, dir, entries)
      <==> exists e :: e in entries && IsLegacy(d, emb, dir, e) && p == JoinPath(dir, e.name)
    decreases |entries|
  {
    if entries != [] {
      var front := entries[..|entries| - 1];
      var last := entries[|entries| - 1];
      assert entries == front + [last];
      LegacyInMembers(d, emb, dir, front, p);
    }
  }

  /**
   * A scan of a directory collects a path exactly when the directory can be
   * listed and the path is that of one of its entries which is a file named
   * `*.formula.toml`, whose stem is embedded, and whose readable bytes are
   * the embedded bytes; unreadable directories and files are skipped.
   */
  lemma ScannedLegacyIff(d: Disk, emb: Embedded, dir: Path, p: Path)
    ensures p in ScannedLegacy(d, emb, dir)
      <==> ReadDir(d, dir).Ok? && exists e :: e in ReadDir(d, dir).value && IsLegacy(d, emb, dir, e) && p == JoinPath(dir, e.name)
  {
    if ReadDir(d, dir).Ok? {
      LegacyInMembers(d, emb, dir, ReadDir(d, dir).value, p);
    }
  }

  /** Every path a scan collects is a readable file whose bytes are those of some embedded formula. */
  lemma ScannedAreEmbeddedCopies(d: Disk, emb: Embedded, dir: Path, p: Path)
    requires p in ScannedLegacy(d, emb, dir)
    ensures ReadFile(d, p).Ok?
    ensures exists name :: GetEmbeddedFormula(emb, name) == Ok(ReadFile(d, p).value)
  {
    ScannedLegacyIff(d, emb, dir, p);
    var e :| e in ReadDir(d, dir).value && IsLegacy(d, emb, dir, e) && p == JoinPath(dir, e.name);
    var name := TrimSuffix(e.name, Suffix);
    assert GetEmbeddedFormula(emb, name) == Ok(ReadFile(d, p).value);
  }

  /** A path is among the rigs' collected paths exactly when one rig's scan collected it. */
  lemma {:induction false} RigsLegacyMembers(d: Disk, emb: Embedded, rigDirs: seq<Path>, p: Path)
    ensures p in RigsLegacy(d, emb, rigDirs)
      <==> exists rig :: rig in rigDirs && p in ScannedLegacy(d, emb, Resolve.FormulasDir(rig))
    decreases |rigDirs|
  {
    if rigDirs != [] {
      var front := rigDirs[..|rigDirs| - 1];
      var last := rigDirs[|rigDirs| - 1];
      assert rigDirs == front + [last];
      RigsLegacyMembers(d, emb, front, p);
    }
  }

  /**
   * `Run` reports a path exactly when the town's scan or the scan of one of
   * the registered rig directories collected it.
   */
  lemma LegacyFormulasIff(d: Disk, emb: Embedded, townRoot: Path, p: Path)
    ensures p in LegacyFormulas(d, emb, townRoot)
      <==> (p in ScannedLegacy(d, emb, Resolve.FormulasDir(townRoot))
           || exists rig :: rig in Rigs.ScannedRigDirs(d, townRoot) && p in ScannedLegacy(d, emb, Resolve.FormulasDir(rig)))
  {
    RigsLegacyMembers(d, emb, Rigs.ScannedRigDirs(d, townRoot), p);
  }

  /** A failed removal leaves the disk as it was, so the removals change nothing but the paths removed. */
  lemma {:induction false} RemoveEachFrame(d: Disk, paths: seq<Path>, q: Path)
    requires q !in paths
    ensures Stat(RemoveEach(d, paths).disk, q) == Stat(d, q)
    ensures ReadFile(RemoveEach(d, paths).disk, q) == ReadFile(d, q)
    decreases |paths|
  {
    if paths != [] {
      var front := paths[..|paths| - 1];
      assert q !in front by { assert paths == front + [paths[|paths| - 1]]; }
      RemoveEachFrame(d, front, q);
    }
  }

  /** Every path reported as removed is gone from the disk afterwards. */
  lemma {:induction false} RemovedAreGone(d: Disk, paths: seq<Path>, p: Path)
    requires p in RemoveEach(d, paths).removed
    ensures p !in RemoveEach(d, paths).disk.nodes
    decreases |paths|
  {
    var front := paths[..|paths| - 1];
    var before := RemoveEach(d, front);
    if p in before.removed {
      RemovedAreGone(d, front, p);
    }
  }
}
