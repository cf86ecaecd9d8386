/**
 * Formula resolution: a name is looked up as a file in the working
 * directory's `.beads/formulas`, then in the town's, trying the TOML
 * extension before the JSON one, and finally among the embedded formulas.
 */
module Resolve {
  import opened Outcome
  import opened Text
  import opened Disk
  import opened Embed
  import opened Extract

  datatype Source = FromFile | FromEmbedded

  /** Where a formula was found: a file path, or the formula name itself for an embedded one. */
  datatype Location = Location(path: Path, source: Source)

  datatype ResolveError = NotFound(name: String)

  const TomlExtension: String := ".formula.toml"
  const JsonExtension: String := ".formula.json"

  /** The formulas directory below a root. */
  function FormulasDir(root: Path): Path {
    Join3(root, ".beads", "formulas")
  }

  /** The directories searched: the working directory's, then the town's, each only when it is known. */
  function SearchDirs(cwd: Option<Path>, townRoot: Option<Path>): (r: seq<Path>)
    ensures |r| <= 2
  {
    (if cwd.Some? then [FormulasDir(cwd.value)] else [])
      + (if townRoot.Some? then [FormulasDir(townRoot.value)] else [])
  }

  /** The extensions tried in each directory, in order. */
  const Extensions: seq<String> := [TomlExtension, JsonExtension]

  /** The candidate paths in search order: for each directory, the TOML file then the JSON file. */
  function Candidates(dirs: seq<Path>, name: String): (r: seq<Path>)
    ensures |r| == 2 * |dirs|
  {
    seq(2 * |dirs|, k requires 0 <= k < 2 * |dirs| => JoinPath(dirs[k / 2], name + Extensions[k % 2]))
  }

  /** The index of the first path at or after `from` that `os.Stat` finds, or -1. */
  function FirstExisting(d: Disk, paths: seq<Path>, from: nat): (r: int)
    requires from <= |paths|
    ensures r == -1 || (from <= r < |paths| && Exists(d, paths[r]))
    ensures forall k :: from <= k < |paths| && (r == -1 || k < r) ==> !Exists(d, paths[k])
    decreases |paths| - from
  {
    if from == |paths| then -1
    else if Exists(d, paths[from]) then from
    else FirstExisting(d, paths, from + 1)
  }

  /** A path that exists after only missing ones is the first existing one. */
  lemma FirstExistingAt(d: Disk, paths: seq<Path>, k: nat)
    requires k < |paths| && Exists(d, paths[k])
    requires forall j :: 0 <= j < k ==> !Exists(d, paths[j])
    ensures FirstExisting(d, paths, 0) == k
  {
  }

  /** `findFormulaWithSource`. */
  function FindFormulaWithSource(d: Disk, emb: Embedded, cwd: Option<Path>, townRoot: Option<Path>, name: String): (r: Result<Location, ResolveError>)
    ensures var paths := Candidates(SearchDirs(cwd, townRoot), name);
      && (r.Ok? && r.value.source == FromFile ==>
            exists i :: 0 <= i < |paths| && r.value.path == paths[i] && Exists(d, paths[i])
              && forall k :: 0 <= k < i ==> !Exists(d, paths[k]))
      && (r.Ok? && r.value.source == FromEmbedded ==>
            r.value.path == name && EmbeddedFormulaExists(emb, name) && forall k :: 0 <= k < |paths| ==> !Exists(d, paths[k]))
      && (r.Err? ==>
            r.error == NotFound(name) && !EmbeddedFormulaExists(emb, name) && forall k :: 0 <= k < |paths| ==> !Exists(d, paths[k]))
  {
    var paths := Candidates(SearchDirs(cwd, townRoot), name);
    var i := FirstExisting(d, paths, 0);
    if i != -1 then
      assert forall k :: 0 <= k < i ==> !Exists(d, paths[k]);
      Ok(Location(paths[i], FromFile))
    else if EmbeddedFormulaExists(emb, name) then Ok(Location(name, FromEmbedded))
    else Err(NotFound(name))
  }

  /** `findFormulaFile`: an embedded location becomes the marker `embedded:<name>`. */
  function FindFormulaFile(d: Disk, emb: Embedded, cwd: Option<Path>, townRoot: Option<Path>, name: String): (r: Result<Path, ResolveError>)
    ensures var loc := FindFormulaWithSource(d, emb, cwd, townRoot, name);
      && (r.Ok? <==> loc.Ok?)
      && (loc.Ok? && loc.value.source == FromEmbedded ==> r.value == EmbeddedMarker + name)
      && (loc.Ok? && loc.value.source == FromFile ==> r.value == loc.value.path)
  {
    match FindFormulaWithSource(d, emb, cwd, townRoot, name)
    case Err(e) => Err(e)
    case Ok(loc) => if loc.source == FromEmbedded then Ok(EmbeddedMarker + name) else Ok(loc.path)
  }

  /** A formula file in the working directory wins over every other source. */
  lemma CwdTomlWins(d: Disk, emb: Embedded, cwd: Path, townRoot: Option<Path>, name: String)
    requires Exists(d, JoinPath(FormulasDir(cwd), name + TomlExtension))
    ensures FindFormulaWithSource(d, emb, Some(cwd), townRoot, name)
      == Ok(Location(JoinPath(FormulasDir(cwd), name + TomlExtension), FromFile))
  {
    var paths := Candidates(SearchDirs(Some(cwd), townRoot), name);
    assert paths[0] == JoinPath(FormulasDir(cwd), name + TomlExtension);
  }

  /** In one directory the TOML file is preferred to the JSON file; the JSON one is taken when it is alone. */
  lemma CwdJsonSecond(d: Disk, emb: Embedded, cwd: Path, townRoot: Option<Path>, name: String)
    requires !Exists(d, JoinPath(FormulasDir(cwd), name + TomlExtension))
    requires Exists(d, JoinPath(FormulasDir(cwd), name + JsonExtension))
    ensures FindFormulaWithSource(d, emb, Some(cwd), townRoot, name)
      == Ok(Location(JoinPath(FormulasDir(cwd), name + JsonExtension), FromFile))
  {
    var paths := Candidates(SearchDirs(Some(cwd), townRoot), name);
    assert paths[0] == JoinPath(FormulasDir(cwd), name + TomlExtension);
    assert paths[1] == JoinPath(FormulasDir(cwd), name + JsonExtension);
    assert FirstExisting(d, paths, 0) == FirstExisting(d, paths, 1);
  }

  /** With nothing in the working directory, the town's TOML file wins over the embedded copy. */
  lemma TownBeforeEmbedded(d: Disk, emb: Embedded, cwd: Path, townRoot: Path, name: String)
    requires !Exists(d, JoinPath(FormulasDir(cwd), name + TomlExtension))
    requires !Exists(d, JoinPath(FormulasDir(cwd), name + JsonExtension))
    requires Exists(d, JoinPath(FormulasDir(townRoot), name + TomlExtension))
    ensures FindFormulaWithSource(d, emb, Some(cwd), Some(townRoot), name)
      == Ok(Location(JoinPath(FormulasDir(townRoot), name + TomlExtension), FromFile))
  {
    var paths := Candidates(SearchDirs(Some(cwd), Some(townRoot)), name);
    assert paths[0] == JoinPath(FormulasDir(cwd), name + TomlExtension);
    assert paths[1] == JoinPath(FormulasDir(cwd), name + JsonExtension);
    assert paths[2] == JoinPath(FormulasDir(townRoot), name + TomlExtension);
    assert FirstExisting(d, paths, 0) == FirstExisting(d, paths, 2);
  }

  /** Without any file, an embedded formula resolves to its own name. */
  lemma EmbeddedFallback(d: Disk, emb: Embedded, cwd: Option<Path>, townRoot: Option<Path>, name: String)
    requires forall p :: p in Candidates(SearchDirs(cwd, townRoot), name) ==> !Exists(d, p)
    requires EmbeddedFormulaExists(emb, name)
    ensures FindFormulaWithSource(d, emb, cwd, townRoot, name) == Ok(Location(name, FromEmbedded))
    ensures FindFormulaFile(d, emb, cwd, townRoot, name) == Ok(EmbeddedMarker + name)
  {
    var paths := Candidates(SearchDirs(cwd, townRoot), name);
    var i := FirstExisting(d, paths, 0);
    if i != -1 {
      assert false;
    }
  }

  /** The marker `findFormulaFile` returns for an embedded formula reads back as that formula. */
  lemma EmbeddedMarkerParses(d: Disk, emb: Embedded, cwd: Option<Path>, townRoot: Option<Path>, name: String)
    requires FindFormulaWithSource(d, emb, cwd, townRoot, name).Ok?
    requires FindFormulaWithSource(d, emb, cwd, townRoot, name).value.source == FromEmbedded
    ensures ParseFormulaFile(d, emb, FindFormulaFile(d, emb, cwd, townRoot, name).value)
      == Ok(ParseFormulaContent(GetEmbeddedFormula(emb, name).value))
  {
    var p := EmbeddedMarker + name;
    assert p[..|EmbeddedMarker|] == EmbeddedMarker;
    assert p[|EmbeddedMarker|..] == name;
  }

  /** A path below an absolute root is absolute. */
  lemma JoinKeepsRoot(a: Path, b: Path)
    requires HasPrefix(a, "/")
    ensures HasPrefix(JoinPath(a, b), "/")
  {
    if b != [] {
      assert (a + "/" + b)[..1] == a[..1];
    }
  }

  /** With absolute roots, a formula file found on disk is read from that file. */
  lemma FileLocationParses(d: Disk, emb: Embedded, cwd: Option<Path>, townRoot: Option<Path>, name: String)
    requires cwd.Some? ==> HasPrefix(cwd.value, "/")
    requires townRoot.Some? ==> HasPrefix(townRoot.value, "/")
    requires FindFormulaWithSource(d, emb, cwd, townRoot, name).Ok?
    requires FindFormulaWithSource(d, emb, cwd, townRoot, name).value.source == FromFile
    requires ReadFile(d, FindFormulaWithSource(d, emb, cwd, townRoot, name).value.path).Ok?
    ensures ParseFormulaFile(d, emb, FindFormulaFile(d, emb, cwd, townRoot, name).value)
      == Ok(ParseFormulaContent(ReadFile(d, FindFormulaWithSource(d, emb, cwd, townRoot, name).value.path).value))
  {
    var paths := Candidates(SearchDirs(cwd, townRoot), name);
    var p := FindFormulaWithSource(d, emb, cwd, townRoot, name).value.path;
    var i :| 0 <= i < |paths| && p == paths[i];
    CandidateAbsolute(cwd, townRoot, name, i);
    AbsoluteFileParses(d, emb, p);
  }

  /** With absolute roots, every candidate path is absolute. */
  lemma CandidateAbsolute(cwd: Option<Path>, townRoot: Option<Path>, name: String, i: nat)
    requires cwd.Some? ==> HasPrefix(cwd.value, "/")
    requires townRoot.Some? ==> HasPrefix(townRoot.value, "/")
    requires i < |Candidates(SearchDirs(cwd, townRoot), name)|
    ensures HasPrefix(Candidates(SearchDirs(cwd, townRoot), name)[i], "/")
  {
    var dirs := SearchDirs(cwd, townRoot);
    var k := i / 2;
    assert Candidates(dirs, name)[i] == JoinPath(dirs[k], name + Extensions[i % 2]);
    assert HasPrefix(dirs[k], "/") by {
      if cwd.Some? {
        JoinKeepsRoot(cwd.value, ".beads");
        JoinKeepsRoot(JoinPath(cwd.value, ".beads"), "formulas");
      }
      if townRoot.Some? {
        JoinKeepsRoot(townRoot.value, ".beads");
        JoinKeepsRoot(JoinPath(townRoot.value, ".beads"), "formulas");
      }
    }
    JoinKeepsRoot(dirs[k], name + Extensions[i % 2]);
  }

  /** An absolute path is never taken for the embedded marker, so the file itself is read. */
  lemma AbsoluteFileParses(d: Disk, emb: Embedded, p: Path)
    requires HasPrefix(p, "/") && ReadFile(d, p).Ok?
    ensures ParseFormulaFile(d, emb, p) == Ok(ParseFormulaContent(ReadFile(d, p).value))
  {
    assert p[0] == '/' && EmbeddedMarker[0] == 'e';
    assert !HasPrefix(p, EmbeddedMarker);
  }
}
