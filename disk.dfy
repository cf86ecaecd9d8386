/**
 * The file system as the formula code sees it: a snapshot of paths, each a
 * file with its bytes or a directory with its listing, plus the set of paths
 * on which every operation fails (permission errors, I/O errors). The
 * mutating calls (`os.WriteFile`, `os.Remove`, `os.RemoveAll`,
 * `os.MkdirAll`) are methods of `FileSystem`, whose one field is the current
 * snapshot.
 */
module Disk {
  import opened Outcome
  import opened Text

  type Path = String

  /** One entry of a directory listing, as `os.ReadDir` gives it. */
  datatype DirEntry = DirEntry(name: String, isDir: bool)

  datatype Node = File(content: String) | Dir(entries: seq<DirEntry>)

  datatype Disk = Disk(nodes: map<Path, Node>, faulty: set<Path>)

  /** The outcome of `os.Stat`. */
  datatype StatResult = Found(isDir: bool) | NotExist | StatFailed

  datatype IoError = Missing | Failed | WrongKind

  /** `filepath.Join` of two parts: an empty part is dropped; paths are not cleaned. */
  function JoinPath(a: Path, b: Path): Path {
    if a == [] then b else if b == [] then a else a + "/" + b
  }

  /** Two different names joined below the same non-empty directory give different paths. */
  lemma JoinDistinct(dir: Path, a: String, b: String)
    requires dir != [] && a != [] && b != [] && a != b
    ensures JoinPath(dir, a) != JoinPath(dir, b)
  {
    assert JoinPath(dir, a)[|dir| + 1..] == a;
    assert JoinPath(dir, b)[|dir| + 1..] == b;
  }

  function Join3(a: Path, b: Path, c: Path): Path {
    JoinPath(JoinPath(a, b), c)
  }

  function Join4(a: Path, b: Path, c: Path, d: Path): Path {
    JoinPath(Join3(a, b, c), d)
  }

  /** The offset of the last `/` in `p`, or -1. */
  function LastSlash(p: Path): (r: int)
    ensures -1 <= r < |p|
    ensures r >= 0 ==> p[r] == '/'
    ensures forall k :: r < k < |p| ==> p[k] != '/'
    decreases |p|
  {
    if p == [] then -1
    else if p[|p| - 1] == '/' then |p| - 1
    else LastSlash(p[..|p| - 1])
  }

  /** `filepath.Base` of a path without a trailing separator: its last element. */
  function Base(p: Path): Path {
    p[LastSlash(p) + 1..]
  }

  /** `filepath.Rel(base, p)` for a `p` below `base`; other paths are returned unchanged. */
  function Rel(base: Path, p: Path): Path {
    if base != [] && HasPrefix(p, base + "/") then p[|base| + 1..] else p
  }

  /** The last element of a joined path is the part joined on, when that part has no separator. */
  lemma BaseJoin(a: Path, n: Path)
    requires a != [] && n != [] && '/' !in n
    ensures Base(JoinPath(a, n)) == n
  {
    var p := a + "/" + n;
    assert p[|a|] == '/';
    assert p[|a| + 1..] == n;
  }

  /** A path joined below `base` is relative to it by the part joined on. */
  lemma RelJoin(base: Path, n: Path)
    requires base != [] && n != []
    ensures Rel(base, JoinPath(base, n)) == n
  {
    assert (base + "/" + n)[..|base| + 1] == base + "/";
  }

  /** `os.Stat`. */
  function Stat(d: Disk, p: Path): StatResult {
    if p in d.faulty then StatFailed
    else if p in d.nodes then Found(d.nodes[p].Dir?)
    else NotExist
  }

  /** `os.Stat(p)` returned no error. */
  predicate Exists(d: Disk, p: Path) {
    Stat(d, p).Found?
  }

  /** `os.Stat(p)` succeeded and reported a directory. */
  predicate IsDirectory(d: Disk, p: Path) {
    Stat(d, p) == Found(true)
  }

  /** `os.ReadFile`. */
  function ReadFile(d: Disk, p: Path): Result<String, IoError> {
    if p in d.faulty then Err(Failed)
    else if p !in d.nodes then Err(Missing)
    else if d.nodes[p].Dir? then Err(WrongKind)
    else Ok(d.nodes[p].content)
  }

  /** `os.ReadDir`. */
  function ReadDir(d: Disk, p: Path): Result<seq<DirEntry>, IoError> {
    if p in d.faulty then Err(Failed)
    else if p !in d.nodes then Err(Missing)
    else if d.nodes[p].File? then Err(WrongKind)
    else Ok(d.nodes[p].entries)
  }

  predicate CanWrite(d: Disk, p: Path) {
    p !in d.faulty && !(p in d.nodes && d.nodes[p].Dir?)
  }

  /** `os.WriteFile` creates or truncates a file; a directory listing is not updated. */
  function Written(d: Disk, p: Path, content: String): Disk {
    d.(nodes := d.nodes[p := File(content)])
  }

  /** After a write that may go ahead, the written path reads back the new bytes and every other path reads as before. */
  lemma ReadWritten(d: Disk, p: Path, content: String, q: Path)
    requires CanWrite(d, p)
    ensures ReadFile(Written(d, p, content), q) == if q == p then Ok(content) else ReadFile(d, q)
  {
  }

  /** `os.Remove` deletes a file or an empty directory. */
  predicate CanRemove(d: Disk, p: Path) {
    p !in d.faulty && p in d.nodes && (d.nodes[p].File? || d.nodes[p].entries == [])
  }

  function Removed(d: Disk, p: Path): Disk {
    d.(nodes := d.nodes - {p})
  }

  /** `p` is `root` or lies below it. */
  predicate Under(p: Path, root: Path) {
    p == root || HasPrefix(p, root + "/")
  }

  /** After a removal the removed path is missing, unless it cannot be looked at, and every other path is as it was. */
  lemma RemovedStat(d: Disk, p: Path, q: Path)
    ensures p !in d.faulty ==> Stat(Removed(d, p), p) == NotExist
    ensures q != p ==> Stat(Removed(d, p), q) == Stat(d, q) && ReadFile(Removed(d, p), q) == ReadFile(d, q)
  {
  }

  /** `os.RemoveAll` succeeds on a missing path and deletes everything at and below `p`. */
  predicate CanRemoveAll(d: Disk, p: Path) {
    p !in d.faulty
  }

  function RemovedAll(d: Disk, p: Path): Disk {
    d.(nodes := map q | q in d.nodes && !Under(q, p) :: d.nodes[q])
  }

  /** `os.MkdirAll` succeeds when `p` is missing or already a directory. */
  predicate CanMkdir(d: Disk, p: Path) {
    p !in d.faulty && !(p in d.nodes && d.nodes[p].File?)
  }

  function MadeDir(d: Disk, p: Path): Disk {
    if p in d.nodes then d else d.(nodes := d.nodes[p := Dir([])])
  }

  /** The mutable file system: the snapshot the next call sees. */
  class FileSystem {
    var disk: Disk

    constructor (d: Disk)
      ensures disk == d
    {
      disk := d;
    }

    method WriteFile(p: Path, content: String) returns (ok: bool)
      modifies this
      ensures ok == CanWrite(old(disk), p)
      ensures disk == if ok then Written(old(disk), p, content) else old(disk)
    {
      ok := CanWrite(disk, p);
      if ok {
        disk := Written(disk, p, content);
      }
    }

    method Remove(p: Path) returns (ok: bool)
      modifies this
      ensures ok == CanRemove(old(disk), p)
      ensures disk == if ok then Removed(old(disk), p) else old(disk)
    {
      ok := CanRemove(disk, p);
      if ok {
        disk := Removed(disk, p);
      }
    }

    method RemoveAll(p: Path) returns (ok: bool)
      modifies this
      ensures ok == CanRemoveAll(old(disk), p)
      ensures disk == if ok then RemovedAll(old(disk), p) else old(disk)
    {
      ok := CanRemoveAll(disk, p);
      if ok {
        disk := RemovedAll(disk, p);
      }
    }

    method MkdirAll(p: Path) returns (ok: bool)
      modifies this
      ensures ok == CanMkdir(old(disk), p)
      ensures disk == if ok then MadeDir(old(disk), p) else old(disk)
    {
      ok := CanMkdir(disk, p);
      if ok {
        disk := MadeDir(disk, p);
      }
    }
  }
}
