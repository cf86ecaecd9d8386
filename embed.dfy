/**
 * The formulas compiled into the binary: name and file-name conversion,
 * lookup, listing, content hashing, the provenance header of a local copy
 * and the copy itself.
 */
module Embed {
  import opened Outcome
  import opened Text
  import opened Disk

  const Suffix: String := ".formula.toml"

  /**
   * The embedded `formulas` directory: its listing (`None` when it cannot be
   * read) and the content of each file by file name.
   */
  datatype Embedded = Embedded(listing: Option<seq<DirEntry>>, files: map<String, String>)

  datatype EmbedError = NotEmbedded(name: String) | ListingFailed

  /** A lower-case hexadecimal digit, as `hex.EncodeToString` writes them. */
  predicate IsLowerHex(c: char) {
    '0' <= c <= '9' || 'a' <= c <= 'f'
  }

  /** A SHA-256 digest in lower-case hex (FIPS 180-4, RFC 4648 section 8): 64 hex digits. */
  type Digest = s: String | |s| == 64 && forall i :: 0 <= i < |s| ==> IsLowerHex(s[i])
    witness seq(64, _ => '0')

  /** `s` is already a file name: longer than the suffix and ending with it. */
  predicate IsFilename(s: String) {
    |s| > |Suffix| && HasSuffix(s, Suffix)
  }

  /** `formulaNameToFilename`. */
  function FormulaNameToFilename(name: String): (r: String)
    ensures HasSuffix(r, Suffix)
    ensures r == name <==> IsFilename(name)
  {
    if IsFilename(name) then name else name + Suffix
  }

  /** `filenameToFormulaName`. */
  function FilenameToFormulaName(filename: String): (r: String)
    ensures IsFilename(filename) ==> r + Suffix == filename
    ensures !IsFilename(filename) ==> r == filename
  {
    if IsFilename(filename) then filename[..|filename| - |Suffix|] else filename
  }

  /** The file name of a name always ends with the suffix, and is unchanged exactly when the name already is a file name. */
  lemma NameToFilenameShape(name: String)
    ensures HasSuffix(FormulaNameToFilename(name), Suffix)
    ensures FormulaNameToFilename(name) == name <==> IsFilename(name)
  {
    var r := name + Suffix;
    assert r[|r| - |Suffix|..] == Suffix;
    if !IsFilename(name) {
      assert |r| != |name|;
    }
  }

  /** Converting a name to a file name and back gives the name again exactly when the name is non-empty and not already a file name. */
  lemma NameRoundTrip(name: String)
    ensures FilenameToFormulaName(FormulaNameToFilename(name)) == name <==> (name != [] && !IsFilename(name))
  {
    var r := name + Suffix;
    assert r[|r| - |Suffix|..] == Suffix;
    assert r[..|r| - |Suffix|] == name;
    if IsFilename(name) {
      assert |FilenameToFormulaName(name)| < |name|;
    }
  }

  /** Converting a file name to a name and back gives the file name again, unless the stem itself is a file name. */
  lemma FilenameRoundTrip(filename: String)
    requires IsFilename(filename) && !IsFilename(FilenameToFormulaName(filename))
    ensures FormulaNameToFilename(FilenameToFormulaName(filename)) == filename
  {
    var stem := filename[..|filename| - |Suffix|];
    assert stem + Suffix == filename;
  }

  /** A doubly suffixed file name does not survive the round trip: its stem is taken for a file name. */
  lemma DoubleSuffixLost()
    ensures FormulaNameToFilename(FilenameToFormulaName("a.formula.toml.formula.toml")) != "a.formula.toml.formula.toml"
  {
    var f := "a.formula.toml.formula.toml";
    assert HasSuffix(f, Suffix);
    var stem := FilenameToFormulaName(f);
    assert stem == "a.formula.toml";
    assert HasSuffix(stem, Suffix);
  }

  /**
   * The bare suffix is not a file name, since it is not longer than the
   * suffix: it gets the suffix appended and converts back to itself.
   */
  lemma BareSuffixRoundTrips()
    ensures FormulaNameToFilename(Suffix) == Suffix + Suffix
    ensures FilenameToFormulaName(FormulaNameToFilename(Suffix)) == Suffix
  {
    var f := Suffix + Suffix;
    assert f[|f| - |Suffix|..] == Suffix;
    assert f[..|f| - |Suffix|] == Suffix;
  }

  /** `GetEmbeddedFormula`. */
  function GetEmbeddedFormula(emb: Embedded, name: String): (r: Result<String, EmbedError>)
    ensures r.Ok? <==> FormulaNameToFilename(name) in emb.files
    ensures r.Ok? ==> r.value == emb.files[FormulaNameToFilename(name)]
    ensures r.Err? ==> r.error == NotEmbedded(name)
  {
    var filename := FormulaNameToFilename(name);
    if filename in emb.files then Ok(emb.files[filename]) else Err(NotEmbedded(name))
  }

  /** A name gives the same content with or without the suffix. */
  lemma LookupIgnoresSuffix(emb: Embedded, name: String)
    requires name != [] && !IsFilename(name)
    ensures GetEmbeddedFormula(emb, name).Ok? == GetEmbeddedFormula(emb, name + Suffix).Ok?
    ensures GetEmbeddedFormula(emb, name).Ok? ==> GetEmbeddedFormula(emb, name).value == GetEmbeddedFormula(emb, name + Suffix).value
  {
    var r := name + Suffix;
    assert r[|r| - |Suffix|..] == Suffix;
  }

  /** `EmbeddedFormulaExists`: its own look-up, which agrees with `GetEmbeddedFormula`. */
  function EmbeddedFormulaExists(emb: Embedded, name: String): (r: bool)
    ensures r <==> GetEmbeddedFormula(emb, name).Ok?
  {
    FormulaNameToFilename(name) in emb.files
  }

  /** The non-directory entries of a listing, in order. */
  function FileEntries(entries: seq<DirEntry>): (r: seq<DirEntry>)
    ensures forall e :: e in r <==> e in entries && !e.isDir
    ensures |r| <= |entries|
    decreases |entries|
  {
    if entries == [] then []
    else
      var last := entries[|entries| - 1];
      var front := entries[..|entries| - 1];
      assert entries == front + [last];
      FileEntries(front) + (if last.isDir then [] else [last])
  }

  /** The formula name of each file entry, in order. */
  function NamesOf(files: seq<DirEntry>): (r: seq<String>)
    ensures |r| == |files|
    ensures forall k :: 0 <= k < |files| ==> r[k] == FilenameToFormulaName(files[k].name)
  {
    seq(|files|, k requires 0 <= k < |files| => FilenameToFormulaName(files[k].name))
  }

  /** `GetEmbeddedFormulaNames`: one suffix-free name per non-directory entry, in listing order. */
  method GetEmbeddedFormulaNames(emb: Embedded) returns (r: Result<seq<String>, EmbedError>)
    ensures emb.listing.None? ==> r == Err(ListingFailed)
    ensures emb.listing.Some? ==> r == Ok(NamesOf(FileEntries(emb.listing.value)))
  {
    if emb.listing.None? {
      return Err(ListingFailed);
    }
    var entries := emb.listing.value;
    var names: seq<String> := [];
    var i := 0;
    while i < |entries|
      invariant 0 <= i <= |entries|
      invariant names == NamesOf(FileEntries(entries[..i]))
    {
      NamesOfNext(entries, i);
      if !entries[i].isDir {
        names := names + [FilenameToFormulaName(entries[i].name)];
      }
      i := i + 1;
    }
    assert entries[..i] == entries;
    return Ok(names);
  }

  /**
   * The embedded directory as the `go:embed` pattern of `.formula.toml` files builds it:
   * it can be listed, every file carries the suffix behind a non-empty stem
   * and appears in the listing as a file, and every listed file has content.
   */
  predicate WellFormed(emb: Embedded) {
    && emb.listing.Some?
    && (forall f :: f in emb.files ==> IsFilename(f) && DirEntry(f, false) in emb.listing.value)
    && (forall e :: e in emb.listing.value && !e.isDir ==> e.name in emb.files)
  }

  /**
   * For a name that is not itself a file name, the name list and the
   * existence test agree: the name is listed exactly when it is embedded.
   */
  lemma ListedIffExists(emb: Embedded, name: String)
    requires WellFormed(emb) && !IsFilename(name)
    ensures name in NamesOf(FileEntries(emb.listing.value)) <==> EmbeddedFormulaExists(emb, name)
  {
    var files := FileEntries(emb.listing.value);
    if EmbeddedFormulaExists(emb, name) {
      var f := name + Suffix;
      assert f == FormulaNameToFilename(name);
      var e := DirEntry(f, false);
      assert e in files;
      var k :| 0 <= k < |files| && files[k] == e;
      NameRoundTrip(name);
      assert name != [] by {
        assert IsFilename(f);
      }
      assert NamesOf(files)[k] == name;
    }
    if name in NamesOf(files) {
      var k :| 0 <= k < |files| && NamesOf(files)[k] == name;
      var e := files[k];
      assert e in emb.listing.value && !e.isDir;
      assert IsFilename(e.name);
      assert name + Suffix == e.name;
      assert FormulaNameToFilename(name) == e.name;
    }
  }

  /** One more entry of the listing adds its name when it is not a directory. */
  lemma NamesOfNext(entries: seq<DirEntry>, i: int)
    requires 0 <= i < |entries|
    ensures NamesOf(FileEntries(entries[..i + 1]))
      == NamesOf(FileEntries(entries[..i])) + (if entries[i].isDir then [] else [FilenameToFormulaName(entries[i].name)])
  {
    var added := if entries[i].isDir then [] else [entries[i]];
    FileEntriesNext(entries, i);
    NamesOfAppend(FileEntries(entries[..i]), added);
    assert NamesOf(added) == if entries[i].isDir then [] else [FilenameToFormulaName(entries[i].name)];
  }

  lemma FileEntriesNext(entries: seq<DirEntry>, i: int)
    requires 0 <= i < |entries|
    ensures FileEntries(entries[..i + 1]) == FileEntries(entries[..i]) + (if entries[i].isDir then [] else [entries[i]])
  {
    var front := entries[..i + 1];
    assert front[..|front| - 1] == entries[..i] && front[|front| - 1] == entries[i];
  }

  lemma NamesOfAppend(a: seq<DirEntry>, b: seq<DirEntry>)
    ensures NamesOf(a + b) == NamesOf(a) + NamesOf(b)
  {
    assert forall k :: 0 <= k < |a| ==> (a + b)[k] == a[k];
    assert forall k :: |a| <= k < |a| + |b| ==> (a + b)[k] == b[k - |a|];
  }

  /**
   * Every listed name finds its file again, provided the file is in the
   * embedded set and its name is a file name whose stem is not one.
   */
  lemma ListedNamesResolve(emb: Embedded, e: DirEntry)
    requires emb.listing.Some? && e in emb.listing.value && !e.isDir
    requires e.name in emb.files && IsFilename(e.name) && !IsFilename(FilenameToFormulaName(e.name))
    ensures FilenameToFormulaName(e.name) in NamesOf(FileEntries(emb.listing.value))
    ensures GetEmbeddedFormula(emb, FilenameToFormulaName(e.name)) == Ok(emb.files[e.name])
  {
    var files := FileEntries(emb.listing.value);
    var k :| 0 <= k < |files| && files[k] == e;
    assert NamesOf(files)[k] == FilenameToFormulaName(e.name);
    FilenameRoundTrip(e.name);
  }

  /** `GetEmbeddedFormulaHash`: the digest of exactly the bytes `GetEmbeddedFormula` returns. */
  function GetEmbeddedFormulaHash(emb: Embedded, sha: String -> Digest, name: String): (r: Result<Digest, EmbedError>)
    ensures r.Ok? <==> EmbeddedFormulaExists(emb, name)
    ensures r.Ok? ==> r.value == sha(GetEmbeddedFormula(emb, name).value)
    ensures r.Err? ==> r.error == NotEmbedded(name)
  {
    match GetEmbeddedFormula(emb, name)
    case Ok(content) => Ok(sha(content))
    case Err(e) => Err(e)
  }

  const CreatedLine: String := "# Formula override created by gt formula modify"
  const BasePrefix: String := "# Based on embedded version: sha256:"
  const UpdatePrefix: String := "# To update: gt formula update "

  /** The three header lines and the blank line written before a copied formula. */
  function Header(hash: String, name: String): String {
    CreatedLine + "\n" + BasePrefix + hash + "\n" + UpdatePrefix + name + "\n\n"
  }

  /** `ExtractBaseHash`: the trimmed rest of the first trimmed line starting with the base prefix, or "". */
  function ExtractBaseHash(content: String): (r: String)
    ensures FirstKeyLine(Lines(content), [BasePrefix], 0) == -1 ==> r == []
    ensures r == [] || (r[0] !in Whitespace && r[|r| - 1] !in Whitespace)
  {
    var lines := Lines(content);
    RestOfFirst(lines, BasePrefix)
  }

  /** The trimmed rest of the first line whose trimmed text starts with `p`, or "". */
  function RestOfFirst(lines: seq<String>, p: String): (r: String)
    ensures FirstKeyLine(lines, [p], 0) == -1 ==> r == []
    ensures r == [] || (r[0] !in Whitespace && r[|r| - 1] !in Whitespace)
  {
    var i := FirstKeyLine(lines, [p], 0);
    if i == -1 then []
    else
      var line := TrimSpace(lines[i]);
      assert HasPrefix(line, p) by {
        assert [p][0] == p;
      }
      TrimSpace(line[|p|..])
  }

  /**
   * The value `ExtractBaseHash` reads: with line `k` the first whose trimmed
   * text starts with the base prefix, the trimmed rest of that line.
   */
  lemma BaseHashOfFirstLine(content: String, k: nat)
    requires k < |Lines(content)| && HasPrefix(TrimSpace(Lines(content)[k]), BasePrefix)
    requires forall j :: 0 <= j < k ==> !HasPrefix(TrimSpace(Lines(content)[j]), BasePrefix)
    ensures ExtractBaseHash(content) == TrimSpace(TrimSpace(Lines(content)[k])[|BasePrefix|..])
  {
    RestOfFirstLine(Lines(content), BasePrefix, k);
  }

  /** The rest `RestOfFirst` takes is that of the first line whose trimmed text starts with `p`. */
  lemma RestOfFirstLine(lines: seq<String>, p: String, k: nat)
    requires k < |lines| && HasPrefix(TrimSpace(lines[k]), p)
    requires forall j :: 0 <= j < k ==> !HasPrefix(TrimSpace(lines[j]), p)
    ensures RestOfFirst(lines, p) == TrimSpace(TrimSpace(lines[k])[|p|..])
  {
    FirstPrefixLine(lines, p, k);
  }

  /** The first line whose trimmed text starts with `p` is the one `FirstKeyLine` finds. */
  lemma FirstPrefixLine(lines: seq<String>, p: String, k: nat)
    requires k < |lines| && HasPrefix(TrimSpace(lines[k]), p)
    requires forall j :: 0 <= j < k ==> !HasPrefix(TrimSpace(lines[j]), p)
    ensures FirstKeyLine(lines, [p], 0) == k
  {
    var i := FirstKeyLine(lines, [p], 0);
    assert StartsWithAny(TrimSpace(lines[k]), [p]) by {
      assert [p][0] == p;
    }
    assert i != -1 && i <= k;
    assert HasPrefix(TrimSpace(lines[i]), p) by {
      assert [p][0] == p;
    }
  }

  /** The first header line holds no newline and no white space at either end. */
  lemma CreatedLinePlain()
    ensures '\n' !in CreatedLine
    ensures CreatedLine[0] == '#' && CreatedLine[2] == 'F' && CreatedLine[|CreatedLine| - 1] == 'y'
  {
    var x, y, z := "# Formula override", " created by gt", " formula modify";
    assert CreatedLine == x + y + z;
    assert '\n' !in x && '\n' !in y && '\n' !in z;
  }

  /** The base-hash prefix holds no newline and starts differently from the first header line. */
  lemma BasePrefixPlain()
    ensures '\n' !in BasePrefix
    ensures BasePrefix[0] == '#' && BasePrefix[2] == 'B'
  {
    assert '\n' !in "# Based on embedded version: sha256:";
  }

  /** A digest holds neither newlines nor white space. */
  lemma DigestPlain(hash: Digest)
    ensures '\n' !in hash
    ensures forall k :: 0 <= k < |hash| ==> hash[k] !in Whitespace
  {
    forall k | 0 <= k < |hash|
      ensures hash[k] != '\n' && hash[k] !in Whitespace
    {
      assert IsLowerHex(hash[k]);
    }
  }

  /** The first two lines of a copied file are the provenance line and the base-hash line. */
  lemma HeaderLines(hash: Digest, name: String, body: String)
    ensures |Lines(Header(hash, name) + body)| >= 2
    ensures Lines(Header(hash, name) + body)[0] == CreatedLine
    ensures Lines(Header(hash, name) + body)[1] == BasePrefix + hash
  {
    var second := BasePrefix + hash;
    var rest := UpdatePrefix + name + "\n\n" + body;
    HeaderTwoLines(hash, name, body);
    CreatedLinePlain();
    BasePrefixPlain();
    DigestPlain(hash);
    TwoLines(CreatedLine, second, rest);
  }

  lemma HeaderTwoLines(hash: String, name: String, body: String)
    ensures Header(hash, name) + body == CreatedLine + Newline + (BasePrefix + hash + Newline + (UpdatePrefix + name + "\n\n" + body))
  {
  }

  /** Two lines without newlines, then the rest: the first two lines are those. */
  lemma TwoLines(a: String, b: String, rest: String)
    requires '\n' !in a && '\n' !in b
    ensures |Lines(a + Newline + (b + Newline + rest))| >= 2
    ensures Lines(a + Newline + (b + Newline + rest))[0] == a
    ensures Lines(a + Newline + (b + Newline + rest))[1] == b
  {
    LinesCons(a, b + Newline + rest);
    LinesCons(b, rest);
  }

  /** Both header lines are left alone by trimming; only the second starts with the base prefix. */
  lemma HeaderLinesTrimmed(hash: Digest)
    ensures TrimSpace(CreatedLine) == CreatedLine && !HasPrefix(CreatedLine, BasePrefix)
    ensures TrimSpace(BasePrefix + hash) == BasePrefix + hash && HasPrefix(BasePrefix + hash, BasePrefix)
    ensures (BasePrefix + hash)[|BasePrefix|..] == hash && TrimSpace(hash) == hash
  {
    CreatedLineTrimmed();
    BaseLineTrimmed(hash);
  }

  lemma CreatedLineTrimmed()
    ensures TrimSpace(CreatedLine) == CreatedLine && !HasPrefix(CreatedLine, BasePrefix)
  {
    CreatedLineUntrimmed();
    CreatedLineNotBase();
  }

  lemma CreatedLineUntrimmed()
    ensures TrimSpace(CreatedLine) == CreatedLine
  {
    CreatedLinePlain();
    TrimUnchanged(CreatedLine, Whitespace);
  }

  lemma CreatedLineNotBase()
    ensures !HasPrefix(CreatedLine, BasePrefix)
  {
    CreatedLinePlain();
    BasePrefixPlain();
    NotPrefixAt(CreatedLine, BasePrefix, 2);
  }

  lemma BaseLineTrimmed(hash: Digest)
    ensures TrimSpace(BasePrefix + hash) == BasePrefix + hash && HasPrefix(BasePrefix + hash, BasePrefix)
    ensures (BasePrefix + hash)[|BasePrefix|..] == hash && TrimSpace(hash) == hash
  {
    BasePrefixPlain();
    DigestPlain(hash);
    var second := BasePrefix + hash;
    assert second[0] == '#' && second[|second| - 1] == hash[63];
    assert hash[63] !in Whitespace;
    TrimUnchanged(second, Whitespace);
    TrimUnchanged(hash, Whitespace);
    assert second[..|BasePrefix|] == BasePrefix;
  }

  /** The hash recorded in a header is the one `ExtractBaseHash` finds, whatever follows it. */
  lemma {:induction false} HeaderBaseHash(hash: Digest, name: String, body: String)
    ensures ExtractBaseHash(Header(hash, name) + body) == hash
  {
    HeaderLines(hash, name, body);
    HeaderLinesTrimmed(hash);
    BaseHashOnSecondLine(Header(hash, name) + body, hash);
  }

  /** When the first line does not record a hash and the second line is exactly a base-hash line, that hash is found. */
  lemma BaseHashOnSecondLine(content: String, hash: String)
    requires |Lines(content)| >= 2
    requires !HasPrefix(TrimSpace(Lines(content)[0]), BasePrefix)
    requires TrimSpace(Lines(content)[1]) == BasePrefix + hash && TrimSpace(hash) == hash
    ensures ExtractBaseHash(content) == hash
  {
    var lines := Lines(content);
    assert !StartsWithAny(TrimSpace(lines[0]), [BasePrefix]);
    assert (BasePrefix + hash)[..|BasePrefix|] == BasePrefix;
    assert HasPrefix(TrimSpace(lines[1]), [BasePrefix][0]);
    assert StartsWithAny(TrimSpace(lines[1]), [BasePrefix]);
    assert FirstKeyLine(lines, [BasePrefix], 1) == 1;
    assert (BasePrefix + hash)[|BasePrefix|..] == hash;
  }

  /** A copied file starts with the provenance line, ends with the embedded bytes and records their hash. */
  lemma CopiedContent(hash: Digest, name: String, content: String)
    ensures HasPrefix(Header(hash, name) + content, CreatedLine)
    ensures HasSuffix(Header(hash, name) + content, content)
    ensures ExtractBaseHash(Header(hash, name) + content) == hash
  {
    var all := Header(hash, name) + content;
    assert all[..|CreatedLine|] == CreatedLine;
    assert all[|all| - |content|..] == content;
    HeaderBaseHash(hash, name, content);
  }

  datatype CopyError = CopyNotEmbedded(name: String) | MkdirFailed(dir: Path) | AlreadyExists(path: Path) | WriteFailed(path: Path)

  /** What a copy returns and the file system it leaves behind. */
  datatype CopyOutcome = CopyOutcome(result: Result<Path, CopyError>, disk: Disk)

  /** The path a copy of `name` into `destDir` is written to. */
  function CopyDestination(name: String, destDir: Path): Path {
    JoinPath(destDir, FormulaNameToFilename(name))
  }

  /**
   * The effect of `CopyFormulaTo` on a snapshot: look the formula up, create
   * the directory, refuse an existing destination, then write the header and
   * the embedded bytes.
   */
  function Copy(d: Disk, emb: Embedded, sha: String -> Digest, name: String, destDir: Path): CopyOutcome {
    match GetEmbeddedFormula(emb, name)
    case Err(_) => CopyOutcome(Err(CopyNotEmbedded(name)), d)
    case Ok(content) =>
      if !CanMkdir(d, destDir) then CopyOutcome(Err(MkdirFailed(destDir)), d)
      else
        var made := MadeDir(d, destDir);
        var dest := CopyDestination(name, destDir);
        if Exists(made, dest) then CopyOutcome(Err(AlreadyExists(dest)), made)
        else if !CanWrite(made, dest) then CopyOutcome(Err(WriteFailed(dest)), made)
        else CopyOutcome(Ok(dest), Written(made, dest, Header(sha(content), name) + content))
  }

  /** A name that is not embedded is refused and nothing changes. */
  lemma CopyRefusesUnknown(d: Disk, emb: Embedded, sha: String -> Digest, name: String, destDir: Path)
    requires !EmbeddedFormulaExists(emb, name)
    ensures Copy(d, emb, sha, name, destDir) == CopyOutcome(Err(CopyNotEmbedded(name)), d)
  {
  }

  /** An existing destination is refused and left as it was. */
  lemma CopyKeepsExisting(d: Disk, emb: Embedded, sha: String -> Digest, name: String, destDir: Path)
    requires Exists(MadeDir(d, destDir), CopyDestination(name, destDir))
    ensures Copy(d, emb, sha, name, destDir).result.Err?
    ensures var dest := CopyDestination(name, destDir);
      dest in d.nodes ==> Copy(d, emb, sha, name, destDir).disk.nodes[dest] == d.nodes[dest]
  {
  }

  /**
   * A successful copy returns the destination, whose file starts with the
   * provenance line, ends with the embedded bytes and records their hash.
   */
  lemma CopySucceeds(d: Disk, emb: Embedded, sha: String -> Digest, name: String, destDir: Path)
    requires Copy(d, emb, sha, name, destDir).result.Ok?
    ensures var c := Copy(d, emb, sha, name, destDir);
      c.result.value == CopyDestination(name, destDir)
      && ReadFile(c.disk, c.result.value).Ok?
      && HasPrefix(ReadFile(c.disk, c.result.value).value, CreatedLine)
      && HasSuffix(ReadFile(c.disk, c.result.value).value, GetEmbeddedFormula(emb, name).value)
      && ExtractBaseHash(ReadFile(c.disk, c.result.value).value) == GetEmbeddedFormulaHash(emb, sha, name).value
  {
    var content := GetEmbeddedFormula(emb, name).value;
    var made := MadeDir(d, destDir);
    var dest := CopyDestination(name, destDir);
    var written := Header(sha(content), name) + content;
    assert CanWrite(made, dest);
    assert Copy(d, emb, sha, name, destDir) == CopyOutcome(Ok(dest), Written(made, dest, written));
    assert ReadFile(Written(made, dest, written), dest) == Ok(written);
    CopiedContent(sha(content), name, content);
  }

  /** A copy changes nothing but the destination directory and the destination file. */
  lemma CopyFrame(d: Disk, emb: Embedded, sha: String -> Digest, name: String, destDir: Path, p: Path)
    requires p in d.nodes && p != destDir && p != CopyDestination(name, destDir)
    ensures var c := Copy(d, emb, sha, name, destDir);
      p in c.disk.nodes && c.disk.nodes[p] == d.nodes[p]
  {
  }

  /**
   * `CopyFormulaTo`: writes the header and the embedded bytes to
   * `destDir/<name>.formula.toml`, creating the directory first, and refuses
   * to overwrite an existing file.
   */
  method CopyFormulaTo(fs: FileSystem, emb: Embedded, sha: String -> Digest, name: String, destDir: Path)
    returns (r: Result<Path, CopyError>)
    modifies fs
    ensures Copy(old(fs.disk), emb, sha, name, destDir) == CopyOutcome(r, fs.disk)
  {
    var got := GetEmbeddedFormula(emb, name);
    if got.Err? {
      return Err(CopyNotEmbedded(name));
    }
    var content := got.value;
    var withHeader := Header(sha(content), name) + content;
    var made := fs.MkdirAll(destDir);
    if !made {
      return Err(MkdirFailed(destDir));
    }
    var dest := CopyDestination(name, destDir);
    if Exists(fs.disk, dest) {
      return Err(AlreadyExists(dest));
    }
    var wrote := fs.WriteFile(dest, withHeader);
    if !wrote {
      return Err(WriteFailed(dest));
    }
    return Ok(dest);
  }
}
