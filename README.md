# Gas Town formulas: a Dafny model

This project models the formula machinery of Gas Town (`gt`):

- **Embedded formulas.** These are TOML workflow definitions compiled into the binary. The model covers their name↔filename mapping, lookup, listing, content hashes and the provenance header written when one is copied to disk.
- **Commands.** It models the `gt formula` commands that resolve, parse, run, modify, reset and update formulas.
- **Doctor checks.** It models the `gt doctor` checks for formulas and for town and rig configuration.

The disk is a value: a map from path to file or directory, plus a set of paths whose operations fail. Operations that change the disk go through a `FileSystem` object whose `disk` field they reassign. The doctor checks are classes whose fields cache what `Run` found for `Fix` to act on, as in the program.

Modules:

- `Text`: Go's `strings`/`strconv` functions the core uses.
- `Outcome`: `Option` and `Result`.
- `Disk`: the file system.
- `Embed`: `internal/formula/embed.go`.
- The `formula` command (`internal/cmd/formula.go`):
  - `Extract`: TOML extraction and parsing.
  - `RoundTrip`: a writer for formula documents, and the proof that parsing reads back what it wrote.
  - `Resolve`: formula lookup.
  - `ShortIds`: base32 short IDs.
  - `PullRequest`: `gh pr` output parsing.
  - `Diff`: line differences and their display limits.
  - `Merge`: the merge prompt, header stripping and agent choice.
  - `Overrides`: override scanning, modify, reset and update.
  - `Convoy` and `ConvoyFacts`: dry runs and convoy launches.
  - `Rigs`: discovery of rig directories from `mayor/rigs.json`.
- `Checks`, `FormulaDoctor` and `ConfigDoctor`: `internal/doctor/formula_check.go` and `internal/doctor/config_check.go`.

Some operations loop in the source: extracting legs, listing embedded names, stripping headers, finding line differences, parsing `gh` output, scanning `rigs.json`, walking crew directories and the doctor scans. These are methods with loop invariants. Each is proved equal to a recursive specification function, and the lemmas speak about that function.

The round trip covers documents made of a synthesis section (a title and a multi-line description) followed by `[[legs]]` entries (an id and a title each). Reading such a document back gives the same legs, in order, and the same synthesis. The conditions on the written values are:

- No value contains `"` or `[`. Those characters would end a section, a block or a value early, so the parser could not read them back.
- Every leg id, every leg title and the synthesis title is a one-line value. It is non-empty, holds no newline, has no white space at either end and does not start with a quote. So the synthesis title may not be empty.
- The synthesis description may span lines and may be empty. It has no white space at either end.

Convoy execution runs external commands (`bd create`, `bd dep add`, `gt sling`, `bd comment`). It is modelled as a `Shell` object that logs every command. A `World` value decides which commands succeed and which short IDs `crypto/rand` yields. The contracts describe the exact command log and the bead map that result.

Behaviours of the code kept as written:

- `SettingsCheck.Run` returns "No rigs found" before it replaces its cache. A later `Fix` then acts on the paths cached by an earlier run (internal/doctor/config_check.go:34-40).
- `extractTOMLValue` strips the first and last character of any value of two or more characters that starts with a quote. An unclosed `"abc` therefore yields `ab`.
- `filenameToFormulaName` strips one `.formula.toml`. A name that already is a filename (longer than `.formula.toml` and ending in it) therefore does not survive the round trip. The bare name `.formula.toml` is not such a filename: it gets the suffix appended and comes back unchanged.

## Model

| member | source | states |
|---|---|---|
| Embed.NameToFilenameShape | internal/formula/embed.go:29-35 | the filename always ends in `.formula.toml`, and it equals the name exactly when the name already is such a filename (longer than `.formula.toml` and ending in it) |
| Embed.FormulaNameToFilename | internal/formula/embed.go:29-35 | the filename ends in `.formula.toml`, and equals the name exactly when the name already is such a filename |
| Embed.FilenameToFormulaName | internal/formula/embed.go:38-44 | a filename loses exactly its `.formula.toml` suffix; anything else is kept |
| Embed.NameRoundTrip | internal/formula/embed.go:29-44 | filename→name undoes name→filename if and only if the name is non-empty and is not already a filename (longer than `.formula.toml` and ending in it) |
| Embed.FilenameRoundTrip | internal/formula/embed.go:29-44 | name→filename undoes filename→name for a filename carrying the suffix exactly once |
| Embed.DoubleSuffixLost | internal/formula/embed.go:29-44 | a concrete filename with the suffix twice does not round-trip |
| Embed.BareSuffixRoundTrips | internal/formula/embed.go:29-44 | the bare name `.formula.toml` is not a filename: it gets the suffix appended and converts back to itself |
| Embed.GetEmbeddedFormula | internal/formula/embed.go:49-56 | succeeds exactly when the mapped filename is embedded, and returns that file's content; otherwise the not-embedded error for the name |
| Embed.LookupIgnoresSuffix | internal/formula/embed.go:29-56 | looking up `name` and `name.formula.toml` give the same answer |
| Embed.EmbeddedFormulaExists | internal/formula/embed.go:78-82 | true exactly when the lookup succeeds |
| Embed.FileEntries | internal/formula/embed.go:60-74 | keeps exactly the non-directory entries |
| Embed.NamesOf | internal/formula/embed.go:60-74 | one formula name per file, converted from its filename, in order |
| Embed.GetEmbeddedFormulaNames | internal/formula/embed.go:60-74 | a failed listing is an error; otherwise the names of the listed files, directories skipped, in listing order |
| Embed.ListedNamesResolve | internal/formula/embed.go:60-82 | every listed name looks up to the file it came from |
| Embed.ListedIffExists | internal/formula/embed.go:60-82 | for an embedded set built from `.formula.toml` files and a name that is not itself a filename (longer than `.formula.toml` and ending in it), the name is listed exactly when `EmbeddedFormulaExists` holds |
| Embed.GetEmbeddedFormulaHash | internal/formula/embed.go:86-93 | succeeds exactly when the formula exists; the value is the SHA-256 of its content |
| Embed.HeaderBaseHash | internal/formula/embed.go:97-145 | the base hash read back from a copied file is the hash written into its header |
| Embed.BaseHashOnSecondLine | internal/formula/embed.go:97-106 | a trimmed second line `# Based on embedded version: sha256:<h>` after a first line that is not one yields `<h>` |
| Embed.ExtractBaseHash | internal/formula/embed.go:97-106 | no base-hash line gives ""; the hash read is trimmed at both ends |
| Embed.BaseHashOfFirstLine | internal/formula/embed.go:97-106 | when line k is the first whose trimmed text starts with `# Based on embedded version: sha256:`, the hash is the trimmed rest of that trimmed line |
| Embed.CopiedContent | internal/formula/embed.go:113-145 | a copied file starts with the provenance line, ends with the embedded content and carries the embedded hash |
| Embed.CopyRefusesUnknown | internal/formula/embed.go:113-120 | copying an unknown formula fails and leaves the disk untouched |
| Embed.CopyKeepsExisting | internal/formula/embed.go:113-145 | an existing destination is never overwritten |
| Embed.CopySucceeds | internal/formula/embed.go:113-145 | on success the destination holds header plus embedded content, and its recorded base hash is the embedded hash |
| Embed.CopyFrame | internal/formula/embed.go:113-145 | no path other than the destination directory and file changes |
| Embed.CopyFormulaTo | internal/formula/embed.go:113-145 | the result and the new disk are those of the copy specification |
| Extract.ExtractTOMLValue | internal/cmd/formula.go:1065-1082 | a non-empty value implies some trimmed line starts with `key =` or `key=` |
| Extract.ValueOfFirstLine | internal/cmd/formula.go:1065-1082 | `key = v` on the first line yields `v` with its surrounding quotes removed |
| Extract.ValueQuoted | internal/cmd/formula.go:1072-1077 | a value in matching single or double quotes yields the text between them |
| Extract.ValueBare | internal/cmd/formula.go:1065-1082 | an unquoted value comes back unchanged |
| Extract.ValueUnclosedQuote | internal/cmd/formula.go:1072-1076 | a value opening with a quote and never closing loses its last character |
| Extract.ValueSkipsLine | internal/cmd/formula.go:1067-1080 | a first line that is not the key's does not affect the result; the first matching line wins |
| Extract.ExtractTOMLMultiline | internal/cmd/formula.go:1085-1101 | without `key = """` it falls back to the single-line value; otherwise the result is empty or trimmed at both ends |
| Extract.MultilineAfterOpening | internal/cmd/formula.go:1085-1101 | the value depends only on the text after the first opening |
| Extract.MultilineUnclosed | internal/cmd/formula.go:1094-1098 | an opening with no closing `"""` yields the empty string |
| Extract.MultilineRoundTrip | internal/cmd/formula.go:1085-1101 | a trimmed body written between `key = """` and `"""` is read back exactly |
| Extract.Section | internal/cmd/formula.go:1137-1146 | absent exactly when the header is absent; otherwise the text from the header's first occurrence up to the next line starting with `[` |
| Extract.SectionHeader | internal/cmd/formula.go:1137-1146 | the section text starts with its header |
| Extract.NonEmptyMembers | internal/cmd/formula.go:1155-1163 | an item is kept exactly when it was given and is non-empty |
| Extract.CleanItemsMembers | internal/cmd/formula.go:1155-1163 | the dependency list holds exactly the non-empty cleaned items |
| Extract.ExtractSynthesis | internal/cmd/formula.go:1137-1171 | no section means none; with the section, a synthesis exactly when its title or description is non-empty, carrying that title and description and the `depends_on` value with its brackets trimmed, split at commas, each item trimmed of white space and quotes, the empty ones dropped; every dependency is non-empty and neither starts nor ends with a quote |
| Extract.ExtractPrompts | internal/cmd/formula.go:1174-1194 | only the `base` prompt is read, and it is present exactly when the `[prompts]` section holds a non-empty `base` |
| Extract.ExtractOutput | internal/cmd/formula.go:1197-1220 | no section means none; with the section, an output config exactly when its directory, leg pattern or synthesis field is non-empty, and then it carries those three fields |
| Extract.LegBlock | internal/cmd/formula.go:1114-1119 | a leg's block is the text before the first `[[`, or the whole section when there is none |
| Extract.WithIdMembers | internal/cmd/formula.go:1128-1130 | a parsed leg is kept exactly when its id is non-empty |
| Extract.WithIdAppend | internal/cmd/formula.go:1104-1134 | filtering legs by id distributes over concatenation |
| Extract.ExtractLegs | internal/cmd/formula.go:1104-1134 | the loop returns exactly the specification's legs |
| Extract.ParseFormulaContent | internal/cmd/formula.go:436-471 | every leg has an id; synthesis, output and prompts appear only when their section header does |
| Extract.ParseFormulaFile | internal/cmd/formula.go:1008-1062 | an `embedded:` path parses exactly when that formula is embedded; any other path parses exactly when it can be read |
| Extract.ParseSourcesAgree | internal/cmd/formula.go:1008-1062 | a file and an embedded formula with equal content parse to the same formula |
| RoundTrip.ParseSerialized | internal/cmd/formula.go:436-471 | parsing a written document gives its legs, in order, by id and title, and its synthesis with its title and description |
| RoundTrip.LegsRoundTrip | internal/cmd/formula.go:1104-1134 | the legs read back from a written document are the written ones, by id and title, in order |
| RoundTrip.SynthesisRoundTrip | internal/cmd/formula.go:1137-1171 | the synthesis read back from a written document has the written title and description |
| Resolve.FindFormulaWithSource | internal/cmd/formula.go:973-1004 | returns the first existing candidate in the order cwd toml, cwd json, town toml, town json; with none, the embedded formula; otherwise not found |
| Resolve.FirstExisting | internal/cmd/formula.go:982-996 | the index of the first existing path, every earlier one missing |
| Resolve.FindFormulaFile | internal/cmd/formula.go:958-969 | agrees with the resolution; an embedded hit becomes `embedded:<name>` |
| Resolve.CwdTomlWins | internal/cmd/formula.go:973-1004 | a `.formula.toml` under the working directory wins over everything else |
| Resolve.CwdJsonSecond | internal/cmd/formula.go:973-1004 | a `.formula.json` there wins when the toml is missing |
| Resolve.TownBeforeEmbedded | internal/cmd/formula.go:973-1004 | a town-level file shadows the embedded formula |
| Resolve.EmbeddedFallback | internal/cmd/formula.go:997-1003 | with no file on disk, an embedded formula is found and marked `embedded:` |
| Resolve.EmbeddedMarkerParses | internal/cmd/formula.go:958-1062 | the resolved embedded path parses the embedded content |
| Resolve.FileLocationParses | internal/cmd/formula.go:958-1062 | a resolved absolute file path parses that file's content |
| ShortIds.ShortIDShape | internal/cmd/formula.go:1290-1294 | an id is five characters from `a`-`z` and `2`-`7`, each the lower-cased base32 symbol of a 5-bit group |
| ShortIds.ShortID | internal/cmd/formula.go:1290-1294 | five characters, each from `a`-`z` or `2`-`7` |
| ShortIds.ShortIDRoundTrip | internal/cmd/formula.go:1290-1294 | decoding the five characters gives back the three random bytes |
| ShortIds.ShortIDInjective | internal/cmd/formula.go:1290-1294 | distinct random bytes give distinct ids |
| ShortIds.LastSymbolEven | internal/cmd/formula.go:1290-1294 | the fifth symbol carries a zero pad bit, so only 16 of the 32 symbols appear last |
| ShortIds.EncodeToString | internal/cmd/formula.go:1290-1294 | three bytes encode to five symbols and `===` padding |
| PullRequest.CollectChangedFiles | internal/cmd/formula.go:1263-1283 | the loop collects, in order, exactly the lines whose first three fields are a path and two integers |
| PullRequest.FetchPRInfo | internal/cmd/formula.go:1248-1287 | the title and changed files are those of the specification for the two command outputs |
| PullRequest.PRInfo | internal/cmd/formula.go:1248-1287 | a failed title call gives an empty title, a failed file call no files; the title is trimmed |
| PullRequest.ParseFileLines | internal/cmd/formula.go:1263-1283 | at most one file per line |
| PullRequest.FileLineParses | internal/cmd/formula.go:1263-1283 | a `path additions deletions` line parses back to the file it describes |
| PullRequest.ListingRoundTrip | internal/cmd/formula.go:1256-1286 | the `gh` listing of a set of files parses back to exactly those files |
| Diff.FindLineDifferences | internal/cmd/formula.go:1935-1973 | the loop returns exactly the specification's differences |
| Diff.DifferencesAreIndexed | internal/cmd/formula.go:1935-1973 | one entry per line number below the longer length where the trimmed lines differ, in increasing order, each carrying both original lines |
| Diff.EntryAt | internal/cmd/formula.go:1935-1973 | each entry sits at a differing line number |
| Diff.DiffAtCarriesLines | internal/cmd/formula.go:1963-1969 | an entry is "added" exactly past the left end, "removed" exactly past the right end, otherwise "changed" |
| Diff.SameTrimmedNoDifferences | internal/cmd/formula.go:1953-1961 | files differing only in surrounding whitespace have no differences |
| Diff.IdenticalNoDifferences | internal/cmd/formula.go:1935-1973 | a file has no differences with itself |
| Diff.Swapped | internal/cmd/formula.go:1935-1973 | swapping the sides swaps added with removed and left with right |
| Diff.TruncateLine | internal/cmd/formula.go:1976-1982 | the result never exceeds the width |
| Diff.TruncateLineShape | internal/cmd/formula.go:1976-1982 | a trimmed line that fits is kept; a longer one keeps its first width-3 characters and ends in `...` |
| Diff.Cells | internal/cmd/formula.go:1909-1918 | each cell fits in 36 characters; missing sides read `(added)` and `(removed)` |
| Diff.ShownDifferences | internal/cmd/formula.go:1902-1920 | at most 20 differences are shown, the first ones; the remaining count is positive exactly when there are more than 20 |
| Merge.TruncateHash | internal/cmd/formula.go:2471-2476 | at most 12 characters, a prefix of the hash |
| Merge.PromptCarriesBoth | internal/cmd/formula.go:2437-2468 | for any fixed texts of the prompt: it opens with the merge instructions, ends with the rules, and holds the embedded block immediately followed by the override block |
| Merge.PromptNamesVersions | internal/cmd/formula.go:2445-2450 | for any fixed texts of the prompt: it names both hashes when a base hash is known, otherwise says the base is unknown |
| Merge.BuildMergePrompt | internal/cmd/formula.go:2437-2468 | with the source's own texts: the prompt opens with the merge instructions and ends with the rules; it names both hashes when a base hash is known, otherwise says the base is unknown |
| Merge.StripFormulaHeader | internal/cmd/formula.go:2479-2505 | the loop returns exactly the specification's stripped content |
| Merge.StripHeader | internal/cmd/formula.go:2479-2505 | content whose first line is neither blank nor a header comment, or that holds nothing but blank and header lines, is returned unchanged |
| Merge.StripDropsOnlyHeader | internal/cmd/formula.go:2479-2505 | only blank and header-comment lines are dropped; when another line exists, the result starts at the first one |
| Merge.StripKeepsPlain | internal/cmd/formula.go:2479-2505 | content that starts with an ordinary line is unchanged |
| Merge.StripIdempotent | internal/cmd/formula.go:2479-2505 | stripping twice is stripping once |
| Merge.StripHeaderOfHeader | internal/cmd/formula.go:2479-2505 | stripping the header that `CopyFormulaTo` and the update write gives back the body |
| Merge.OneShotArgs | internal/cmd/formula.go:2418-2431 | a preset without a non-interactive config runs with `-p`; otherwise the subcommand when it is non-empty, followed by the prompt flag when it is non-empty, and nothing else |
| Merge.ResolveAgentForOneShot | internal/cmd/formula.go:2401-2434 | succeeds exactly when the command is on PATH; an unknown agent is its own command with `-p`; a preset uses its command and one-shot arguments |
| Merge.ConfiguredAgentReads | internal/cmd/formula.go:2364-2385 | `"default_agent": "<name>"` in the town settings is read as `<name>` |
| Merge.DetectFormulaUpdateAgent | internal/cmd/formula.go:2357-2397 | `GT_DEFAULT_AGENT` wins; then the configured agent if on PATH; then the first of claude, opencode, gemini, codex that is on PATH, resolved for one-shot use; "no agent" exactly when none is |
| Merge.FallbackFirstCandidate | internal/cmd/formula.go:2388-2394 | with `GT_DEFAULT_AGENT` unset, no usable configured agent and some candidate on PATH, the agent is the one resolved from a candidate at or before it that is on PATH, every candidate before that one being off PATH |
| Merge.CandidateOrder | internal/cmd/formula.go:2388-2394 | with claude absent and opencode on PATH, opencode is chosen |
| Overrides.DirMatches | internal/cmd/formula.go:1990-2025 | lists exactly the `.formula.toml` files of a directory that the selection admits |
| Overrides.DirScan | internal/cmd/formula.go:1985-2029 | an unreadable directory contributes nothing |
| Overrides.ScanAllFormulaOverrides | internal/cmd/formula.go:1985-2029 | every reported override names an embedded formula |
| Overrides.FindCustomFormulas | internal/cmd/formula.go:2064-2112 | no reported formula is embedded |
| Overrides.ScanSelects | internal/cmd/formula.go:1985-2112 | the filtered scan holds exactly the full scan's entries that pass the filter |
| Overrides.OverridesAndCustomPartition | internal/cmd/formula.go:1985-2112 | with the name list that `GetEmbeddedFormulaNames` gives, every formula file whose stem is not itself a filename (longer than `.formula.toml` and ending in it) is either an override or custom, never both |
| Overrides.DoubleSuffixInBoth | internal/cmd/formula.go:1985-2112 | a town file named `<embedded file name>.formula.toml` is reported by both scans, since its stem is found by `EmbeddedFormulaExists` but is missing from the suffix-free name list |
| Overrides.TownFileReported | internal/cmd/formula.go:1989-2004 | every town-level formula file is found by the scan |
| Overrides.RigFileReported | internal/cmd/formula.go:2006-2026 | every formula file of a rig that the registry scan lists is found at rig level, named after its stem and its rig |
| Overrides.ScanFormulaOverridesForName | internal/cmd/formula.go:2032-2061 | only existing files of that name; the town one first exactly when it exists; every existing rig one is found |
| Overrides.SelectOverride | internal/cmd/formula.go:2249-2255 | a rig override is chosen exactly when one exists, and it is the first; otherwise the town one |
| Overrides.RigOverTown | internal/cmd/formula.go:2249-2255 | a rig-level override takes precedence over the town-level one |
| Overrides.ShadowingRig | internal/cmd/formula.go:2189-2200 | the first rig holding the same override, looked for only when the town target exists |
| Overrides.RunFormulaReset | internal/cmd/formula.go:2166-2224 | result and new disk are those of the reset specification |
| Overrides.ResetRefusesBothLevels | internal/cmd/formula.go:2184-2200 | a town reset refuses when a rig override also exists, and changes nothing |
| Overrides.ResetMissingTarget | internal/cmd/formula.go:2203-2209 | a missing override is an error noting whether the embedded version is in use, and changes nothing |
| Overrides.ResetRemovesOnlyTarget | internal/cmd/formula.go:2211-2214 | a successful reset removes the target file and nothing else |
| Overrides.ResetRestoresEmbedded | internal/cmd/formula.go:2166-2224 | after a town reset with no json twin, resolution falls back to the embedded formula |
| Overrides.UpdateOverride | internal/cmd/formula.go:2258-2353 | without `--apply` the disk is never changed |
| Overrides.RunFormulaUpdate | internal/cmd/formula.go:2227-2353 | result and new disk are those of the update specification |
| Overrides.ProposalWritesNothing | internal/cmd/formula.go:2227-2353 | a run without `--apply` leaves the disk as it was |
| Overrides.CurrentNeedsNoAgent | internal/cmd/formula.go:2263-2276 | an override already based on the current embedded hash is reported up to date, whatever agent is available |
| Overrides.MergedFileIsCurrent | internal/cmd/formula.go:2320-2335 | a merged file's header records the current embedded hash |
| Overrides.ApplyMergeWrites | internal/cmd/formula.go:2320-2335 | applying backs up the old content and writes the merged file, which is then current |
| Overrides.OverrideApplied | internal/cmd/formula.go:2258-2353 | an applied update leaves a backup of the old override and a current merged override |
| Overrides.AppliedUpdate | internal/cmd/formula.go:2227-2353 | the same holds for the whole command |
| Overrides.ModifyDir | internal/cmd/formula.go:1539-1562 | `--town` alone chooses that town's formulas directory; failure exactly when the town root is needed and missing |
| Overrides.RunFormulaModify | internal/cmd/formula.go:1530-1584 | result and new disk are those of the modify specification |
| Overrides.ModifyKeepsExisting | internal/cmd/formula.go:1564-1569 | an existing override is refused and the disk is unchanged |
| Overrides.ModifiedIsCurrent | internal/cmd/formula.go:1530-1584 | a new override holds the embedded content under a header recording the current hash |
| Rigs.Candidate | internal/cmd/formula.go:2146-2156 | at most one rig per line, and it is a directory below the town not named `rigs` |
| Rigs.Step | internal/cmd/formula.go:2131-2159 | found rigs are only appended; before `"rigs"` lines change nothing; a `"rigs"` line switches scanning on without counting its braces; a rig is added only from a line that leaves the depth at 1 and holds `":`, and it is the candidate named between its first two quotes; while scanning, a `}` that leaves the depth at 0 or below switches scanning off, and a line without `}` keeps it on |
| Rigs.Scan | internal/cmd/formula.go:2130-2160 | found rigs are only appended, each a rig directory |
| Rigs.ScannedRigDirs | internal/cmd/formula.go:2115-2163 | an unreadable registry yields nothing; everything found is a rig directory |
| Rigs.DiscoverRigDirs | internal/cmd/formula.go:2115-2163 | the loop returns exactly what the as-written scan finds |
| Rigs.StaysOff | internal/cmd/formula.go:2133-2137 | lines before the `"rigs"` line are ignored |
| Rigs.ScanAppend | internal/cmd/formula.go:2130-2160 | scanning two line blocks is scanning one then the other |
| Rigs.FirstRigScanned | internal/cmd/formula.go:2131-2159 | after `"rigs": {`, the first entry's open and close lines find that rig and switch scanning off |
| Rigs.ScanFindsOnlyFirst | internal/cmd/formula.go:2115-2163 | on a registry listing several rigs, only the first is found |
| Rigs.RigDirs | internal/cmd/formula.go:2115-2163 | the corrected scan: nothing for an unreadable registry, and only rig directories |
| Rigs.FixedScanFindsAll | internal/cmd/formula.go:2115-2163 | the corrected scan finds every listed rig that is a directory, in order |
| Rigs.SecondRigMissed | internal/cmd/formula.go:2115-2163 | with rigs `a` and `b` both present, the scan as written finds only `a`; the corrected one finds both |
| Convoy.RenderTemplateOrDefault | internal/cmd/formula.go:1236-1245 | an empty template or a failed render falls back to the default; otherwise the rendering |
| Convoy.ChooseRunAction | internal/cmd/formula.go:535-554 | dry run exactly when asked; execution exactly for convoy formulas otherwise; the not-supported note exactly for other types |
| Convoy.ConvoyTitle | internal/cmd/formula.go:656-659 | at most 80 characters; the full `name: description` exactly when it fits; otherwise its first 77 characters and `...` |
| Convoy.TitleNamesFormula | internal/cmd/formula.go:656-659 | a short formula name always heads the title |
| Convoy.DefaultOutputDirectory | internal/cmd/formula.go:708-715 | a directory template that fails to render gives `.reviews/<review id>` |
| Convoy.OutputDirectory | internal/cmd/formula.go:708-715 | no output section or no directory template gives no directory; a directory is used only with an output section |
| Convoy.NoOutputDirectory | internal/cmd/formula.go:708-715 | without an output directory no directory is used |
| Convoy.DefaultLegOutputPath | internal/cmd/formula.go:753-754 | an empty leg pattern writes to `<leg id>-findings.md` in the output directory |
| Convoy.LegDescription | internal/cmd/formula.go:730-771 | the bead description starts with the leg description, and is exactly it when no base prompt exists |
| Convoy.DryRunLegLines | internal/cmd/formula.go:602-627 | one line per leg, in order |
| Convoy.DryRunFormula | internal/cmd/formula.go:558-640 | details exactly for convoy formulas with legs: one entry per leg with its id and title, a path exactly when an output directory is set, synthesis exactly when defined |
| Convoy.DryRunDefaultLegPath | internal/cmd/formula.go:602-624 | a dry run shows the same default leg path as the real run |
| Convoy.Shell.Run | internal/cmd/formula.go:643-901 | a command's success is the world's verdict, and it is appended to the log |
| Convoy.Shell.NewShortID | internal/cmd/formula.go:1290-1294 | each draw takes the next random id |
| Convoy.CreateLeg | internal/cmd/formula.go:726-804 | one leg: a create command, followed by a track command exactly when the create succeeds |
| Convoy.CreateLegs | internal/cmd/formula.go:726-804 | the log and the leg→bead map are those of the specification |
| Convoy.AddDependencies | internal/cmd/formula.go:840-846 | as a multiset, the dependency commands are one per stored leg bead, so legs that stored the same bead give equal commands |
| Convoy.DependenciesOfBag | internal/cmd/formula.go:840-846 | the dependency commands for a list of distinct leg ids are, as a multiset, the commands for the set of those ids |
| Convoy.CreateSynthesis | internal/cmd/formula.go:808-850 | a synthesis bead is drawn and created only when defined; tracked and linked exactly when created |
| Convoy.DispatchLegs | internal/cmd/formula.go:855-889 | the log and the sling count are those of the specification |
| Convoy.LaunchConvoy | internal/cmd/formula.go:704-889 | creation of beads, the output directory and dispatch in order |
| Convoy.ExecuteConvoyFormula | internal/cmd/formula.go:643-901 | no town root: nothing happens; convoy create fails: only that command is logged and the disk is unchanged; otherwise the whole launch |
| ConvoyFacts.StoredIffCreated | internal/cmd/formula.go:784-803 | a leg id has a bead exactly when some leg with that id was created |
| ConvoyFacts.LastDuplicateWins | internal/cmd/formula.go:726-804 | with duplicate leg ids, the last created one's bead is stored |
| ConvoyFacts.StoredBeadWasCreated | internal/cmd/formula.go:784-803 | every stored bead was created for a leg with that id |
| ConvoyFacts.LegsAreTrackedIffCreated | internal/cmd/formula.go:784-803 | a track command follows exactly the successful creates |
| ConvoyFacts.FailedSlingsCommented | internal/cmd/formula.go:873-885 | every failed sling is followed by a comment on its bead |
| ConvoyFacts.SlingCountCountsSuccesses | internal/cmd/formula.go:855-889 | the reported count is the number of successful slings |
| ConvoyFacts.SlungLegsAreStored | internal/cmd/formula.go:857-860 | only legs with a stored bead are slung |
| ConvoyFacts.StoredLegsAreSlung | internal/cmd/formula.go:855-889 | every leg with a stored bead is slung |
| ConvoyFacts.DispatchOmitsPrompt | internal/cmd/formula.go:866-869 | the sling passes the bare leg description, not the one carrying the base prompt |
| FormulaDoctor.FormulaCheckRun | internal/doctor/formula_check.go:32-55 | OK exactly when the listing works and is non-empty, with the count in the message; otherwise a warning |
| FormulaDoctor.LegacyIn | internal/doctor/formula_check.go:141-176 | at most one legacy file per entry |
| FormulaDoctor.RemoveEach | internal/doctor/formula_check.go:110-138 | every path is either removed or failed |
| FormulaDoctor.LegacyProvisionedFormulasCheck.constructor | internal/doctor/formula_check.go:66-76 | starts with nothing cached |
| FormulaDoctor.LegacyProvisionedFormulasCheck.ScanForLegacyFormulas | internal/doctor/formula_check.go:141-176 | appends the directory's legacy copies to the cache |
| FormulaDoctor.LegacyProvisionedFormulasCheck.Run | internal/doctor/formula_check.go:79-107 | caches exactly the legacy files of town and rigs; OK with "No legacy provisioned formulas found" exactly when there are none, otherwise a warning "Found <count> legacy provisioned formulas that match embedded versions" that lists them as details |
| FormulaDoctor.LegacyProvisionedFormulasCheck.Fix | internal/doctor/formula_check.go:110-138 | removes each cached file, going on after failures; reports exactly the failures |
| FormulaDoctor.LegacyInMembers | internal/doctor/formula_check.go:141-176 | exactly the entries that are unmodified copies of an embedded formula |
| FormulaDoctor.ScannedLegacyIff | internal/doctor/formula_check.go:141-176 | the same, for a readable directory; nothing otherwise |
| FormulaDoctor.ScannedAreEmbeddedCopies | internal/doctor/formula_check.go:141-176 | every flagged file reads and equals some embedded formula |
| FormulaDoctor.RigsLegacyMembers | internal/doctor/formula_check.go:88-93 | the rig scans together find exactly what each rig's scan finds |
| FormulaDoctor.LegacyFormulasIff | internal/doctor/formula_check.go:79-107 | flagged exactly when flagged in the town or in a registered rig |
| FormulaDoctor.RemoveEachFrame | internal/doctor/formula_check.go:110-138 | files outside the cache are untouched |
| FormulaDoctor.RemovedAreGone | internal/doctor/formula_check.go:110-138 | every removed file is gone |
| ConfigDoctor.RigsIn | internal/doctor/config_check.go:271-302 | at most one rig per entry |
| ConfigDoctor.FindMarker | internal/doctor/config_check.go:291-298 | true exactly when `crew`, `polecats`, `witness` or `refinery` exists in the directory |
| ConfigDoctor.FindAllRigs | internal/doctor/config_check.go:271-302 | the loop returns exactly the specification's rigs |
| ConfigDoctor.RigsInMembers | internal/doctor/config_check.go:279-300 | exactly the visible, non-`mayor`, non-`.beads` directories that hold a marker |
| ConfigDoctor.AllRigsIff | internal/doctor/config_check.go:271-302 | the same, for a readable town; nothing otherwise |
| ConfigDoctor.RigsInDistinct | internal/doctor/config_check.go:271-302 | no rig is listed twice |
| ConfigDoctor.MissingRigs | internal/doctor/config_check.go:45-53 | only rigs lacking `settings/` |
| ConfigDoctor.CheckSettings | internal/doctor/config_check.go:42-76 | details for exactly the rigs lacking settings; the rest counted as OK |
| ConfigDoctor.MissingSettingsOf | internal/doctor/config_check.go:55-62 | caches the settings paths of exactly the rigs lacking them |
| ConfigDoctor.SettingsCheck.constructor | internal/doctor/config_check.go:20-29 | starts with nothing cached |
| ConfigDoctor.SettingsCheck.Run | internal/doctor/config_check.go:32-84 | no rigs: OK and the cache is left as it was; otherwise caches the missing paths, OK exactly when none are missing, with counts in the message |
| ConfigDoctor.SettingsCheck.Fix | internal/doctor/config_check.go:87-94 | creates each cached directory, stopping at the first failure |
| ConfigDoctor.MissingRigsIff | internal/doctor/config_check.go:45-53 | a rig is missing settings exactly when it is a rig and lacks them |
| ConfigDoctor.MkdirEachKeeps | internal/doctor/config_check.go:87-94 | existing directories stay directories |
| ConfigDoctor.MkdirEachMakes | internal/doctor/config_check.go:87-94 | after a clean fix every cached path is a directory |
| ConfigDoctor.AnyAccepted | internal/doctor/config_check.go:157-176 | true exactly when some trimmed line is one of the six accepted spellings |
| ConfigDoctor.ContainsPatternIff | internal/doctor/config_check.go:157-176 | an unreadable file never contains the pattern; a readable one does exactly when some trimmed line is an accepted spelling |
| ConfigDoctor.ContainsPattern | internal/doctor/config_check.go:157-176 | a file that cannot be read never contains the pattern |
| ConfigDoctor.AppendedRuntimeLine | internal/doctor/config_check.go:157-176 | a file ending in the line `.runtime/` satisfies the check |
| ConfigDoctor.CheckCrew | internal/doctor/config_check.go:125-136 | the loop reports exactly the specification's crew issues |
| ConfigDoctor.RuntimeGitignoreRun | internal/doctor/config_check.go:112-154 | OK exactly when there are no issues; details list each; the message is `.runtime/ properly gitignored` or counts the locations missing the pattern |
| ConfigDoctor.TownIssueIff | internal/doctor/config_check.go:115-119 | a town issue exactly when the town `.gitignore` lacks the pattern |
| ConfigDoctor.CrewIssuesMembers | internal/doctor/config_check.go:127-135 | exactly the visible crew directories whose `.gitignore` lacks the pattern |
| ConfigDoctor.RigsIssuesMembers | internal/doctor/config_check.go:123-136 | the rigs' issues are exactly the union of each rig's |
| ConfigDoctor.CrewIssueIff | internal/doctor/config_check.go:112-154 | a crew issue exactly for such a crew directory of some found rig |
| ConfigDoctor.FindLegacyLabels | internal/doctor/config_check.go:204-219 | the loop labels exactly the specification's legacy directories |
| ConfigDoctor.FindLegacyDirs | internal/doctor/config_check.go:221-232 | the loop caches exactly the specification's legacy directories |
| ConfigDoctor.RemoveAllEach | internal/doctor/config_check.go:251-258 | a failure names one of the paths |
| ConfigDoctor.LegacyGastownCheck.constructor | internal/doctor/config_check.go:190-199 | starts with nothing cached |
| ConfigDoctor.LegacyGastownCheck.Run | internal/doctor/config_check.go:202-248 | caches exactly the `.gastown` directories of town and rigs; OK exactly when there are none; the message says none were found or counts them |
| ConfigDoctor.LegacyGastownCheck.Fix | internal/doctor/config_check.go:251-258 | removes each cached directory, stopping at the first failure |
| ConfigDoctor.TownLegacyIff | internal/doctor/config_check.go:205-209 | the town is flagged exactly when its `.gastown` is a directory |
| ConfigDoctor.RigLegacyIff | internal/doctor/config_check.go:211-219 | a rig is flagged exactly when it is found and its `.gastown` is a directory |
| ConfigDoctor.RigLegaciesAreRigs | internal/doctor/config_check.go:211-219 | every flagged entry is a found rig with a `.gastown` directory |
| ConfigDoctor.RemoveAllEachKeepsGone | internal/doctor/config_check.go:251-258 | nothing removed reappears |
| ConfigDoctor.RemoveAllEachRemoves | internal/doctor/config_check.go:251-258 | after a clean fix every cached directory is gone |

## Left out

- Output: printing, styling, cobra command wiring, flags and `init`, exit codes. Commands return their values instead.
- `runFormulaList`, `runFormulaShow`, `runFormulaCreate` and its templates, `promptYesNo`, `printFormulaModificationGuide`, and the detailed and summary diff printing: they only print or prompt. The diff logic they use is modelled in `Diff`.
- External programs (`bd`, `gt sling`, `gh`, the merge agent): they are abstract. A command's success and output are parameters or come from a `World`.
- The template engine: a partial function supplied as a parameter.
- SHA-256: a parameter function yielding 64 lowercase hexadecimal digits.
- `crypto/rand`: the short-ID source is a parameter.
- `filepath.Join` cleaning (`..`, duplicate slashes): paths are joined with `/`, dropping empty parts. `filepath.Rel` is modelled only for paths below the town root.
- `bufio.Scanner`'s 64 KiB line limit; Unicode whitespace in `strings.TrimSpace`, which is modelled for ASCII whitespace. Strings are sequences of characters, one per byte.
- Time-of-check races between `os.Stat` and a later write or removal: each operation sees one disk value.
- The disk model is simpler than the operating system in three ways:
  - `CanWrite` does not check that the parent directory exists, so a write into a missing directory succeeds where `os.WriteFile` fails.
  - `MadeDir` creates only the directory itself, where `os.MkdirAll` also creates every missing parent.
  - `Written`, `Removed` and `MadeDir` do not update directory listings, so `ReadDir` does not show a file that was just written.
- Convoy commands:
  - the `--force` flag that `bd create` gets when `beads.NeedsForceForID` holds (internal/cmd/formula.go:675, 780, 823) is not modelled, because that function is not part of this model;
  - the working directory of the commands (`townBeads`, internal/cmd/formula.go:680 and after) is not recorded in the command log;
  - the empty `"files"` list that only the executed leg's template context carries (internal/cmd/formula.go:735-749, against 607-620) is not modelled; one leg context serves both.
- `RoundTrip.ParseSerialized`: the round trip is proved only for documents whose values hold no `"` and no `[`. Leg ids, leg titles and the synthesis title must also be non-empty, on one line, without white space at either end and not opening with a quote, so the synthesis title may not be empty. The synthesis description may not start or end with white space. Only leg ids and titles and the synthesis title and description are written. Focus, dependencies, prompts and the output section are not written.
- `CheckContext`: reduced to the town root. The doctor framework's runner, `CanFix` and the messages of error paths are not modelled.
- `FormulaDoctor.FormulaCheckRun`: the warning message text for a failed or empty listing is not stated.
- `Merge.ConfiguredAgentReads`: `default_agent` is read by the same text search as the source, not by JSON parsing, so only the plain `"default_agent": "<name>"` form is proved.
- `Overrides.OverridesAndCustomPartition`: the partition is proved only for local files whose stem is not itself a filename (longer than `.formula.toml` and ending in it). A file such as `x.formula.toml.formula.toml`, with `x.formula.toml` embedded, is reported both as an override and as custom, as the source does; `Overrides.DoubleSuffixInBoth` states this.
- `Extract.ExtractTOMLValue`: its contract only bounds when a value can appear; the exact value is stated by the lemmas that follow it.
- `Rigs.DiscoverRigDirs` models the scanner as written, and the override commands and the legacy-formula check use it, as the source does. The corrected `Rigs.RigDirs` only serves the Findings row.
- The two `discoverRigDirs` functions (formula.go:2115-2163 and formula_check.go:179-225) are the same code and share this one model.

## Findings

| source | as written | input that shows it | evidently intended | confidence | as-written member | corrected member |
|---|---|---|---|---|---|---|
| internal/cmd/formula.go:2131-2159 (same code at internal/doctor/formula_check.go:194-221) | the `"rigs"` line is skipped before its `{` is counted, so the depth is 1 inside the first rig's object, and that object's closing `},` brings it to 0 and switches scanning off | `mayor/rigs.json` with the lines `{`, `"rigs": {`, `"a": {`, `},`, `"b": {`, `}`, `}`, `}`, where `a` and `b` are directories below the town | every rig key directly inside `rigs` is found: `a` and `b` | not executed | Rigs.SecondRigMissed, Rigs.ScanFindsOnlyFirst | Rigs.RigDirs, Rigs.FixedScanFindsAll |
