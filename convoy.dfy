/**
 * Running a convoy formula: the command's type gate, the dry-run report, and
 * the executor that creates a convoy bead, one task bead per leg tracked by
 * the convoy, an optional synthesis bead that depends on every stored leg,
 * and then slings each stored leg to a polecat in the target rig.
 */
module Convoy {
  import opened Outcome
  import opened Text
  import opened Disk
  import opened Extract
  import opened ShortIds
  import opened PullRequest

  // ---------------------------------------------------------------------
  // Templates
  // ---------------------------------------------------------------------

  /** The `output` entries of a leg's template context. */
  datatype OutputInfo = OutputInfo(outputPath: Path, directory: Path, synthesis: String)

  /** The maps the command hands to the template engine. */
  datatype Context =
    | DirContext(reviewId: String, formulaName: String)
    | LegContext(formulaName: String, targetDescription: String, reviewId: String, prNumber: int,
                 prTitle: String, leg: Leg, changedFiles: seq<ChangedFile>, output: Option<OutputInfo>)

  /** `text/template` parsing and execution: the rendered text, or `None` when either step fails. */
  type Engine = (String, Context) -> Option<String>

  /** `renderTemplateOrDefault`: an empty template or a failed rendering yields the fallback. */
  function RenderTemplateOrDefault(engine: Engine, tmpl: String, ctx: Context, fallback: String): (r: String)
    ensures tmpl == [] ==> r == fallback
    ensures tmpl != [] && engine(tmpl, ctx).None? ==> r == fallback
    ensures tmpl != [] && engine(tmpl, ctx).Some? ==> r == engine(tmpl, ctx).value
  {
    if tmpl == [] then fallback
    else match engine(tmpl, ctx)
      case None => fallback
      case Some(text) => text
  }

  // ---------------------------------------------------------------------
  // The type gate of `gt formula run`
  // ---------------------------------------------------------------------

  datatype RunAction = ShowDryRun | ShowUnsupported | ExecuteConvoy

  const ConvoyType: String := "convoy"

  /** `--dry-run` is honoured before the type is looked at; only convoy formulas execute. */
  function ChooseRunAction(dryRun: bool, f: Formula): (r: RunAction)
    ensures r == ShowDryRun <==> dryRun
    ensures r == ExecuteConvoy <==> !dryRun && f.formulaType == ConvoyType
    ensures r == ShowUnsupported <==> !dryRun && f.formulaType != ConvoyType
  {
    if dryRun then ShowDryRun
    else if f.formulaType != ConvoyType then ShowUnsupported
    else ExecuteConvoy
  }

  // ---------------------------------------------------------------------
  // Texts the executor builds
  // ---------------------------------------------------------------------

  const TitleLimit: nat := 80
  const TitleKept: nat := 77
  const Ellipsis: String := "..."

  /** The convoy title: `name: description`, cut to 77 bytes and an ellipsis when it exceeds 80. */
  function ConvoyTitle(formulaName: String, description: String): (r: String)
    ensures var full := formulaName + ": " + description;
      && |r| <= TitleLimit
      && (r == full <==> |full| <= TitleLimit)
      && (r != full ==> |r| == TitleLimit && r[..TitleKept] == full[..TitleKept] && r[TitleKept..] == Ellipsis)
  {
    var full := formulaName + ": " + description;
    if |full| > TitleLimit then full[..TitleKept] + Ellipsis else full
  }

  /** A formula name of at most 75 bytes always opens the title, followed by `: `. */
  lemma TitleNamesFormula(formulaName: String, description: String)
    requires |formulaName| + 2 <= TitleKept
    ensures HasPrefix(ConvoyTitle(formulaName, description), formulaName + ": ")
  {
    var full := formulaName + ": " + description;
    var r := ConvoyTitle(formulaName, description);
    var head := formulaName + ": ";
    assert full[..|head|] == head;
    if r != full {
      assert r[..|head|] == r[..TitleKept][..|head|];
    }
  }

  /** The convoy bead's description. */
  function ConvoyDescription(formulaName: String, legCount: nat, targetRig: String, pr: int): String {
    "Formula convoy: " + formulaName + "\n\nLegs: " + IntToDecimal(legCount) + "\nRig: " + targetRig
      + (if pr > 0 then "\nPR: #" + IntToDecimal(pr) else "")
  }

  /** What the review is about. */
  function TargetDescription(pr: int): String {
    if pr > 0 then "PR #" + IntToDecimal(pr) else "local files"
  }

  const DefaultOutputRoot: String := ".reviews/"
  const FindingsSuffix: String := "-findings.md"

  /** The output directory: empty unless the formula configures one, rendered with the review ID. */
  function OutputDirectory(engine: Engine, f: Formula, formulaName: String, reviewId: String): (r: Path)
    ensures f.output.None? || f.output.value.directory == [] ==> r == []
    ensures r != [] ==> f.output.Some?
  {
    if f.output.Some? && f.output.value.directory != [] then
      RenderTemplateOrDefault(engine, f.output.value.directory, DirContext(reviewId, formulaName), DefaultOutputRoot + reviewId)
    else []
  }

  /** An output directory template that cannot be rendered falls back to `.reviews/<review id>`. */
  lemma DefaultOutputDirectory(engine: Engine, f: Formula, formulaName: String, reviewId: String)
    requires f.output.Some? && f.output.value.directory != []
    requires engine(f.output.value.directory, DirContext(reviewId, formulaName)).None?
    ensures OutputDirectory(engine, f, formulaName, reviewId) == DefaultOutputRoot + reviewId
  {
  }

  /** Without an output section or an output directory, there is no output directory. */
  lemma NoOutputDirectory(engine: Engine, f: Formula, formulaName: String, reviewId: String)
    requires f.output.None? || f.output.value.directory == []
    ensures OutputDirectory(engine, f, formulaName, reviewId) == []
  {
  }

  /** What one run of the executor or the dry run works from, besides the shell. */
  datatype Run = Run(
    f: Formula,
    formulaName: String,
    targetRig: String,
    pr: int,
    reviewId: String,
    prTitle: String,
    changedFiles: seq<ChangedFile>,
    outputDir: Path,
    engine: Engine)

  /** The run for a review ID and the outputs of the `gh` calls, which are made only for a PR. */
  function MakeRun(f: Formula, formulaName: String, targetRig: String, pr: int, reviewId: String,
                   titleOut: Option<String>, filesOut: Option<String>, engine: Engine): Run
  {
    var info := if pr > 0 then PRInfo(titleOut, filesOut) else ([], []);
    Run(f, formulaName, targetRig, pr, reviewId, info.0, info.1,
        OutputDirectory(engine, f, formulaName, reviewId), engine)
  }

  /** A leg's template context, with or without its output entries. */
  function LegCtx(run: Run, leg: Leg, output: Option<OutputInfo>): Context {
    LegContext(run.formulaName, TargetDescription(run.pr), run.reviewId, run.pr, run.prTitle, leg, run.changedFiles, output)
  }

  /** The path of a leg's findings: the rendered leg pattern, by default `<leg id>-findings.md`, below the output directory. */
  function LegOutputPath(run: Run, leg: Leg): Path
    requires run.f.output.Some?
  {
    JoinPath(run.outputDir,
      RenderTemplateOrDefault(run.engine, run.f.output.value.legPattern, LegCtx(run, leg, None), leg.id + FindingsSuffix))
  }

  /** With no leg pattern, a leg's findings go to `<leg id>-findings.md` in the output directory. */
  lemma DefaultLegOutputPath(run: Run, leg: Leg)
    requires run.f.output.Some? && run.f.output.value.legPattern == []
    ensures LegOutputPath(run, leg) == JoinPath(run.outputDir, leg.id + FindingsSuffix)
  {
  }

  const BasePromptKey: String := "base"
  const PromptSeparator: String := "\n\n---\nBase Prompt:\n"

  /**
   * The description of a leg's bead: the leg's own description, followed by
   * the rendered base prompt when the formula has one; a prompt that cannot
   * be rendered is appended as written.
   */
  function LegDescription(run: Run, leg: Leg): (r: String)
    ensures HasPrefix(r, leg.description)
    ensures r == leg.description <==> BasePromptKey !in run.f.prompts
  {
    if BasePromptKey !in run.f.prompts then leg.description
    else
      var output :=
        if run.f.output.Some? then Some(OutputInfo(LegOutputPath(run, leg), run.outputDir, run.f.output.value.synthesis))
        else None;
      var basePrompt := run.f.prompts[BasePromptKey];
      var rendered := match run.engine(basePrompt, LegCtx(run, leg, output))
        case Some(text) => text
        case None => basePrompt;
      var r := leg.description + PromptSeparator + rendered;
      assert r[..|leg.description|] == leg.description;
      r
  }

  // ---------------------------------------------------------------------
  // Dry run
  // ---------------------------------------------------------------------

  datatype LegLine = LegLine(id: String, title: String, outputPath: Option<Path>)
  datatype SynthesisLine = SynthesisLine(title: String, outputPath: Option<Path>)

  /** The part of the dry-run report shown for a convoy with legs. */
  datatype DryRunDetails = DryRunDetails(
    reviewId: String,
    targetDescription: String,
    prTitle: String,
    changedFileCount: nat,
    outputDir: Path,
    legs: seq<LegLine>,
    synthesis: Option<SynthesisLine>)

  /** Whether leg and synthesis lines show output paths. */
  predicate ShowsPaths(run: Run) {
    run.f.output.Some? && run.outputDir != []
  }

  function DryRunLegLine(run: Run, leg: Leg): LegLine {
    LegLine(leg.id, leg.title, if ShowsPaths(run) then Some(LegOutputPath(run, leg)) else None)
  }

  function DryRunLegLines(run: Run, legs: seq<Leg>): (r: seq<LegLine>)
    ensures |r| == |legs|
    ensures forall i :: 0 <= i < |legs| ==> r[i] == DryRunLegLine(run, legs[i])
  {
    if legs == [] then [] else [DryRunLegLine(run, legs[0])] + DryRunLegLines(run, legs[1..])
  }

  /** `dryRunFormula`: the details are shown only for a convoy formula with at least one leg. */
  function DryRunFormula(run: Run): (r: Option<DryRunDetails>)
    ensures r.Some? <==> run.f.formulaType == ConvoyType && |run.f.legs| > 0
    ensures r.Some? ==> |r.value.legs| == |run.f.legs|
    ensures r.Some? ==> forall i :: 0 <= i < |run.f.legs| ==>
      && r.value.legs[i].id == run.f.legs[i].id
      && r.value.legs[i].title == run.f.legs[i].title
      && (r.value.legs[i].outputPath.Some? <==> ShowsPaths(run))
    ensures r.Some? ==> (r.value.synthesis.Some? <==> run.f.synthesis.Some?)
  {
    if run.f.formulaType != ConvoyType || |run.f.legs| == 0 then None
    else
      var synthesis :=
        if run.f.synthesis.None? then None
        else Some(SynthesisLine(run.f.synthesis.value.title,
          if ShowsPaths(run) then Some(JoinPath(run.outputDir, run.f.output.value.synthesis)) else None));
      Some(DryRunDetails(run.reviewId, TargetDescription(run.pr), run.prTitle, |run.changedFiles|,
        run.outputDir, DryRunLegLines(run, run.f.legs), synthesis))
  }

  /** In a dry run with an output directory and no leg pattern, leg `i` is shown with `<output dir>/<leg id>-findings.md`. */
  lemma DryRunDefaultLegPath(run: Run, i: nat)
    requires run.f.formulaType == ConvoyType && i < |run.f.legs|
    requires ShowsPaths(run) && run.f.output.value.legPattern == []
    ensures DryRunFormula(run).value.legs[i].outputPath
      == Some(JoinPath(run.outputDir, run.f.legs[i].id + FindingsSuffix))
  {
    DefaultLegOutputPath(run, run.f.legs[i]);
  }

  // ---------------------------------------------------------------------
  // The shell the executor drives
  // ---------------------------------------------------------------------

  /** The `bd` and `gt` invocations that change the bead store or dispatch work. */
  datatype Command =
    | Create(beadType: String, id: String, title: String, description: String)
    | Track(convoy: String, bead: String)
    | DependOn(bead: String, dependsOn: String)
    | Sling(bead: String, rig: String, args: String, subject: String)
    | Comment(bead: String)

  /** What the executor cannot see: the short ID of each random draw and whether each command succeeds. */
  datatype World = World(ids: nat -> String, succeeds: Command -> bool)

  /** The commands run so far and the number of random IDs drawn. */
  class Shell {
    var log: seq<Command>
    var draws: nat
    const world: World

    /** A shell whose `n`-th short ID is made from the `n`-th three random bytes. */
    constructor (entropy: nat -> Entropy, succeeds: Command -> bool)
      ensures log == [] && draws == 0
      ensures forall n: nat :: world.ids(n) == ShortID(entropy(n))
      ensures world.succeeds == succeeds
    {
      log := [];
      draws := 0;
      world := World((n: nat) => ShortID(entropy(n)), succeeds);
    }

    /** Runs a command; its outcome is the world's. */
    method Run(c: Command) returns (ok: bool)
      modifies this
      ensures ok == world.succeeds(c)
      ensures log == old(log) + [c] && draws == old(draws)
    {
      log := log + [c];
      ok := world.succeeds(c);
    }

    /** `generateFormulaShortID`: the next draw. */
    method NewShortID() returns (id: String)
      modifies this
      ensures id == world.ids(old(draws))
      ensures draws == old(draws) + 1 && log == old(log)
    {
      id := world.ids(draws);
      draws := draws + 1;
    }
  }

  // ---------------------------------------------------------------------
  // The specification of each phase
  // ---------------------------------------------------------------------

  const TaskType: String := "task"

  function ConvoyId(world: World, draw: nat): String {
    "hq-cv-" + world.ids(draw)
  }

  function LegBeadId(world: World, draw: nat): String {
    "hq-leg-" + world.ids(draw)
  }

  function ConvoyCreate(f: Formula, formulaName: String, targetRig: String, pr: int, convoyId: String): Command {
    Create(ConvoyType, convoyId, ConvoyTitle(formulaName, f.description),
      ConvoyDescription(formulaName, |f.legs|, targetRig, pr))
  }

  function LegCreate(run: Run, leg: Leg, id: String): Command {
    Create(TaskType, id, leg.title, LegDescription(run, leg))
  }

  /** The bead creation of leg `i`, whose ID comes from draw `draw0 + i`. */
  function LegCreateAt(run: Run, world: World, draw0: nat, i: nat): Command
    requires i < |run.f.legs|
  {
    LegCreate(run, run.f.legs[i], LegBeadId(world, draw0 + i))
  }

  /** Leg `i`'s bead was created. */
  predicate Created(run: Run, world: World, draw0: nat, i: nat)
    requires i < |run.f.legs|
  {
    world.succeeds(LegCreateAt(run, world, draw0, i))
  }

  /** The commands for leg `i`: its creation and, when that succeeds, its tracking by the convoy. */
  function LegCommands(run: Run, world: World, convoyId: String, draw0: nat, i: nat): seq<Command>
    requires i < |run.f.legs|
  {
    var c := LegCreateAt(run, world, draw0, i);
    if world.succeeds(c) then [c, Track(convoyId, c.id)] else [c]
  }

  /** The commands for the first `n` legs. */
  function LegsLog(run: Run, world: World, convoyId: String, draw0: nat, n: nat): seq<Command>
    requires n <= |run.f.legs|
  {
    if n == 0 then [] else LegsLog(run, world, convoyId, draw0, n - 1) + LegCommands(run, world, convoyId, draw0, n - 1)
  }

  /** The leg-ID-to-bead map after the first `n` legs: each created leg overwrites its ID's entry. */
  function LegBeads(run: Run, world: World, draw0: nat, n: nat): map<String, String>
    requires n <= |run.f.legs|
  {
    if n == 0 then map[]
    else
      var m := LegBeads(run, world, draw0, n - 1);
      if Created(run, world, draw0, n - 1) then m[run.f.legs[n - 1].id := LegBeadId(world, draw0 + n - 1)] else m
  }

  const DefaultSynthesisDescription: String := "Synthesize findings from all legs into unified output"

  /** The synthesis bead's ID: drawn whenever the formula has a synthesis, before its creation is tried. */
  function SynthesisId(run: Run, world: World, draw: nat): String {
    if run.f.synthesis.Some? then "hq-syn-" + world.ids(draw) else []
  }

  function SynthesisCreate(s: Synthesis, id: String): Command {
    Create(TaskType, id, s.title, if s.description == [] then DefaultSynthesisDescription else s.description)
  }

  /** The dependency commands on the stored leg beads of `keys`, one per key, as a multiset. */
  ghost function DependencyBag(synthesisId: String, legBeads: map<String, String>, keys: set<String>): multiset<Command>
    requires keys <= legBeads.Keys
    decreases keys
  {
    if keys == {} then multiset{}
    else
      var k :| k in keys;
      multiset{DependOn(synthesisId, legBeads[k])} + DependencyBag(synthesisId, legBeads, keys - {k})
  }

  /** Any key of the bag can be taken out first. */
  lemma DependencyBagRemove(synthesisId: String, legBeads: map<String, String>, keys: set<String>, x: String)
    requires keys <= legBeads.Keys && x in keys
    ensures DependencyBag(synthesisId, legBeads, keys)
      == multiset{DependOn(synthesisId, legBeads[x])} + DependencyBag(synthesisId, legBeads, keys - {x})
    decreases keys
  {
    var y :| y in keys && DependencyBag(synthesisId, legBeads, keys)
      == multiset{DependOn(synthesisId, legBeads[y])} + DependencyBag(synthesisId, legBeads, keys - {y});
    if y != x {
      DependencyBagRemove(synthesisId, legBeads, keys - {y}, x);
      DependencyBagRemove(synthesisId, legBeads, keys - {x}, y);
      assert keys - {y} - {x} == keys - {x} - {y};
    }
  }

  /** The dependency command on the stored bead of each of `order`. */
  function DependenciesOf(synthesisId: String, legBeads: map<String, String>, order: seq<String>): (r: seq<Command>)
    requires forall j :: 0 <= j < |order| ==> order[j] in legBeads
    ensures |r| == |order|
    ensures forall j :: 0 <= j < |order| ==> r[j] == DependOn(synthesisId, legBeads[order[j]])
  {
    seq(|order|, j requires 0 <= j < |order| => DependOn(synthesisId, legBeads[order[j]]))
  }

  /** The keys of `order`, as a set. */
  function KeysOf(order: seq<String>): (r: set<String>)
    ensures forall x :: x in r <==> x in order
  {
    if order == [] then {} else {order[0]} + KeysOf(order[1..])
  }

  lemma DependenciesOfCons(synthesisId: String, legBeads: map<String, String>, order: seq<String>)
    requires order != [] && forall j :: 0 <= j < |order| ==> order[j] in legBeads
    ensures DependenciesOf(synthesisId, legBeads, order)
      == [DependOn(synthesisId, legBeads[order[0]])] + DependenciesOf(synthesisId, legBeads, order[1..])
  {
    var all, rest := DependenciesOf(synthesisId, legBeads, order), DependenciesOf(synthesisId, legBeads, order[1..]);
    forall j | 0 <= j < |rest|
      ensures all[j + 1] == rest[j]
    {
      assert order[1..][j] == order[j + 1];
    }
    SeqCons(all, DependOn(synthesisId, legBeads[order[0]]), rest);
  }

  /** Keys listed once each give, as a multiset, the dependencies of exactly those keys. */
  lemma {:induction false} DependenciesOfBag(synthesisId: String, legBeads: map<String, String>, order: seq<String>)
    requires forall j :: 0 <= j < |order| ==> order[j] in legBeads
    requires forall i, j :: 0 <= i < j < |order| ==> order[i] != order[j]
    ensures KeysOf(order) <= legBeads.Keys
    ensures multiset(DependenciesOf(synthesisId, legBeads, order)) == DependencyBag(synthesisId, legBeads, KeysOf(order))
    decreases |order|
  {
    if order != [] {
      var x, rest := order[0], order[1..];
      forall j | 0 <= j < |rest|
        ensures rest[j] != x
      {
        assert rest[j] == order[j + 1];
      }
      assert KeysOf(rest) == KeysOf(order) - {x};
      DependenciesOfBag(synthesisId, legBeads, rest);
      DependencyBagRemove(synthesisId, legBeads, KeysOf(order), x);
      DependenciesOfCons(synthesisId, legBeads, order);
    }
  }

  /**
   * `deps` makes the synthesis depend on each stored leg bead: as a
   * multiset, one command per stored leg, so two legs that stored the same
   * bead give two equal commands.
   */
  ghost predicate DependsOnStoredLegs(deps: seq<Command>, synthesisId: String, legBeads: map<String, String>) {
    multiset(deps) == DependencyBag(synthesisId, legBeads, legBeads.Keys)
  }

  /**
   * The synthesis phase's commands when its dependency commands were `deps`:
   * nothing without a synthesis; otherwise its creation and, when that
   * succeeds, its tracking and `deps`.
   */
  function SynthesisLog(run: Run, world: World, convoyId: String, synthesisId: String, deps: seq<Command>): seq<Command> {
    if run.f.synthesis.None? then []
    else
      var create := SynthesisCreate(run.f.synthesis.value, synthesisId);
      if world.succeeds(create) then [create, Track(convoyId, synthesisId)] + deps else [create]
  }

  /** After a successful creation, `deps` makes the synthesis depend on exactly the stored leg beads. */
  ghost predicate SynthesisDeps(run: Run, world: World, synthesisId: String, legBeads: map<String, String>, deps: seq<Command>) {
    run.f.synthesis.Some? && world.succeeds(SynthesisCreate(run.f.synthesis.value, synthesisId)) ==>
      DependsOnStoredLegs(deps, synthesisId, legBeads)
  }

  /** The sling of a leg: it carries the leg's own description and title, not the prompt-augmented bead description. */
  function SlingOf(run: Run, leg: Leg, bead: String): Command {
    Sling(bead, run.targetRig, leg.description, leg.title)
  }

  /** The dispatch commands for the first `n` legs: a stored leg is slung, and a failed sling is followed by a comment. */
  function DispatchLog(run: Run, world: World, legBeads: map<String, String>, n: nat): seq<Command>
    requires n <= |run.f.legs|
  {
    if n == 0 then []
    else
      var prev := DispatchLog(run, world, legBeads, n - 1);
      var leg := run.f.legs[n - 1];
      if leg.id !in legBeads then prev
      else
        var s := SlingOf(run, leg, legBeads[leg.id]);
        if world.succeeds(s) then prev + [s] else prev + [s, Comment(legBeads[leg.id])]
  }

  /** The number of successful slings among the first `n` legs. */
  function SlingCount(run: Run, world: World, legBeads: map<String, String>, n: nat): nat
    requires n <= |run.f.legs|
  {
    if n == 0 then 0
    else
      var prev := SlingCount(run, world, legBeads, n - 1);
      var leg := run.f.legs[n - 1];
      if leg.id in legBeads && world.succeeds(SlingOf(run, leg, legBeads[leg.id])) then prev + 1 else prev
  }

  // ---------------------------------------------------------------------
  // The executor
  // ---------------------------------------------------------------------

  datatype ConvoyError = NoTownRoot | ConvoyCreateFailed

  datatype Dispatched = Dispatched(convoyId: String, legBeads: map<String, String>, synthesisId: String, slingCount: nat)

  /** One more leg appends its commands and, when created, its map entry. */
  lemma LegStep(run: Run, world: World, convoyId: String, draw0: nat, i: nat)
    requires i < |run.f.legs|
    ensures LegsLog(run, world, convoyId, draw0, i + 1)
      == LegsLog(run, world, convoyId, draw0, i) + LegCommands(run, world, convoyId, draw0, i)
    ensures LegBeads(run, world, draw0, i + 1)
      == if Created(run, world, draw0, i) then LegBeads(run, world, draw0, i)[run.f.legs[i].id := LegBeadId(world, draw0 + i)]
         else LegBeads(run, world, draw0, i)
  {
  }

  /** The body of step 2 for leg `i`: draw its bead ID, create the bead and, when that succeeds, track it. */
  method CreateLeg(sh: Shell, run: Run, convoyId: String, ghost draw0: nat, i: nat) returns (created: bool, legBeadId: String)
    requires i < |run.f.legs| && sh.draws == draw0 + i
    modifies sh
    ensures created == Created(run, sh.world, draw0, i)
    ensures legBeadId == LegBeadId(sh.world, draw0 + i)
    ensures sh.log == old(sh.log) + LegCommands(run, sh.world, convoyId, draw0, i)
    ensures sh.draws == old(sh.draws) + 1
  {
    var leg := run.f.legs[i];
    legBeadId := sh.NewShortID();
    legBeadId := "hq-leg-" + legBeadId;
    var create := Create(TaskType, legBeadId, leg.title, LegDescription(run, leg));
    assert create == LegCreateAt(run, sh.world, draw0, i);
    created := sh.Run(create);
    if created {
      var _ := sh.Run(Track(convoyId, legBeadId));
    }
  }

  /** Step 2: create and track each leg's bead, remembering the created ones by leg ID. */
  method CreateLegs(sh: Shell, run: Run, convoyId: String) returns (legBeads: map<String, String>)
    modifies sh
    ensures sh.log == old(sh.log) + LegsLog(run, sh.world, convoyId, old(sh.draws), |run.f.legs|)
    ensures legBeads == LegBeads(run, sh.world, old(sh.draws), |run.f.legs|)
    ensures sh.draws == old(sh.draws) + |run.f.legs|
  {
    ghost var start := sh.log;
    ghost var draw0 := sh.draws;
    ghost var world := sh.world;
    legBeads := map[];
    for i := 0 to |run.f.legs|
      invariant sh.log == start + LegsLog(run, world, convoyId, draw0, i)
      invariant legBeads == LegBeads(run, world, draw0, i)
      invariant sh.draws == draw0 + i
    {
      LegStep(run, world, convoyId, draw0, i);
      ghost var done := LegsLog(run, world, convoyId, draw0, i);
      ghost var cmds := LegCommands(run, world, convoyId, draw0, i);
      var created, legBeadId := CreateLeg(sh, run, convoyId, draw0, i);
      assert sh.log == start + (done + cmds);
      legBeads := if created then legBeads[run.f.legs[i].id := legBeadId] else legBeads;
    }
  }

  /** The loop of step 3 over the leg map: one dependency per stored leg, in whatever order the map yields. */
  method AddDependencies(sh: Shell, synthesisId: String, legBeads: map<String, String>) returns (ghost deps: seq<Command>)
    modifies sh
    ensures sh.log == old(sh.log) + deps
    ensures DependsOnStoredLegs(deps, synthesisId, legBeads)
    ensures sh.draws == old(sh.draws)
  {
    ghost var start := sh.log;
    deps := [];
    ghost var order: seq<String> := [];
    var remaining := legBeads.Keys;
    while remaining != {}
      invariant remaining <= legBeads.Keys
      invariant sh.log == start + deps
      invariant sh.draws == old(sh.draws)
      invariant forall j :: 0 <= j < |order| ==> order[j] in legBeads && order[j] !in remaining
      invariant forall k :: k in legBeads && k !in remaining ==> k in order
      invariant forall i, j :: 0 <= i < j < |order| ==> order[i] != order[j]
      invariant deps == DependenciesOf(synthesisId, legBeads, order)
      decreases |remaining|
    {
      var k :| k in remaining;
      var _ := sh.Run(DependOn(synthesisId, legBeads[k]));
      deps := deps + [DependOn(synthesisId, legBeads[k])];
      order := order + [k];
      remaining := remaining - {k};
    }
    assert KeysOf(order) == legBeads.Keys;
    DependenciesOfBag(synthesisId, legBeads, order);
  }

  /** Step 3 after a successful creation: track the synthesis bead and make it depend on every stored leg bead. */
  method LinkSynthesis(sh: Shell, convoyId: String, synthesisId: String, legBeads: map<String, String>) returns (ghost deps: seq<Command>)
    modifies sh
    ensures sh.log == old(sh.log) + [Track(convoyId, synthesisId)] + deps
    ensures DependsOnStoredLegs(deps, synthesisId, legBeads)
    ensures sh.draws == old(sh.draws)
  {
    var _ := sh.Run(Track(convoyId, synthesisId));
    deps := AddDependencies(sh, synthesisId, legBeads);
  }

  /** Step 3: create the synthesis bead, track it and make it depend on every stored leg bead. */
  method CreateSynthesis(sh: Shell, run: Run, convoyId: String, legBeads: map<String, String>)
    returns (synthesisId: String, ghost deps: seq<Command>)
    modifies sh
    ensures synthesisId == SynthesisId(run, sh.world, old(sh.draws))
    ensures sh.draws == old(sh.draws) + (if run.f.synthesis.Some? then 1 else 0)
    ensures sh.log == old(sh.log) + SynthesisLog(run, sh.world, convoyId, synthesisId, deps)
    ensures SynthesisDeps(run, sh.world, synthesisId, legBeads, deps)
  {
    synthesisId, deps := [], [];
    if run.f.synthesis.None? {
      return;
    }
    var synthesis := run.f.synthesis.value;
    synthesisId := sh.NewShortID();
    synthesisId := "hq-syn-" + synthesisId;
    var synDesc := synthesis.description;
    if synDesc == [] {
      synDesc := DefaultSynthesisDescription;
    }
    var create := Create(TaskType, synthesisId, synthesis.title, synDesc);
    assert create == SynthesisCreate(synthesis, synthesisId);
    ghost var before := sh.log;
    var created := sh.Run(create);
    if !created {
      assert SynthesisLog(run, sh.world, convoyId, synthesisId, deps) == [create];
      return;
    }
    deps := LinkSynthesis(sh, convoyId, synthesisId, legBeads);
    assert SynthesisLog(run, sh.world, convoyId, synthesisId, deps) == [create, Track(convoyId, synthesisId)] + deps;
    assert sh.log == before + [create] + [Track(convoyId, synthesisId)] + deps;
  }

  /** Step 4: sling every stored leg, in leg order; a failed sling gets a comment on its bead. */
  method DispatchLegs(sh: Shell, run: Run, legBeads: map<String, String>) returns (slingCount: nat)
    modifies sh
    ensures sh.log == old(sh.log) + DispatchLog(run, sh.world, legBeads, |run.f.legs|)
    ensures slingCount == SlingCount(run, sh.world, legBeads, |run.f.legs|)
    ensures sh.draws == old(sh.draws)
  {
    ghost var start := sh.log;
    slingCount := 0;
    for i := 0 to |run.f.legs|
      invariant sh.log == start + DispatchLog(run, sh.world, legBeads, i)
      invariant slingCount == SlingCount(run, sh.world, legBeads, i)
      invariant sh.draws == old(sh.draws)
    {
      var leg := run.f.legs[i];
      if leg.id !in legBeads {
        continue;
      }
      var legBeadId := legBeads[leg.id];
      var slung := sh.Run(Sling(legBeadId, run.targetRig, leg.description, leg.title));
      if !slung {
        var _ := sh.Run(Comment(legBeadId));
        continue;
      }
      slingCount := slingCount + 1;
    }
  }

  /** The file system after the output directory is created, when one is configured; a failure leaves it unchanged. */
  function OutputDirCreated(d: Disk, run: Run): Disk {
    if run.f.output.Some? && run.f.output.value.directory != [] && CanMkdir(d, run.outputDir) then MadeDir(d, run.outputDir)
    else d
  }

  /**
   * What steps 2 to 4 leave behind, starting from draw `d0`, when the
   * synthesis dependencies were added as `deps`: the output directory made
   * when one is configured, the leg, synthesis and dispatch commands appended
   * to the log in that order, and the stored leg map, synthesis ID and sling
   * count reported.
   */
  ghost predicate LaunchedVia(run: Run, world: World, convoyId: String, d0: nat, before: seq<Command>, after: seq<Command>,
                              diskBefore: Disk, diskAfter: Disk, d: Dispatched, deps: seq<Command>)
  {
    var n := |run.f.legs|;
    var beads := LegBeads(run, world, d0, n);
    var synthesisId := SynthesisId(run, world, d0 + n);
    && d == Dispatched(convoyId, beads, synthesisId, SlingCount(run, world, beads, n))
    && diskAfter == OutputDirCreated(diskBefore, run)
    && SynthesisDeps(run, world, synthesisId, beads, deps)
    && after == before + LegsLog(run, world, convoyId, d0, n) + SynthesisLog(run, world, convoyId, synthesisId, deps)
                + DispatchLog(run, world, beads, n)
  }

  /** What steps 2 to 4 leave behind, whatever order the synthesis dependencies were added in. */
  ghost predicate Launched(run: Run, world: World, convoyId: String, d0: nat, before: seq<Command>, after: seq<Command>,
                           diskBefore: Disk, diskAfter: Disk, d: Dispatched)
  {
    exists deps :: LaunchedVia(run, world, convoyId, d0, before, after, diskBefore, diskAfter, d, deps)
  }

  /** What steps 2 and 3 leave behind, starting from draw `d0`. */
  ghost predicate BeadsCreated(run: Run, world: World, convoyId: String, d0: nat, before: seq<Command>, after: seq<Command>,
                               legBeads: map<String, String>, synthesisId: String, deps: seq<Command>)
  {
    && legBeads == LegBeads(run, world, d0, |run.f.legs|)
    && synthesisId == SynthesisId(run, world, d0 + |run.f.legs|)
    && SynthesisDeps(run, world, synthesisId, legBeads, deps)
    && after == before + LegsLog(run, world, convoyId, d0, |run.f.legs|) + SynthesisLog(run, world, convoyId, synthesisId, deps)
  }

  /** Steps 2 and 3: the leg beads, then the synthesis bead. */
  method CreateBeads(sh: Shell, run: Run, convoyId: String) returns (legBeads: map<String, String>, synthesisId: String, ghost deps: seq<Command>)
    modifies sh
    ensures BeadsCreated(run, sh.world, convoyId, old(sh.draws), old(sh.log), sh.log, legBeads, synthesisId, deps)
    ensures sh.draws == old(sh.draws) + |run.f.legs| + (if run.f.synthesis.Some? then 1 else 0)
  {
    legBeads := CreateLegs(sh, run, convoyId);
    synthesisId, deps := CreateSynthesis(sh, run, convoyId, legBeads);
  }

  /** Steps 2 and 3 followed by the dispatch make up `LaunchedVia`. */
  lemma LaunchedFromSteps(run: Run, world: World, convoyId: String, d0: nat, before: seq<Command>, mid: seq<Command>,
                          after: seq<Command>, diskBefore: Disk, diskAfter: Disk, d: Dispatched, deps: seq<Command>)
    requires BeadsCreated(run, world, convoyId, d0, before, mid, d.legBeads, d.synthesisId, deps)
    requires d.convoyId == convoyId && d.slingCount == SlingCount(run, world, d.legBeads, |run.f.legs|)
    requires after == mid + DispatchLog(run, world, d.legBeads, |run.f.legs|)
    requires diskAfter == OutputDirCreated(diskBefore, run)
    ensures LaunchedVia(run, world, convoyId, d0, before, after, diskBefore, diskAfter, d, deps)
  {
  }

  /** Everything after the convoy bead exists: the output directory, then steps 2 to 4. */
  method LaunchConvoy(sh: Shell, fs: FileSystem, run: Run, convoyId: String) returns (d: Dispatched, ghost deps: seq<Command>)
    modifies sh, fs
    ensures LaunchedVia(run, sh.world, convoyId, old(sh.draws), old(sh.log), sh.log, old(fs.disk), fs.disk, d, deps)
  {
    ghost var d0, before, diskBefore := sh.draws, sh.log, fs.disk;
    if run.f.output.Some? && run.f.output.value.directory != [] {
      var _ := fs.MkdirAll(run.outputDir);
    }
    var legBeads, synthesisId;
    legBeads, synthesisId, deps := CreateBeads(sh, run, convoyId);
    ghost var mid := sh.log;
    var slingCount := DispatchLegs(sh, run, legBeads);
    d := Dispatched(convoyId, legBeads, synthesisId, slingCount);
    LaunchedFromSteps(run, sh.world, convoyId, d0, before, mid, sh.log, diskBefore, fs.disk, d, deps);
  }

  /** The review ID, the pull request's details and the output directory the legs are built with. */
  method PrepareRun(sh: Shell, f: Formula, formulaName: String, targetRig: String, pr: int,
                    titleOut: Option<String>, filesOut: Option<String>, engine: Engine) returns (run: Run)
    modifies sh
    ensures run == MakeRun(f, formulaName, targetRig, pr, sh.world.ids(old(sh.draws)), titleOut, filesOut, engine)
    ensures sh.draws == old(sh.draws) + 1 && sh.log == old(sh.log)
  {
    var reviewId := sh.NewShortID();
    var prTitle, changedFiles := [], [];
    if pr > 0 {
      prTitle, changedFiles := FetchPRInfo(titleOut, filesOut);
    }
    var outputDir := OutputDirectory(engine, f, formulaName, reviewId);
    run := Run(f, formulaName, targetRig, pr, reviewId, prTitle, changedFiles, outputDir, engine);
  }

  /**
   * `executeConvoyFormula`. Without a town root nothing happens; a failed
   * convoy creation ends the run before any leg; otherwise the legs, the
   * synthesis and the dispatch follow in that order.
   */
  method ExecuteConvoyFormula(sh: Shell, fs: FileSystem, f: Formula, formulaName: String, targetRig: String, pr: int,
                              townRoot: Option<Path>, titleOut: Option<String>, filesOut: Option<String>, engine: Engine)
    returns (r: Result<Dispatched, ConvoyError>)
    modifies sh, fs
    ensures townRoot.None? ==>
      r == Err(NoTownRoot) && sh.log == old(sh.log) && sh.draws == old(sh.draws) && fs.disk == old(fs.disk)
    ensures townRoot.Some? ==>
      var d0 := old(sh.draws);
      var convoyId := ConvoyId(sh.world, d0);
      var run := MakeRun(f, formulaName, targetRig, pr, sh.world.ids(d0 + 1), titleOut, filesOut, engine);
      var create := ConvoyCreate(f, formulaName, targetRig, pr, convoyId);
      && (!sh.world.succeeds(create) ==>
            r == Err(ConvoyCreateFailed) && sh.log == old(sh.log) + [create] && fs.disk == old(fs.disk))
      && (sh.world.succeeds(create) ==>
            r.Ok? && Launched(run, sh.world, convoyId, d0 + 2, old(sh.log) + [create], sh.log, old(fs.disk), fs.disk, r.value))
  {
    if townRoot.None? {
      return Err(NoTownRoot);
    }
    ghost var d0 := sh.draws;
    var convoyId := sh.NewShortID();
    convoyId := "hq-cv-" + convoyId;
    var created := sh.Run(ConvoyCreate(f, formulaName, targetRig, pr, convoyId));
    if !created {
      return Err(ConvoyCreateFailed);
    }
    var run := PrepareRun(sh, f, formulaName, targetRig, pr, titleOut, filesOut, engine);
    var dispatched, deps := LaunchConvoy(sh, fs, run, convoyId);
    r := Ok(dispatched);
  }
}
