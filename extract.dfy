/**
 * The tolerant formula reader of `gt formula`: a handful of marker-based
 * field extractors over the text of a `.formula.toml` file. None of them is
 * a TOML parser; each returns a default value instead of failing.
 */
module Extract {
  import opened Outcome
  import opened Text
  import opened Disk
  import opened Embed

  /** One `[[legs]]` entry of a convoy formula. */
  datatype Leg = Leg(id: String, title: String, focus: String, description: String)

  /** The `[synthesis]` section. */
  datatype Synthesis = Synthesis(title: String, description: String, dependsOn: seq<String>)

  /** The `[output]` section. */
  datatype Output = Output(directory: String, legPattern: String, synthesis: String)

  /** What the reader recovers from a formula file. */
  datatype Formula = Formula(
    name: String,
    description: String,
    formulaType: String,
    legs: seq<Leg>,
    synthesis: Option<Synthesis>,
    prompts: map<String, String>,
    output: Option<Output>)

  const Quotes: set<char> := {'"', '\''}
  const Brackets: set<char> := {'[', ']'}
  const TripleQuote: String := "\"\"\""

  /** The two line openings that introduce `key`: `key =` and `key=`. */
  function KeyPrefixes(key: String): seq<String> {
    [key + " =", key + "="]
  }

  /** Drops the first and the last character of a value that opens with a quote, whatever the last one is. */
  function Unquote(v: String): String {
    if |v| >= 2 && v[0] in Quotes then v[1..|v| - 1] else v
  }

  /** The trimmed text after the first `=` of a line, unquoted. */
  function LineValue(line: String): String {
    var eq := Index(line, "=");
    if eq == -1 then "" else Unquote(TrimSpace(line[eq + 1..]))
  }

  /**
   * `extractTOMLValue`: the value on the first line whose trimmed text
   * starts with `key =` or `key=`, or "" when there is no such line.
   */
  function ExtractTOMLValue(content: String, key: String): (r: String)
    ensures r != "" ==> exists i :: 0 <= i < |Lines(content)| && StartsWithAny(TrimSpace(Lines(content)[i]), KeyPrefixes(key))
  {
    var lines := Lines(content);
    var i := FirstKeyLine(lines, KeyPrefixes(key), 0);
    if i == -1 then "" else LineValue(TrimSpace(lines[i]))
  }

  /** A key as the formula files write them: non-empty, on one line, without `=` and not opening with white space. */
  predicate PlainKey(key: String) {
    key != [] && key[0] !in Whitespace && '=' !in key && '\n' !in key
  }

  /** A right-hand side on one line with no white space at either end. */
  predicate PlainValue(v: String) {
    v != [] && '\n' !in v && v[0] !in Whitespace && v[|v| - 1] !in Whitespace
  }

  /** The line `key = v`. */
  function Assignment(key: String, v: String): String {
    key + " = " + v
  }

  /** A line `key = v` read back gives `v`, unquoted. */
  lemma {:induction false} ValueOfFirstLine(key: String, v: String, rest: String)
    requires PlainKey(key) && PlainValue(v)
    ensures ExtractTOMLValue(Assignment(key, v) + Newline + rest, key) == Unquote(v)
  {
    var line := Assignment(key, v);
    AssignmentFirstKeyLine(key, v, rest);
    ValueOnKeyLine(line + Newline + rest, key, 0);
    AssignmentTrimmed(key, v);
    AssignmentLineValue(key, v);
  }

  /** When line `i` is the first to introduce `key`, the value is read from that line. */
  lemma ValueOnKeyLine(content: String, key: String, i: nat)
    requires i < |Lines(content)| && FirstKeyLine(Lines(content), KeyPrefixes(key), 0) == i
    ensures ExtractTOMLValue(content, key) == LineValue(TrimSpace(Lines(content)[i]))
  {
  }

  /** The line `key = v` has no white space at either end. */
  lemma AssignmentTrimmed(key: String, v: String)
    requires PlainKey(key) && PlainValue(v)
    ensures TrimSpace(Assignment(key, v)) == Assignment(key, v)
  {
    var line := Assignment(key, v);
    assert line[0] == key[0];
    assert line[|line| - 1] == v[|v| - 1];
    TrimUnchanged(line, Whitespace);
  }

  /** The line `key = v`, first in a text, is the line that introduces `key`. */
  lemma AssignmentFirstKeyLine(key: String, v: String, rest: String)
    requires PlainKey(key) && PlainValue(v)
    ensures Lines(Assignment(key, v) + Newline + rest)[0] == Assignment(key, v)
    ensures FirstKeyLine(Lines(Assignment(key, v) + Newline + rest), KeyPrefixes(key), 0) == 0
  {
    var line := Assignment(key, v);
    assert line[..|key| + 2] == key + " =";
    assert '\n' !in line;
    LinesCons(line, rest);
    var lines := Lines(line + Newline + rest);
    TrimUnchanged(line, Whitespace);
    assert HasPrefix(line, KeyPrefixes(key)[0]);
    assert StartsWithAny(TrimSpace(lines[0]), KeyPrefixes(key));
  }

  /** The value after the `=` of `key = v` is `v`, unquoted. */
  lemma AssignmentLineValue(key: String, v: String)
    requires PlainKey(key) && PlainValue(v)
    ensures LineValue(Assignment(key, v)) == Unquote(v)
  {
    var line := Assignment(key, v);
    AssignmentEquals(key, v);
    assert line[|key| + 2..] == " " + v;
    SpacedValueTrimmed(v);
  }

  /** The first `=` of `key = v` is the one after the key. */
  lemma AssignmentEquals(key: String, v: String)
    requires PlainKey(key)
    ensures Index(Assignment(key, v), "=") == |key| + 1
  {
    var line := Assignment(key, v);
    assert line[|key| + 1..|key| + 2] == "=";
    assert OccursAt(line, "=", |key| + 1);
    var eq := Index(line, "=");
    assert eq != -1 && eq <= |key| + 1;
    assert line[eq] == '=';
  }

  /** A plain value after a space trims to itself. */
  lemma SpacedValueTrimmed(v: String)
    requires PlainValue(v)
    ensures TrimSpace(" " + v) == v
  {
    assert TrimLeft(" " + v, Whitespace) == TrimLeft(v, Whitespace);
    TrimUnchanged(v, Whitespace);
  }

  /** `key = "s"` and `key = 's'` give `s`. */
  lemma ValueQuoted(key: String, q: char, s: String, rest: String)
    requires PlainKey(key) && q in Quotes && '\n' !in s
    ensures ExtractTOMLValue(Assignment(key, [q] + s + [q]) + Newline + rest, key) == s
  {
    var v := [q] + s + [q];
    assert '\n' !in v;
    ValueOfFirstLine(key, v, rest);
    assert v[1..|v| - 1] == s;
  }

  /** An unquoted value comes back as written. */
  lemma ValueBare(key: String, v: String, rest: String)
    requires PlainKey(key) && PlainValue(v) && v[0] !in Quotes
    ensures ExtractTOMLValue(Assignment(key, v) + Newline + rest, key) == v
  {
    ValueOfFirstLine(key, v, rest);
  }

  /** A value that opens a quote it never closes loses its last character. */
  lemma ValueUnclosedQuote(key: String, s: String, rest: String)
    requires PlainKey(key) && PlainValue(s)
    ensures ExtractTOMLValue(Assignment(key, "\"" + s) + Newline + rest, key) == s[..|s| - 1]
  {
    var v := "\"" + s;
    OpenQuote(s);
    ValueOfFirstLine(key, v, rest);
  }

  lemma OpenQuote(s: String)
    requires PlainValue(s)
    ensures PlainValue("\"" + s) && Unquote("\"" + s) == s[..|s| - 1]
  {
    var v := "\"" + s;
    assert v[0] == '"' && v[|v| - 1] == s[|s| - 1];
    assert v[1..|v| - 1] == s[..|s| - 1];
  }

  /** A line that does not introduce `key` is skipped: only the first `key` line counts. */
  lemma ValueSkipsLine(line: String, rest: String, key: String)
    requires '\n' !in line && !StartsWithAny(TrimSpace(line), KeyPrefixes(key))
    ensures ExtractTOMLValue(line + Newline + rest, key) == ExtractTOMLValue(rest, key)
  {
    LinesCons(line, rest);
    var all := Lines(line + Newline + rest);
    var tail := Lines(rest);
    assert all == [line] + tail;
    var ps := KeyPrefixes(key);
    var r1 := FirstKeyLine(all, ps, 0);
    var r2 := FirstKeyLine(tail, ps, 0);
    assert r1 != 0;
    if r2 == -1 {
      if r1 != -1 {
        assert false;
      }
    } else {
      assert all[r2 + 1] == tail[r2];
      if r1 == -1 {
        assert false;
      } else {
        assert all[r1] == tail[r1 - 1];
        assert r1 == r2 + 1;
      }
    }
  }

  /** The opening of a multi-line value: `key = """`. */
  function MultilineOpening(key: String): String {
    key + " = " + TripleQuote
  }

  /**
   * `extractTOMLMultiline`: the trimmed text between the first `key = """`
   * anywhere in `content` and the next `"""`; "" when that closing is
   * missing; the single-line value when the opening is missing.
   */
  function ExtractTOMLMultiline(content: String, key: String): (r: String)
    ensures !Contains(content, MultilineOpening(key)) ==> r == ExtractTOMLValue(content, key)
    ensures Contains(content, MultilineOpening(key)) ==> r == [] || (r[0] !in Whitespace && r[|r| - 1] !in Whitespace)
  {
    var pattern := MultilineOpening(key);
    var idx := Index(content, pattern);
    if idx == -1 then ExtractTOMLValue(content, key)
    else ClosedText(content[idx + |pattern|..])
  }

  /** The trimmed text before the first `"""`, or "" when there is none. */
  function ClosedText(tail: String): (r: String)
    ensures r == [] || (r[0] !in Whitespace && r[|r| - 1] !in Whitespace)
    ensures !Contains(tail, TripleQuote) ==> r == []
  {
    var end := Index(tail, TripleQuote);
    if end == -1 then "" else TrimSpace(tail[..end])
  }

  /** The value of a multi-line key is read from the text right after its first opening. */
  lemma MultilineAfterOpening(pre: String, key: String, tail: String)
    requires !Contains(pre + MultilineOpening(key)[..|MultilineOpening(key)| - 1], MultilineOpening(key))
    ensures ExtractTOMLMultiline(pre + MultilineOpening(key) + tail, key) == ClosedText(tail)
  {
    var pattern := MultilineOpening(key);
    IndexAfter(pre, pattern, tail);
    assert (pre + pattern + tail)[|pre| + |pattern|..] == tail;
  }

  /** A trimmed body without closing quotes is read back whole. */
  lemma ClosedTextOf(body: String, rest: String)
    requires !Contains(body + TripleQuote[..2], TripleQuote)
    requires body == [] || (body[0] !in Whitespace && body[|body| - 1] !in Whitespace)
    ensures ClosedText(body + TripleQuote + rest) == body
  {
    IndexAfter(body, TripleQuote, rest);
    assert (body + TripleQuote + rest)[..|body|] == body;
    TrimUnchanged(body, Whitespace);
  }

  /** An opened multi-line value that is never closed reads as "". */
  lemma MultilineUnclosed(pre: String, key: String, tail: String)
    requires !Contains(pre + MultilineOpening(key)[..|MultilineOpening(key)| - 1], MultilineOpening(key))
    requires !Contains(tail, TripleQuote)
    ensures ExtractTOMLMultiline(pre + MultilineOpening(key) + tail, key) == ""
  {
    MultilineAfterOpening(pre, key, tail);
  }

  /** `key = """body"""` read back gives the body, when it is trimmed and holds no closing quotes. */
  lemma MultilineRoundTrip(pre: String, key: String, body: String, rest: String)
    requires !Contains(pre + MultilineOpening(key)[..|MultilineOpening(key)| - 1], MultilineOpening(key))
    requires !Contains(body + TripleQuote[..2], TripleQuote)
    requires body == [] || (body[0] !in Whitespace && body[|body| - 1] !in Whitespace)
    ensures ExtractTOMLMultiline(pre + MultilineOpening(key) + (body + TripleQuote + rest), key) == body
  {
    MultilineAfterOpening(pre, key, body + TripleQuote + rest);
    ClosedTextOf(body, rest);
  }

  /**
   * The text of a section that starts `section`: up to, and not including,
   * the first newline after its first character that is followed by `[`.
   */
  function SectionText(section: String): (r: String)
    requires section != []
    ensures r != [] && HasPrefix(section, r)
    ensures !Contains(r[1..], "\n[")
    ensures r == section || HasPrefix(section[|r|..], "\n[")
    ensures r == section || section[|r|] == '\n'
  {
    var end := Index(section[1..], "\n[");
    if end == -1 then section
    else
      var r := section[..end + 1];
      assert r[1..] == section[1..][..end];
      assert section[|r|..] == section[1..][end..];
      assert section[1..][end..][..2] == "\n[";
      assert !Contains(r[1..], "\n[") by {
        forall k: nat | k + 2 <= |r[1..]|
          ensures !OccursAt(r[1..], "\n[", k)
        {
          assert section[1..][k..k + 2] == r[1..][k..k + 2];
          assert !OccursAt(section[1..], "\n[", k);
        }
      }
      r
  }

  /** A section: from the first `header` in `content` to the next line that opens with `[`. */
  function Section(content: String, header: String): (r: Option<String>)
    requires header != []
    ensures r.None? <==> !Contains(content, header)
    ensures r.Some? ==> var i := Index(content, header);
      HasPrefix(content[i..], r.value) && r.value != [] && !Contains(r.value[1..], "\n[") &&
      (i + |r.value| == |content| || HasPrefix(content[i + |r.value|..], "\n["))
  {
    var idx := Index(content, header);
    if idx == -1 then None
    else
      var r := SectionText(content[idx..]);
      assert content[idx..][|r|..] == content[idx + |r|..];
      Some(r)
  }

  /** A section opens with its header when the header is on one line. */
  lemma SectionHeader(content: String, header: String)
    requires header != [] && '\n' !in header && Contains(content, header)
    ensures HasPrefix(Section(content, header).value, header)
  {
    var idx := Index(content, header);
    var section := content[idx..];
    var r := Section(content, header).value;
    assert section[..|header|] == header;
    if r != section && |r| < |header| {
      assert false;
    }
    assert r[..|header|] == section[..|header|];
  }

  /** A non-empty item that neither opens nor closes with a quote. */
  predicate Unquoted(x: String) {
    x != [] && x[0] !in Quotes && x[|x| - 1] !in Quotes
  }

  /** One `depends_on` item: white space, then quotes, trimmed away. */
  function CleanItem(item: String): (r: String)
    ensures r == [] || Unquoted(r)
  {
    Trim(TrimSpace(item), Quotes)
  }

  /** The non-empty strings of `xs`, in order. */
  function NonEmpty(xs: seq<String>): (r: seq<String>)
    ensures |r| <= |xs|
    ensures forall k :: 0 <= k < |r| ==> r[k] != []
    decreases |xs|
  {
    if xs == [] then []
    else
      var init := NonEmpty(xs[..|xs| - 1]);
      if xs[|xs| - 1] == [] then init else init + [xs[|xs| - 1]]
  }

  /** `NonEmpty` keeps exactly the non-empty strings. */
  lemma {:induction false} NonEmptyMembers(xs: seq<String>, x: String)
    ensures x in NonEmpty(xs) <==> x in xs && x != []
    decreases |xs|
  {
    if xs != [] {
      var init := xs[..|xs| - 1];
      NonEmptyMembers(init, x);
      assert xs == init + [xs[|xs| - 1]];
    }
  }

  /** Every item cleaned, in order. */
  function CleanAll(items: seq<String>): (r: seq<String>)
    ensures |r| == |items|
    ensures forall k :: 0 <= k < |r| ==> r[k] == [] || Unquoted(r[k])
  {
    seq(|items|, k requires 0 <= k < |items| => CleanItem(items[k]))
  }

  /** The cleaned comma-separated items, keeping the non-empty ones in order. */
  function CleanItems(items: seq<String>): (r: seq<String>)
    ensures |r| <= |items|
    ensures forall k :: 0 <= k < |r| ==> Unquoted(r[k])
  {
    var all := CleanAll(items);
    var r := NonEmpty(all);
    assert forall k :: 0 <= k < |r| ==> r[k] in all by {
      forall k | 0 <= k < |r|
        ensures r[k] in all
      {
        NonEmptyMembers(all, r[k]);
      }
    }
    r
  }

  /** The kept items are exactly the non-empty cleaned ones. */
  lemma CleanItemsMembers(items: seq<String>, x: String)
    ensures x in CleanItems(items) <==> x != [] && exists j :: 0 <= j < |items| && CleanAll(items)[j] == x
  {
    NonEmptyMembers(CleanAll(items), x);
  }

  /** The `depends_on` list: brackets trimmed, split at commas, items cleaned. */
  function DependsOn(line: String): seq<String> {
    if line == [] then [] else CleanItems(Split(Trim(line, Brackets), ","))
  }

  /**
   * `extractSynthesis`: nothing without a `[synthesis]` header or when the
   * section has neither a title nor a description; otherwise the section's
   * title, description and cleaned `depends_on` items.
   */
  function ExtractSynthesis(content: String): (r: Option<Synthesis>)
    ensures !Contains(content, "[synthesis]") ==> r.None?
    ensures Contains(content, "[synthesis]") ==> var section := Section(content, "[synthesis]").value;
      var title := ExtractTOMLValue(section, "title");
      var description := ExtractTOMLMultiline(section, "description");
      && (r.Some? <==> title != [] || description != [])
      && (r.Some? ==> r.value.title == title && r.value.description == description)
      && (r.Some? ==> r.value.dependsOn == DependsOn(ExtractTOMLValue(section, "depends_on")))
    ensures r.Some? ==> forall k :: 0 <= k < |r.value.dependsOn| ==> Unquoted(r.value.dependsOn[k])
  {
    match Section(content, "[synthesis]")
    case None => None
    case Some(section) =>
      var title := ExtractTOMLValue(section, "title");
      var description := ExtractTOMLMultiline(section, "description");
      var deps := DependsOn(ExtractTOMLValue(section, "depends_on"));
      if title == [] && description == [] then None
      else Some(Synthesis(title, description, deps))
  }

  /** `extractPrompts`: a map holding `base` exactly when the `[prompts]` section gives it a non-empty value. */
  function ExtractPrompts(content: String): (r: map<String, String>)
    ensures r.Keys <= {"base"}
    ensures "base" in r ==> r["base"] != []
    ensures "base" in r <==> Contains(content, "[prompts]") && ExtractTOMLMultiline(Section(content, "[prompts]").value, "base") != []
  {
    match Section(content, "[prompts]")
    case None => map[]
    case Some(section) =>
      var base := ExtractTOMLMultiline(section, "base");
      if base != [] then map["base" := base] else map[]
  }

  /** `extractOutput`: nothing without an `[output]` header or when all three fields are empty. */
  function ExtractOutput(content: String): (r: Option<Output>)
    ensures !Contains(content, "[output]") ==> r.None?
    ensures Contains(content, "[output]") ==> var section := Section(content, "[output]").value;
      var out := Output(
        ExtractTOMLValue(section, "directory"),
        ExtractTOMLValue(section, "leg_pattern"),
        ExtractTOMLValue(section, "synthesis"));
      && (r.Some? <==> out.directory != [] || out.legPattern != [] || out.synthesis != [])
      && (r.Some? ==> r.value == out)
  {
    match Section(content, "[output]")
    case None => None
    case Some(section) =>
      var out := Output(
        ExtractTOMLValue(section, "directory"),
        ExtractTOMLValue(section, "leg_pattern"),
        ExtractTOMLValue(section, "synthesis"));
      if out.directory == [] && out.legPattern == [] && out.synthesis == [] then None else Some(out)
  }

  const LegsMarker: String := "[[legs]]"

  /** A leg block ends at the next `[[`, not at the next `[`. */
  function LegBlock(section: String): (r: String)
    ensures HasPrefix(section, r) && !Contains(r, "[[")
    ensures r == section || HasPrefix(section[|r|..], "[[")
    ensures forall k :: 0 <= k < |r| ==> !OccursAt(section, "[[", k)
  {
    var end := Index(section, "[[");
    if end == -1 then section
    else
      var r := section[..end];
      assert !Contains(r, "[[") by {
        forall k: nat | k + 2 <= |r|
          ensures !OccursAt(r, "[[", k)
        {
          assert r[k..k + 2] == section[k..k + 2];
          assert !OccursAt(section, "[[", k);
        }
      }
      r
  }

  /** The leg a block describes; kept only when its id is non-empty. */
  function LegOf(block: String): Leg {
    Leg(
      ExtractTOMLValue(block, "id"),
      ExtractTOMLValue(block, "title"),
      ExtractTOMLValue(block, "focus"),
      ExtractTOMLMultiline(block, "description"))
  }

  /** The leg of every block, in order. */
  function BlockLegs(sections: seq<String>): (r: seq<Leg>)
    ensures |r| == |sections|
  {
    seq(|sections|, k requires 0 <= k < |sections| => LegOf(LegBlock(sections[k])))
  }

  /** The legs with a non-empty id, in order. */
  function WithId(legs: seq<Leg>): (r: seq<Leg>)
    ensures |r| <= |legs|
    ensures forall k :: 0 <= k < |r| ==> r[k].id != []
    decreases |legs|
  {
    if legs == [] then []
    else
      var init := WithId(legs[..|legs| - 1]);
      var leg := legs[|legs| - 1];
      if leg.id == [] then init else init + [leg]
  }

  /** `WithId` keeps exactly the legs that have an id. */
  lemma {:induction false} WithIdMembers(legs: seq<Leg>, leg: Leg)
    ensures leg in WithId(legs) <==> leg in legs && leg.id != []
    decreases |legs|
  {
    if legs != [] {
      var init := legs[..|legs| - 1];
      WithIdMembers(init, leg);
      assert legs == init + [legs[|legs| - 1]];
    }
  }

  /** Legs come out in the order of their blocks. */
  lemma {:induction false} WithIdAppend(a: seq<Leg>, b: seq<Leg>)
    ensures WithId(a + b) == WithId(a) + WithId(b)
    decreases |b|
  {
    if b == [] {
      assert a + b == a;
    } else {
      var init := b[..|b| - 1];
      assert (a + b)[..|a + b| - 1] == a + init;
      assert (a + b)[|a + b| - 1] == b[|b| - 1];
      WithIdAppend(a, init);
    }
  }

  /** Taking one more element of a sequence appends it. */
  lemma TakeNext<T>(xs: seq<T>, n: nat)
    requires n < |xs|
    ensures xs[..n + 1] == xs[..n] + [xs[n]]
  {
  }

  /** What `extractLegs` returns: the text before the first marker is not a leg. */
  function Legs(content: String): seq<Leg> {
    WithId(BlockLegs(Split(content, LegsMarker)[1..]))
  }

  /** `extractLegs`: one pass over the blocks, appending each leg with an id. */
  method ExtractLegs(content: String) returns (legs: seq<Leg>)
    ensures legs == Legs(content)
  {
    var sections := Split(content, LegsMarker);
    ghost var blocks := BlockLegs(sections[1..]);
    legs := [];
    var i := 1;
    while i < |sections|
      invariant 1 <= i <= |sections|
      invariant legs == WithId(blocks[..i - 1])
    {
      var leg := LegOf(LegBlock(sections[i]));
      assert sections[1..][i - 1] == sections[i];
      assert leg == blocks[i - 1];
      TakeNext(blocks, i - 1);
      WithIdAppend(blocks[..i - 1], [leg]);
      assert [leg][..0] == [];
      if leg.id != [] {
        legs := legs + [leg];
      }
      i := i + 1;
    }
    assert blocks[..i - 1] == blocks;
  }

  /** `parseFormulaContent`: every field is read independently; reading never fails. */
  function ParseFormulaContent(content: String): (f: Formula)
    ensures forall k :: 0 <= k < |f.legs| ==> f.legs[k].id != []
    ensures f.synthesis.Some? ==> Contains(content, "[synthesis]")
    ensures f.output.Some? ==> Contains(content, "[output]")
    ensures f.prompts != map[] ==> Contains(content, "[prompts]")
  {
    Formula(
      ExtractTOMLValue(content, "formula"),
      ExtractTOMLMultiline(content, "description"),
      ExtractTOMLValue(content, "type"),
      Legs(content),
      ExtractSynthesis(content),
      ExtractPrompts(content),
      ExtractOutput(content))
  }

  const EmbeddedMarker: String := "embedded:"

  datatype ParseError = EmbeddedUnreadable(name: String) | FileUnreadable(path: Path, error: IoError)

  /**
   * `parseFormulaFile`: a path `embedded:<name>` reads the embedded
   * formula, any other path the file; the bytes are then read as in
   * `parseFormulaContent`.
   */
  function ParseFormulaFile(d: Disk, emb: Embedded, path: Path): (r: Result<Formula, ParseError>)
    ensures HasPrefix(path, EmbeddedMarker) ==>
      (r.Ok? <==> EmbeddedFormulaExists(emb, path[|EmbeddedMarker|..]))
    ensures !HasPrefix(path, EmbeddedMarker) ==> (r.Ok? <==> ReadFile(d, path).Ok?)
  {
    if HasPrefix(path, EmbeddedMarker) then
      var name := TrimPrefix(path, EmbeddedMarker);
      match GetEmbeddedFormula(emb, name)
      case Ok(data) => Ok(ParseFormulaContent(data))
      case Err(_) => Err(EmbeddedUnreadable(name))
    else
      match ReadFile(d, path)
      case Ok(data) => Ok(ParseFormulaContent(data))
      case Err(e) => Err(FileUnreadable(path, e))
  }

  /** Reading a file and reading the embedded copy of the same bytes give the same formula. */
  lemma ParseSourcesAgree(d: Disk, emb: Embedded, path: Path, name: String)
    requires !HasPrefix(path, EmbeddedMarker)
    requires ReadFile(d, path).Ok? && GetEmbeddedFormula(emb, name) == Ok(ReadFile(d, path).value)
    ensures ParseFormulaFile(d, emb, EmbeddedMarker + name) == ParseFormulaFile(d, emb, path)
  {
    assert (EmbeddedMarker + name)[..|EmbeddedMarker|] == EmbeddedMarker;
    assert (EmbeddedMarker + name)[|EmbeddedMarker|..] == name;
  }
}
