/**
 * The reader's round trip: a formula document written out in the layout the
 * formula files use is read back by `parseFormulaContent` with its legs, in
 * order and by id and title, and its synthesis title and description.
 */
module RoundTrip {
  import opened Text
  import opened Extract

  /** One leg as a writer gives it. */
  datatype LegEntry = LegEntry(id: String, title: String)

  /** The parts of a convoy formula the round trip covers. */
  datatype Document = Document(synthesisTitle: String, synthesisDescription: String, legs: seq<LegEntry>)

  /** A one-line value the writer can put after `key = `: plain, unquoted, with no `"` and no `[`. */
  predicate WritableValue(v: String) {
    PlainValue(v) && v[0] !in Quotes && '"' !in v && '[' !in v
  }

  /** A multi-line body: trimmed, with no `"` and no `[`; it may span lines. */
  predicate WritableBody(b: String) {
    && (b == [] || (b[0] !in Whitespace && b[|b| - 1] !in Whitespace))
    && '"' !in b && '[' !in b
  }

  predicate Writable(doc: Document) {
    && WritableValue(doc.synthesisTitle)
    && WritableBody(doc.synthesisDescription)
    && forall k :: 0 <= k < |doc.legs| ==> WritableValue(doc.legs[k].id) && WritableValue(doc.legs[k].title)
  }

  const SynthesisHeader: String := "[synthesis]"

  /** The synthesis header and its title line. */
  function SynthesisHead(title: String): String {
    SynthesisHeader + Newline + (Assignment("title", title) + Newline)
  }

  /** The synthesis section up to the closing quotes of its description. */
  function SynthesisText(title: String, description: String): String {
    SynthesisHead(title) + MultilineOpening("description") + (description + TripleQuote)
  }

  /** The text of one leg after its `[[legs]]` marker: its id line and its title line. */
  function LegBody(leg: LegEntry): String {
    Newline + (Assignment("id", leg.id) + Newline + (Assignment("title", leg.title) + Newline))
  }

  /** Every leg behind its own marker, in order. */
  function LegsText(legs: seq<LegEntry>): String
    decreases |legs|
  {
    if legs == [] then [] else LegsMarker + LegBody(legs[0]) + LegsText(legs[1..])
  }

  /** The document as a formula file: the synthesis section first, then the legs. */
  function Serialize(doc: Document): String {
    SynthesisText(doc.synthesisTitle, doc.synthesisDescription) + Newline + LegsText(doc.legs)
  }

  /** The body of each leg, in order. */
  function LegBodies(legs: seq<LegEntry>): (r: seq<String>)
    ensures |r| == |legs|
    ensures forall k :: 0 <= k < |legs| ==> r[k] == LegBody(legs[k])
  {
    seq(|legs|, k requires 0 <= k < |legs| => LegBody(legs[k]))
  }

  // ---------------------------------------------------------------------
  // The round trip
  // ---------------------------------------------------------------------

  /**
   * Reading back a written document gives its legs, in order, with their
   * ids and titles, and its synthesis with its title and description.
   */
  lemma ParseSerialized(doc: Document)
    requires Writable(doc)
    ensures var f := ParseFormulaContent(Serialize(doc));
      && |f.legs| == |doc.legs|
      && (forall k :: 0 <= k < |doc.legs| ==> f.legs[k].id == doc.legs[k].id && f.legs[k].title == doc.legs[k].title)
      && f.synthesis.Some?
      && f.synthesis.value.title == doc.synthesisTitle
      && f.synthesis.value.description == doc.synthesisDescription
  {
    LegsRoundTrip(doc);
    SynthesisRoundTrip(doc);
  }

  // ---------------------------------------------------------------------
  // The legs
  // ---------------------------------------------------------------------

  /** Every `[` of `x` is followed by a character other than `[`. */
  predicate NoDoubleOpen(x: String) {
    forall k :: 0 <= k < |x| && x[k] == '[' ==> k + 1 < |x| && x[k + 1] != '['
  }

  /** Text with no double opening bracket does not contain the legs marker, even with most of it appended. */
  lemma NoMarkerBefore(x: String)
    requires NoDoubleOpen(x)
    ensures !Contains(x + LegsMarker[..|LegsMarker| - 1], LegsMarker)
    ensures !Contains(x, LegsMarker)
  {
    var s := x + LegsMarker[..|LegsMarker| - 1];
    forall k: nat
      ensures !OccursAt(s, LegsMarker, k)
    {
      if k + |LegsMarker| <= |s| {
        assert s[k..k + |LegsMarker|][0] == s[k] && s[k..k + |LegsMarker|][1] == s[k + 1];
        assert s[k] == x[k];
        if x[k] == '[' {
          assert s[k + 1] == x[k + 1];
        }
      }
    }
    forall k: nat
      ensures !OccursAt(x, LegsMarker, k)
    {
      if k + |LegsMarker| <= |x| {
        assert x[k..k + |LegsMarker|][0] == x[k] && x[k..k + |LegsMarker|][1] == x[k + 1];
      }
    }
  }

  /** Text without `[` has no double opening bracket. */
  lemma NoBracketNoDouble(x: String)
    requires '[' !in x
    ensures NoDoubleOpen(x)
  {
  }

  /** A written leg body holds no `[`. */
  lemma LegBodyNoBracket(leg: LegEntry)
    requires WritableValue(leg.id) && WritableValue(leg.title)
    ensures '[' !in LegBody(leg)
  {
    assert '[' !in Assignment("id", leg.id);
    assert '[' !in Assignment("title", leg.title);
  }

  /** Splitting text followed by written legs at the marker gives that text, then each leg's body. */
  lemma {:induction false} SplitLegs(x: String, legs: seq<LegEntry>)
    requires NoDoubleOpen(x)
    requires forall k :: 0 <= k < |legs| ==> WritableValue(legs[k].id) && WritableValue(legs[k].title)
    ensures Split(x + LegsText(legs), LegsMarker) == [x] + LegBodies(legs)
    decreases |legs|
  {
    if legs == [] {
      assert x + LegsText(legs) == x;
      assert LegBodies(legs) == [];
      NoMarkerBefore(x);
    } else {
      var body, rest := LegBody(legs[0]), legs[1..];
      LegsTextCons(x, legs);
      LegBodyNoBracket(legs[0]);
      NoBracketNoDouble(body);
      SplitLegs(body, rest);
      SplitBeforeMarker(x, body + LegsText(rest), [body] + LegBodies(rest));
      SeqCons(LegBodies(legs), body, LegBodies(rest));
    }
  }

  /** Text followed by legs: the text, the first marker, the first body, then the other legs. */
  lemma LegsTextCons(x: String, legs: seq<LegEntry>)
    requires legs != []
    ensures x + LegsText(legs) == x + LegsMarker + (LegBody(legs[0]) + LegsText(legs[1..]))
  {
    AppendAssoc(LegsMarker, LegBody(legs[0]), LegsText(legs[1..]));
    AppendAssoc(x, LegsMarker, LegBody(legs[0]) + LegsText(legs[1..]));
  }

  /** Text with no double opening bracket, a marker and more text splits into that text, then the pieces of the rest. */
  lemma SplitBeforeMarker(x: String, after: String, pieces: seq<String>)
    requires NoDoubleOpen(x) && Split(after, LegsMarker) == pieces
    ensures Split(x + LegsMarker + after, LegsMarker) == [x] + pieces
  {
    NoMarkerBefore(x);
    SplitAtFirst(x, LegsMarker, after);
  }

  /** A key line the key `title` does not introduce. */
  lemma IdLineNotTitle(id: String)
    requires PlainValue(id)
    ensures !StartsWithAny(TrimSpace(Assignment("id", id)), KeyPrefixes("title"))
  {
    KeyLineNotTitle("id", id);
  }

  /** A key line for a key that does not begin with `t` introduces no title. */
  lemma KeyLineNotTitle(key: String, v: String)
    requires PlainKey(key) && PlainValue(v) && key[0] != 't'
    ensures !StartsWithAny(TrimSpace(Assignment(key, v)), KeyPrefixes("title"))
  {
    var line := Assignment(key, v);
    assert line[0] == key[0];
    LineNotTitle(line);
    AssignmentTrimmed(key, v);
  }

  /** A line whose first character is not `t` introduces no title. */
  lemma LineNotTitle(line: String)
    requires line != [] && line[0] != 't'
    ensures !StartsWithAny(line, KeyPrefixes("title"))
  {
    var prefixes := KeyPrefixes("title");
    assert prefixes[0][0] == 't' && prefixes[1][0] == 't';
    forall k | 0 <= k < |prefixes|
      ensures !HasPrefix(line, prefixes[k])
    {
      NotPrefixAt(line, prefixes[k], 0);
    }
  }

  /** The empty line introduces no key. */
  lemma EmptyLineNoKey(key: String)
    requires key != []
    ensures !StartsWithAny(TrimSpace([]), KeyPrefixes(key))
  {
    var prefixes := KeyPrefixes(key);
    forall k | 0 <= k < |prefixes|
      ensures !HasPrefix([], prefixes[k])
    {
      assert |prefixes[k]| > 0;
    }
    assert !StartsWithAny([], prefixes);
    TrimUnchanged([], Whitespace);
  }

  /** A written leg body is read back as a leg with the same id and title. */
  lemma LegBodyRead(leg: LegEntry)
    requires WritableValue(leg.id) && WritableValue(leg.title)
    ensures LegBlock(LegBody(leg)) == LegBody(leg)
    ensures LegOf(LegBody(leg)).id == leg.id && LegOf(LegBody(leg)).title == leg.title
  {
    var body := LegBody(leg);
    LegBodyNoBracket(leg);
    NotContainsChar(body, "[[", '[');
    LegIdRead(leg);
    LegTitleRead(leg);
  }

  /** The id of a written leg body is read back. */
  lemma LegIdRead(leg: LegEntry)
    requires WritableValue(leg.id) && WritableValue(leg.title)
    ensures ExtractTOMLValue(LegBody(leg), "id") == leg.id
  {
    KeysPlain();
    var titleLine := Assignment("title", leg.title) + Newline;
    var afterBlank := Assignment("id", leg.id) + Newline + titleLine;
    assert LegBody(leg) == [] + Newline + afterBlank;
    EmptyLineNoKey("id");
    ValueSkipsLine([], afterBlank, "id");
    ValueBare("id", leg.id, titleLine);
  }

  /** The title of a written leg body is read back, past the blank line. */
  lemma LegTitleRead(leg: LegEntry)
    requires WritableValue(leg.id) && WritableValue(leg.title)
    ensures ExtractTOMLValue(LegBody(leg), "title") == leg.title
  {
    var afterBlank := Assignment("id", leg.id) + Newline + (Assignment("title", leg.title) + Newline);
    assert LegBody(leg) == [] + Newline + afterBlank;
    EmptyLineNoKey("title");
    ValueSkipsLine([], afterBlank, "title");
    TitleAfterId(leg);
  }

  /** The title line after the id line is the one read. */
  lemma TitleAfterId(leg: LegEntry)
    requires WritableValue(leg.id) && WritableValue(leg.title)
    ensures ExtractTOMLValue(Assignment("id", leg.id) + Newline + (Assignment("title", leg.title) + Newline), "title") == leg.title
  {
    KeysPlain();
    var idLine := Assignment("id", leg.id);
    var titleLine := Assignment("title", leg.title) + Newline;
    assert '\n' !in idLine;
    IdLineNotTitle(leg.id);
    ValueSkipsLine(idLine, titleLine, "title");
    assert titleLine == Assignment("title", leg.title) + Newline + [];
    ValueBare("title", leg.title, []);
  }

  /** Legs that all have an id are all kept. */
  lemma {:induction false} WithIdKeepsAll(legs: seq<Leg>)
    requires forall k :: 0 <= k < |legs| ==> legs[k].id != []
    ensures WithId(legs) == legs
    decreases |legs|
  {
    if legs != [] {
      var init := legs[..|legs| - 1];
      WithIdKeepsAll(init);
      assert legs == init + [legs[|legs| - 1]];
    }
  }

  /** The synthesis section has no double opening bracket. */
  lemma SynthesisNoDouble(title: String, description: String)
    requires WritableValue(title) && WritableBody(description)
    ensures NoDoubleOpen(SynthesisText(title, description) + Newline)
  {
    var s := SynthesisText(title, description) + Newline;
    SynthesisBrackets(title, description);
    assert s[1] == 's';
  }

  /** The only `[` of the synthesis section is its first character. */
  lemma SynthesisBrackets(title: String, description: String)
    requires WritableValue(title) && WritableBody(description)
    ensures var s := SynthesisText(title, description);
      |s| > 1 && s[0] == '[' && s[1] == 's' && forall j :: 1 <= j < |s| ==> s[j] != '['
  {
    var s := SynthesisText(title, description);
    SynthesisOpens(title, description);
    forall j | 1 <= j < |s|
      ensures s[j] != '['
    {
      assert s[j] == s[1..][j - 1];
    }
  }

  /** The synthesis text opens with its header, and no `[` follows the first character. */
  lemma SynthesisOpens(title: String, description: String)
    requires WritableValue(title) && WritableBody(description)
    ensures var s := SynthesisText(title, description);
      |s| > 1 && s[0] == '[' && s[1] == 's' && '[' !in s[1..]
  {
    var head := SynthesisHead(title);
    var titleLine := Assignment("title", title) + Newline;
    var open := MultilineOpening("description");
    assert '[' !in titleLine;
    assert '[' !in open;
    assert '[' !in SynthesisHeader[1..];
    DropFirst(SynthesisHeader, Newline);
    DropFirst(SynthesisHeader + Newline, titleLine);
    DropFirst(head, open);
    DropFirst(head + open, description + TripleQuote);
  }

  /** The legs read back are the written ones, by id and title, in order. */
  lemma LegsRoundTrip(doc: Document)
    requires Writable(doc)
    ensures var legs := Legs(Serialize(doc));
      && |legs| == |doc.legs|
      && forall k :: 0 <= k < |doc.legs| ==> legs[k].id == doc.legs[k].id && legs[k].title == doc.legs[k].title
  {
    var blocks := BlockLegs(LegBodies(doc.legs));
    LegPieces(doc);
    assert Legs(Serialize(doc)) == WithId(blocks);
    BlocksRead(doc.legs);
    WithIdKeepsAll(blocks);
  }

  /** After the synthesis section, the pieces between the markers are the legs' bodies. */
  lemma LegPieces(doc: Document)
    requires Writable(doc)
    ensures Split(Serialize(doc), LegsMarker)[1..] == LegBodies(doc.legs)
  {
    var head := SynthesisText(doc.synthesisTitle, doc.synthesisDescription) + Newline;
    SynthesisNoDouble(doc.synthesisTitle, doc.synthesisDescription);
    SplitLegs(head, doc.legs);
    assert Serialize(doc) == head + LegsText(doc.legs);
  }

  /** Each written body reads back as its leg. */
  lemma BlocksRead(legs: seq<LegEntry>)
    requires forall k :: 0 <= k < |legs| ==> WritableValue(legs[k].id) && WritableValue(legs[k].title)
    ensures var blocks := BlockLegs(LegBodies(legs));
      forall k :: 0 <= k < |legs| ==> blocks[k].id == legs[k].id && blocks[k].title == legs[k].title
    ensures var blocks := BlockLegs(LegBodies(legs));
      forall k :: 0 <= k < |blocks| ==> blocks[k].id != []
  {
    var blocks := BlockLegs(LegBodies(legs));
    forall k | 0 <= k < |legs|
      ensures blocks[k].id == legs[k].id && blocks[k].title == legs[k].title
    {
      LegBodyRead(legs[k]);
    }
  }

  // ---------------------------------------------------------------------
  // The synthesis
  // ---------------------------------------------------------------------

  /** The opening of a multi-line value is the first one when the text before it holds no `"`. */
  lemma OpeningFirst(pre: String, key: String)
    requires '"' !in pre && '"' !in key
    ensures !Contains(pre + MultilineOpening(key)[..|MultilineOpening(key)| - 1], MultilineOpening(key))
  {
    var open := MultilineOpening(key);
    var s := pre + open[..|open| - 1];
    var q := |key| + 3;
    assert open[q] == '"';
    assert open[..q] == key + " = ";
    forall k: nat
      ensures !OccursAt(s, open, k)
    {
      if k + |open| <= |s| {
        assert s[k..k + |open|][q] == s[k + q];
        if k + q < |pre| {
          assert s[k + q] == pre[k + q];
        } else {
          assert s[k + q] == open[..q][k + q - |pre|];
        }
      }
    }
  }

  /** A body without `"` followed by two quotes does not contain the closing quotes. */
  lemma BodyOpenClose(body: String)
    requires '"' !in body
    ensures !Contains(body + TripleQuote[..2], TripleQuote)
  {
    var s := body + TripleQuote[..2];
    forall k: nat
      ensures !OccursAt(s, TripleQuote, k)
    {
      if k + 3 <= |s| {
        assert s[k..k + 3][0] == s[k] && s[k] == body[k];
      }
    }
  }

  /** The synthesis header line introduces no title. */
  lemma HeaderNotTitle()
    ensures '\n' !in SynthesisHeader
    ensures !StartsWithAny(TrimSpace(SynthesisHeader), KeyPrefixes("title"))
  {
    TrimUnchanged(SynthesisHeader, Whitespace);
    LineNotTitle(SynthesisHeader);
  }

  /** The synthesis section of a written document reaches at least the closing quotes of the description. */
  lemma SectionCoversSynthesis(doc: Document)
    requires Writable(doc)
    ensures Contains(Serialize(doc), SynthesisHeader)
    ensures var text := SynthesisText(doc.synthesisTitle, doc.synthesisDescription);
      var r := Section(Serialize(doc), SynthesisHeader).value;
      |text| <= |r| && r[..|text|] == text
  {
    var content := Serialize(doc);
    var text := SynthesisText(doc.synthesisTitle, doc.synthesisDescription);
    SerializedOpening(doc);
    SectionReaches(content, SynthesisHeader, |text|);
  }

  /** A written document opens with its header, and no line before the end of the synthesis opens with `[`. */
  lemma SerializedOpening(doc: Document)
    requires Writable(doc)
    ensures var content, text := Serialize(doc), SynthesisText(doc.synthesisTitle, doc.synthesisDescription);
      && |text| < |content|
      && OccursAt(content, SynthesisHeader, 0)
      && (forall m :: 1 <= m <= |text| ==> content[m] != '[')
      && content[..|text|] == text
  {
    var content := Serialize(doc);
    var text := SynthesisText(doc.synthesisTitle, doc.synthesisDescription);
    SynthesisBrackets(doc.synthesisTitle, doc.synthesisDescription);
    assert content == text + (Newline + LegsText(doc.legs));
    forall m | 1 <= m <= |text|
      ensures content[m] != '['
    {
      if m < |text| {
        assert content[m] == text[m];
      } else {
        assert content[m] == '\n';
      }
    }
    assert content[..|SynthesisHeader|] == SynthesisHeader;
  }

  /** A section that starts the text runs at least up to the first line after `n` that opens with `[`. */
  lemma SectionReaches(content: String, header: String, n: nat)
    requires header != [] && OccursAt(content, header, 0)
    requires n < |content| && forall m :: 1 <= m <= n ==> content[m] != '['
    ensures Contains(content, header)
    ensures var r := Section(content, header).value;
      n <= |r| && r[..n] == content[..n]
  {
    assert Index(content, header) == 0;
    var r := Section(content, header).value;
    assert content[0..] == content;
    assert |r| + 1 < |content| ==> content[|r|..][1] == content[|r| + 1];
    assert n <= |r|;
    assert r[..n] == content[..n];
  }

  /** The synthesis read back has the written title and description. */
  lemma SynthesisRoundTrip(doc: Document)
    requires Writable(doc)
    ensures var s := ExtractSynthesis(Serialize(doc));
      s.Some? && s.value.title == doc.synthesisTitle && s.value.description == doc.synthesisDescription
  {
    var t, d := doc.synthesisTitle, doc.synthesisDescription;
    var rest := SectionParts(doc);
    var tail := MultilineOpening("description") + (d + TripleQuote + rest);
    var section := Section(Serialize(doc), "[synthesis]").value;
    assert section == SynthesisHead(t) + tail;
    TitleRead(t, tail);
    DescriptionRead(t, d, rest);
    assert ExtractTOMLValue(section, "title") == t;
    assert ExtractTOMLMultiline(section, "description") == d;
  }

  /** The synthesis section of a written document: the written section, then at most what follows it. */
  lemma SectionParts(doc: Document) returns (rest: String)
    requires Writable(doc)
    ensures Contains(Serialize(doc), SynthesisHeader)
    ensures Section(Serialize(doc), SynthesisHeader).value
      == SynthesisHead(doc.synthesisTitle) + (MultilineOpening("description") + (doc.synthesisDescription + TripleQuote + rest))
  {
    var text := SynthesisText(doc.synthesisTitle, doc.synthesisDescription);
    SectionCoversSynthesis(doc);
    var r := Section(Serialize(doc), SynthesisHeader).value;
    rest := r[|text|..];
    assert r == r[..|text|] + rest;
    AppendAssoc(SynthesisHead(doc.synthesisTitle) + MultilineOpening("description"), doc.synthesisDescription + TripleQuote, rest);
    AppendAssoc(SynthesisHead(doc.synthesisTitle), MultilineOpening("description"), doc.synthesisDescription + TripleQuote + rest);
  }

  /** The keys written are plain keys. */
  lemma KeysPlain()
    ensures PlainKey("title") && PlainKey("id")
  {
    assert "title"[0] == 't' && "id"[0] == 'i';
  }

  /** The title line right after the header is the one read. */
  lemma TitleRead(t: String, tail: String)
    requires WritableValue(t)
    ensures ExtractTOMLValue(SynthesisHead(t) + tail, "title") == t
  {
    KeysPlain();
    var line := Assignment("title", t);
    assert SynthesisHead(t) + tail == SynthesisHeader + Newline + (line + Newline + tail);
    HeaderNotTitle();
    ValueSkipsLine(SynthesisHeader, line + Newline + tail, "title");
    ValueBare("title", t, tail);
  }

  /** The description between its opening and the closing quotes is the one read. */
  lemma DescriptionRead(t: String, d: String, rest: String)
    requires WritableValue(t) && WritableBody(d)
    ensures ExtractTOMLMultiline(SynthesisHead(t) + (MultilineOpening("description") + (d + TripleQuote + rest)), "description") == d
  {
    AppendAssoc(SynthesisHead(t), MultilineOpening("description"), d + TripleQuote + rest);
    HeadNoQuote(t);
    OpeningFirst(SynthesisHead(t), "description");
    BodyOpenClose(d);
    MultilineRoundTrip(SynthesisHead(t), "description", d, rest);
  }

  lemma HeadNoQuote(t: String)
    requires WritableValue(t)
    ensures '"' !in SynthesisHead(t)
  {
    assert '"' !in SynthesisHeader;
    assert '"' !in Assignment("title", t);
  }
}
