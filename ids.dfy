/**
 * The short random identifiers the convoy executor puts into bead IDs:
 * three random bytes, encoded with the standard base32 alphabet of section 6
 * of RFC 4648, cut to the first five characters and lower-cased.
 */
module ShortIds {
  import opened Text

  /** The three bytes `crypto/rand` writes into the buffer. */
  datatype Entropy = Entropy(b0: bv8, b1: bv8, b2: bv8)

  /**
   * The five 5-bit groups base32 cuts 24 bits into, most significant first;
   * the fifth group is padded on the right with one zero bit.
   */
  function Groups(e: Entropy): (r: seq<bv8>)
    ensures |r| == 5
    ensures forall k :: 0 <= k < 5 ==> r[k] < 32
  {
    [e.b0 >> 3,
     ((e.b0 & 7) << 2) | (e.b1 >> 6),
     (e.b1 >> 1) & 31,
     ((e.b1 & 1) << 4) | (e.b2 >> 4),
     (e.b2 & 15) << 1]
  }

  /** The symbol of a 5-bit value in the standard alphabet: `A`..`Z` for 0..25, `2`..`7` for 26..31. */
  function StdSymbol(v: bv8): (c: char)
    requires v < 32
    ensures 'A' <= c <= 'Z' || '2' <= c <= '7'
  {
    if v < 26 then (('A' as int) + (v as int)) as char else (('2' as int) + (v as int) - 26) as char
  }

  /** `base32.StdEncoding.EncodeToString` of three bytes: five symbols and three padding characters. */
  function EncodeToString(e: Entropy): (r: String)
    ensures |r| == 8 && r[5..] == "==="
  {
    var g := Groups(e);
    [StdSymbol(g[0]), StdSymbol(g[1]), StdSymbol(g[2]), StdSymbol(g[3]), StdSymbol(g[4])] + "==="
  }

  /** `unicode.ToLower` on the characters base32 produces. */
  function LowerChar(c: char): char {
    if 'A' <= c <= 'Z' then ((c as int) + 32) as char else c
  }

  /** `strings.ToLower`, character by character. */
  function ToLower(s: String): (r: String)
    ensures |r| == |s|
    ensures forall k :: 0 <= k < |s| ==> r[k] == LowerChar(s[k])
  {
    if s == [] then [] else [LowerChar(s[0])] + ToLower(s[1..])
  }

  /** A character of the lower-cased alphabet. */
  predicate IsIdChar(c: char) {
    'a' <= c <= 'z' || '2' <= c <= '7'
  }

  /** `generateFormulaShortID` for the bytes the random source gave. */
  function ShortID(e: Entropy): (r: String)
    ensures |r| == 5 && forall k :: 0 <= k < 5 ==> IsIdChar(r[k])
  {
    ToLower(EncodeToString(e)[..5])
  }

  /** The 5-bit value a character of the lower-cased alphabet stands for. */
  function SymbolValue(c: char): (v: bv8)
    requires IsIdChar(c)
    ensures v < 32
  {
    if 'a' <= c <= 'z' then ((c as int) - ('a' as int)) as bv8 else ((c as int) - ('2' as int) + 26) as bv8
  }

  /** Reassembles the three bytes from five 5-bit groups, dropping the padding bit. */
  function Ungroup(g0: bv8, g1: bv8, g2: bv8, g3: bv8, g4: bv8): Entropy {
    Entropy(
      (g0 << 3) | (g1 >> 2),
      ((g1 & 3) << 6) | (g2 << 1) | (g3 >> 4),
      ((g3 & 15) << 4) | (g4 >> 1))
  }

  /** Decoding a short ID back to the bytes it was made from. */
  function DecodeShortID(id: String): (e: Entropy)
    requires |id| == 5 && forall k :: 0 <= k < 5 ==> IsIdChar(id[k])
  {
    Ungroup(SymbolValue(id[0]), SymbolValue(id[1]), SymbolValue(id[2]), SymbolValue(id[3]), SymbolValue(id[4]))
  }

  /** The first five characters of the encoding are the symbols of the five groups. */
  lemma EncodedHead(e: Entropy)
    ensures EncodeToString(e)[..5] == [StdSymbol(Groups(e)[0]), StdSymbol(Groups(e)[1]), StdSymbol(Groups(e)[2]),
                                       StdSymbol(Groups(e)[3]), StdSymbol(Groups(e)[4])]
  {
  }

  /** A lower-cased symbol is a character of the lower-cased alphabet. */
  lemma LowerSymbolIsIdChar(v: bv8)
    requires v < 32
    ensures IsIdChar(LowerChar(StdSymbol(v)))
  {
  }

  /** A short ID is five characters of the lower-cased alphabet, one per group. */
  lemma ShortIDShape(e: Entropy)
    ensures |ShortID(e)| == 5
    ensures forall k :: 0 <= k < 5 ==> ShortID(e)[k] == LowerChar(StdSymbol(Groups(e)[k])) && IsIdChar(ShortID(e)[k])
  {
    var g := Groups(e);
    var head := EncodeToString(e)[..5];
    EncodedHead(e);
    forall k | 0 <= k < 5
      ensures ShortID(e)[k] == LowerChar(StdSymbol(g[k])) && IsIdChar(ShortID(e)[k])
    {
      assert ShortID(e)[k] == LowerChar(head[k]);
      LowerSymbolIsIdChar(g[k]);
    }
  }

  /** The lower-cased symbol of a 5-bit value reads back as that value. */
  lemma SymbolRoundTrip(v: bv8)
    requires v < 32
    ensures IsIdChar(LowerChar(StdSymbol(v)))
    ensures SymbolValue(LowerChar(StdSymbol(v))) == v
  {
  }

  /** Ungrouping the groups of three bytes gives the bytes back. */
  lemma GroupsRoundTrip(e: Entropy)
    ensures var g := Groups(e); Ungroup(g[0], g[1], g[2], g[3], g[4]) == e
  {
  }

  /** A short ID decodes to the random bytes it was made from: the five characters keep all 24 bits. */
  lemma ShortIDRoundTrip(e: Entropy)
    ensures DecodeShortID(ShortID(e)) == e
  {
    var g := Groups(e);
    var id := ShortID(e);
    ShortIDShape(e);
    forall k | 0 <= k < 5
      ensures SymbolValue(id[k]) == g[k]
    {
      SymbolRoundTrip(g[k]);
    }
    GroupsRoundTrip(e);
  }

  /** Different random bytes give different short IDs. */
  lemma ShortIDInjective(e1: Entropy, e2: Entropy)
    requires ShortID(e1) == ShortID(e2)
    ensures e1 == e2
  {
    ShortIDShape(e1);
    ShortIDRoundTrip(e1);
    ShortIDRoundTrip(e2);
  }

  /** The fifth character carries one padding bit, always zero: its value is even. */
  lemma LastSymbolEven(e: Entropy)
    ensures |ShortID(e)| == 5 && IsIdChar(ShortID(e)[4])
    ensures SymbolValue(ShortID(e)[4]) & 1 == 0
  {
    ShortIDShape(e);
    SymbolRoundTrip(Groups(e)[4]);
  }
}
