/**
 * The parts of Go's `strings` and `strconv` packages that the formula code
 * relies on, over strings modelled as sequences of characters (one
 * character per byte).
 */
module Text {
  import opened Outcome

  type String = seq<char>

  /** The ASCII white space that `strings.TrimSpace` and `strings.Fields` skip. */
  const Whitespace: set<char> := {' ', '\t', '\n', '\r', '\U{000B}', '\U{000C}'}

  const Newline: String := "\n"

  predicate HasPrefix(s: String, p: String) {
    |p| <= |s| && s[..|p|] == p
  }

  predicate HasSuffix(s: String, p: String) {
    |p| <= |s| && s[|s| - |p|..] == p
  }

  /** `strings.TrimPrefix`. */
  function TrimPrefix(s: String, p: String): (r: String)
    ensures HasPrefix(s, p) ==> s == p + r
    ensures !HasPrefix(s, p) ==> r == s
  {
    if HasPrefix(s, p) then s[|p|..] else s
  }

  /** `strings.TrimSuffix`. */
  function TrimSuffix(s: String, p: String): (r: String)
    ensures HasSuffix(s, p) ==> s == r + p
    ensures !HasSuffix(s, p) ==> r == s
  {
    if HasSuffix(s, p) then s[..|s| - |p|] else s
  }

  /** `strings.TrimLeft(s, cut)`: drops the longest prefix made of characters of `cut`. */
  function TrimLeft(s: String, cut: set<char>): (r: String)
    ensures |r| <= |s| && r == s[|s| - |r|..]
    ensures r == [] || r[0] !in cut
    ensures forall k :: 0 <= k < |s| - |r| ==> s[k] in cut
    decreases |s|
  {
    if |s| > 0 && s[0] in cut then TrimLeft(s[1..], cut) else s
  }

  /** `strings.TrimRight(s, cut)`: drops the longest suffix made of characters of `cut`. */
  function TrimRight(s: String, cut: set<char>): (r: String)
    ensures |r| <= |s| && r == s[..|r|]
    ensures r == [] || r[|r| - 1] !in cut
    ensures forall k :: |r| <= k < |s| ==> s[k] in cut
    decreases |s|
  {
    if |s| > 0 && s[|s| - 1] in cut then TrimRight(s[..|s| - 1], cut) else s
  }

  /** `strings.Trim(s, cut)`. */
  function Trim(s: String, cut: set<char>): (r: String)
    ensures r == [] || (r[0] !in cut && r[|r| - 1] !in cut)
  {
    var left := TrimLeft(s, cut);
    var r := TrimRight(left, cut);
    assert r == [] || r[0] == left[0];
    r
  }

  /** `strings.TrimSpace`. */
  function TrimSpace(s: String): String {
    Trim(s, Whitespace)
  }

  /** A string that begins and ends outside `cut` is left alone by `Trim`. */
  lemma TrimUnchanged(s: String, cut: set<char>)
    requires s == [] || (s[0] !in cut && s[|s| - 1] !in cut)
    ensures Trim(s, cut) == s
  {
  }

  /** A line that begins and ends outside the white space, followed by a newline, trims to that line. */
  lemma TrimSpaceNewline(s: String)
    requires |s| > 0 && s[0] !in Whitespace && s[|s| - 1] !in Whitespace
    ensures TrimSpace(s + Newline) == s
  {
    var t := s + Newline;
    assert TrimLeft(t, Whitespace) == t;
    assert t[..|t| - 1] == s;
    assert TrimRight(t, Whitespace) == TrimRight(s, Whitespace);
  }

  /** A string that differs from `p` at some position of both does not start with `p`. */
  lemma NotPrefixAt(s: String, p: String, k: nat)
    requires k < |s| && k < |p| && s[k] != p[k]
    ensures !HasPrefix(s, p)
  {
    if |p| <= |s| {
      assert s[..|p|][k] == s[k];
    }
  }

  /** `p` occurs in `s` at offset `k`. */
  predicate OccursAt(s: String, p: String, k: nat) {
    k + |p| <= |s| && s[k..k + |p|] == p
  }

  function IndexFrom(s: String, p: String, i: nat): (r: int)
    requires i <= |s|
    ensures r == -1 || (i <= r && OccursAt(s, p, r))
    ensures r == -1 ==> forall k :: i <= k ==> !OccursAt(s, p, k)
    ensures r != -1 ==> forall k :: i <= k < r ==> !OccursAt(s, p, k)
    decreases |s| - i
  {
    if OccursAt(s, p, i) then i
    else if i == |s| then -1
    else IndexFrom(s, p, i + 1)
  }

  /** `strings.Index`: the offset of the first occurrence of `p` in `s`, or -1. */
  function Index(s: String, p: String): (r: int)
    ensures r == -1 || (0 <= r && OccursAt(s, p, r))
    ensures r == -1 ==> forall k: nat :: !OccursAt(s, p, k)
    ensures r != -1 ==> forall k: nat :: k < r ==> !OccursAt(s, p, k)
  {
    IndexFrom(s, p, 0)
  }

  /** `strings.Contains`. */
  predicate Contains(s: String, p: String) {
    Index(s, p) != -1
  }

  /** Every occurrence witnesses `Contains`. */
  lemma ContainsAt(s: String, p: String, k: nat)
    requires OccursAt(s, p, k)
    ensures Contains(s, p)
  {
  }

  /** `strings.Split(s, sep)` for a non-empty separator. */
  function Split(s: String, sep: String): (r: seq<String>)
    requires |sep| > 0
    ensures |r| >= 1
    decreases |s|
  {
    var i := Index(s, sep);
    if i == -1 then [s] else [s[..i]] + Split(s[i + |sep|..], sep)
  }

  /** `strings.Join`. */
  function Join(parts: seq<String>, sep: String): String
    decreases |parts|
  {
    if |parts| == 0 then []
    else if |parts| == 1 then parts[0]
    else parts[0] + sep + Join(parts[1..], sep)
  }

  /** The pieces `Split` returns never contain the separator. */
  lemma {:induction false} SplitPiecesFree(s: String, sep: String)
    requires |sep| > 0
    ensures forall k :: 0 <= k < |Split(s, sep)| ==> !Contains(Split(s, sep)[k], sep)
    decreases |s|
  {
    var i := Index(s, sep);
    if i != -1 {
      var head := s[..i];
      var rest := s[i + |sep|..];
      assert Split(s, sep) == [head] + Split(rest, sep);
      forall k: nat | k + |sep| <= |head|
        ensures !OccursAt(head, sep, k)
      {
        SliceOfPrefix(s, i, k, k + |sep|);
        assert !OccursAt(s, sep, k);
      }
      assert !Contains(head, sep);
      SplitPiecesFree(rest, sep);
    }
  }

  /** A slice of a prefix is the same slice of the whole. */
  lemma SliceOfPrefix(s: String, i: int, a: int, b: int)
    requires 0 <= a <= b <= i <= |s|
    ensures s[..i][a..b] == s[a..b]
  {
  }

  /** Joining the pieces back with the separator gives the original string. */
  lemma {:induction false} JoinSplit(s: String, sep: String)
    requires |sep| > 0
    ensures Join(Split(s, sep), sep) == s
    decreases |s|
  {
    var i := Index(s, sep);
    if i != -1 {
      var rest := s[i + |sep|..];
      var tail := Split(rest, sep);
      assert Split(s, sep) == [s[..i]] + tail;
      assert ([s[..i]] + tail)[1..] == tail;
      assert Join([s[..i]] + tail, sep) == s[..i] + sep + Join(tail, sep);
      JoinSplit(rest, sep);
      assert s[i..i + |sep|] == sep;
      assert s == s[..i] + sep + rest;
    }
  }

  /** The lines of `s`, as `strings.Split(s, "\n")` gives them. */
  function Lines(s: String): (r: seq<String>)
    ensures |r| >= 1
  {
    Split(s, Newline)
  }

  /** A line without a newline, followed by a newline, is the first line. */
  lemma LinesCons(a: String, b: String)
    requires '\n' !in a
    ensures Lines(a + Newline + b) == [a] + Lines(b)
  {
    var s := a + Newline + b;
    assert OccursAt(s, Newline, |a|);
    forall k: nat | k < |a|
      ensures !OccursAt(s, Newline, k)
    {
      assert s[k] == a[k];
    }
    assert s[..|a|] == a;
    assert s[|a| + 1..] == b;
  }

  /** Lines of a concatenation around a newline are the lines of each side. */
  lemma {:induction false} LinesAppend(a: String, b: String)
    ensures Lines(a + Newline + b) == Lines(a) + Lines(b)
    decreases |a|
  {
    var i := Index(a, Newline);
    if i == -1 {
      NotContainsCharFromIndex(a);
      LinesCons(a, b);
    } else {
      var head := a[..i];
      var tail := a[i + 1..];
      assert a == head + Newline + tail;
      FirstNewlineFree(a, i);
      LinesAppend(tail, b);
      LinesAppendStep(head, tail, b);
    }
  }

  /** One more first line in front of both sides of `LinesAppend`. */
  lemma LinesAppendStep(head: String, tail: String, b: String)
    requires '\n' !in head
    requires Lines(tail + Newline + b) == Lines(tail) + Lines(b)
    ensures Lines(head + Newline + tail + Newline + b) == Lines(head + Newline + tail) + Lines(b)
  {
    var rest := tail + Newline + b;
    AppendAssoc(head + Newline + tail, Newline, b);
    AppendAssoc(head + Newline, tail, Newline + b);
    AppendAssoc(tail, Newline, b);
    LinesCons(head, rest);
    LinesCons(head, tail);
    AppendAssoc([head], Lines(tail), Lines(b));
  }

  /** A sequence whose head is `x` and whose tail agrees with `t` is `[x] + t`. */
  lemma SeqCons<T>(s: seq<T>, x: T, t: seq<T>)
    requires |s| == |t| + 1 && s[0] == x
    requires forall k :: 0 <= k < |t| ==> s[k + 1] == t[k]
    ensures s == [x] + t
  {
  }

  /** Dropping the head of a concatenation drops it from the first part. */
  lemma DropFirst<T>(p: seq<T>, q: seq<T>)
    requires p != []
    ensures (p + q)[1..] == p[1..] + q
  {
  }

  /** Concatenation is associative. */
  lemma AppendAssoc<T>(x: seq<T>, y: seq<T>, z: seq<T>)
    ensures x + (y + z) == x + y + z
  {
  }

  lemma NotContainsCharFromIndex(a: String)
    requires Index(a, Newline) == -1
    ensures '\n' !in a
  {
    if '\n' in a {
      var k :| 0 <= k < |a| && a[k] == '\n';
      assert OccursAt(a, Newline, k);
    }
  }

  lemma FirstNewlineFree(a: String, i: int)
    requires i == Index(a, Newline) && i != -1
    ensures '\n' !in a[..i]
  {
    if '\n' in a[..i] {
      var k :| 0 <= k < i && a[..i][k] == '\n';
      assert OccursAt(a, Newline, k);
    }
  }

  /** An occurrence of `p` right after `x` is the first one when `x`, extended by all but the last character of `p`, holds none. */
  lemma IndexAfter(x: String, p: String, y: String)
    requires |p| > 0 && !Contains(x + p[..|p| - 1], p)
    ensures Index(x + p + y, p) == |x|
  {
    var s := x + p + y;
    var t := x + p[..|p| - 1];
    assert s[|x|..|x| + |p|] == p;
    assert OccursAt(s, p, |x|);
    assert s[..|t|] == t;
    forall k: nat | k < |x|
      ensures !OccursAt(s, p, k)
    {
      assert s[..|t|][k..k + |p|] == s[k..k + |p|];
      assert !OccursAt(t, p, k);
    }
  }

  /** Splitting at the first separator: the text before it is the first piece. */
  lemma SplitAtFirst(a: String, sep: String, b: String)
    requires |sep| > 0 && !Contains(a + sep[..|sep| - 1], sep)
    ensures Split(a + sep + b, sep) == [a] + Split(b, sep)
  {
    var s := a + sep + b;
    IndexAfter(a, sep, b);
    assert s[..|a|] == a;
    assert s[|a| + |sep|..] == b;
  }

  /** A string lacking one of the characters of `p` does not contain `p`. */
  lemma NotContainsChar(s: String, p: String, c: char)
    requires c in p && c !in s
    ensures !Contains(s, p)
  {
  }

  /** `t` starts with one of `prefixes`. */
  predicate StartsWithAny(t: String, prefixes: seq<String>) {
    exists k :: 0 <= k < |prefixes| && HasPrefix(t, prefixes[k])
  }

  /**
   * The index of the first line, at or after `from`, whose trimmed text
   * starts with one of `prefixes`, or -1 when there is none.
   */
  function FirstKeyLine(lines: seq<String>, prefixes: seq<String>, from: nat): (r: int)
    requires from <= |lines|
    ensures r == -1 || (from <= r < |lines| && StartsWithAny(TrimSpace(lines[r]), prefixes))
    ensures forall i :: from <= i < |lines| && (r == -1 || i < r) ==> !StartsWithAny(TrimSpace(lines[i]), prefixes)
    decreases |lines| - from
  {
    if from == |lines| then -1
    else if StartsWithAny(TrimSpace(lines[from]), prefixes) then from
    else FirstKeyLine(lines, prefixes, from + 1)
  }

  /** `w` holds no white space. */
  predicate NoSpace(w: String) {
    forall j :: 0 <= j < |w| ==> w[j] !in Whitespace
  }

  /** The longest prefix of `s` without white space. */
  function Word(s: String): (r: String)
    ensures |r| <= |s| && r == s[..|r|]
    ensures NoSpace(r)
    ensures |r| == |s| || s[|r|] in Whitespace
    ensures |s| > 0 && s[0] !in Whitespace ==> |r| > 0
    decreases |s|
  {
    if |s| == 0 || s[0] in Whitespace then [] else [s[0]] + Word(s[1..])
  }

  /** `strings.Fields`: the maximal runs of non-white-space characters, in order. */
  function Fields(s: String): (r: seq<String>)
    ensures forall k :: 0 <= k < |r| ==> r[k] != [] && NoSpace(r[k])
    decreases |s|
  {
    var t := TrimLeft(s, Whitespace);
    if t == [] then []
    else
      var w := Word(t);
      assert |w| > 0;
      var rest := Fields(t[|w|..]);
      WordsCons(w, rest);
      [w] + rest
  }

  /** A word in front of words is a sequence of words. */
  lemma WordsCons(w: String, rest: seq<String>)
    requires w != [] && NoSpace(w)
    requires forall k :: 0 <= k < |rest| ==> rest[k] != [] && NoSpace(rest[k])
    ensures forall k :: 0 <= k < |[w] + rest| ==> ([w] + rest)[k] != [] && NoSpace(([w] + rest)[k])
  {
    forall k | 0 <= k < |[w] + rest|
      ensures ([w] + rest)[k] != [] && NoSpace(([w] + rest)[k])
    {
      if k > 0 {
        assert ([w] + rest)[k] == rest[k - 1];
      }
    }
  }

  /** A word without white space on its own, or followed by white space, is the first field. */
  lemma FieldsCons(w: String, rest: String)
    requires w != [] && NoSpace(w)
    requires rest == [] || rest[0] in Whitespace
    ensures Fields(w + rest) == [w] + Fields(rest)
  {
    var s := w + rest;
    assert TrimLeft(s, Whitespace) == s;
    WordOf(w, rest);
    assert s[|w|..] == rest;
    if rest != [] {
      FieldsSkip(rest);
    }
  }

  lemma {:induction false} WordOf(w: String, rest: String)
    requires NoSpace(w)
    requires rest == [] || rest[0] in Whitespace
    ensures Word(w + rest) == w
    decreases |w|
  {
    if w != [] {
      assert (w + rest)[1..] == w[1..] + rest;
      WordOf(w[1..], rest);
    }
  }

  lemma FieldsSkip(rest: String)
    requires rest != [] && rest[0] in Whitespace
    ensures Fields(rest) == Fields(rest[1..])
  {
    assert TrimLeft(rest, Whitespace) == TrimLeft(rest[1..], Whitespace);
  }

  predicate IsDigits(s: String) {
    forall i :: 0 <= i < |s| ==> '0' <= s[i] <= '9'
  }

  function DigitValue(c: char): nat
    requires '0' <= c <= '9'
  {
    (c as int) - ('0' as int)
  }

  function DigitChar(d: nat): (c: char)
    requires d < 10
    ensures '0' <= c <= '9' && DigitValue(c) == d
  {
    (('0' as int) + d) as char
  }

  /** The value of a string of decimal digits, most significant first. */
  function DigitsValue(s: String): nat
    requires IsDigits(s)
    decreases |s|
  {
    if |s| == 0 then 0 else DigitsValue(s[..|s| - 1]) * 10 + DigitValue(s[|s| - 1])
  }

  const MinInt64: int := -0x8000_0000_0000_0000
  const MaxInt64: int := 0x7FFF_FFFF_FFFF_FFFF

  /**
   * `strconv.Atoi` on a 64-bit platform: an optional sign and at least one
   * decimal digit, with a value inside the 64-bit range; anything else fails.
   */
  function Atoi(s: String): (r: Option<int>)
    ensures r.Some? ==> MinInt64 <= r.value <= MaxInt64
    ensures r.Some? ==> |s| > 0 && (IsDigits(s) || IsDigits(s[1..]))
  {
    var signed := |s| > 0 && (s[0] == '+' || s[0] == '-');
    var digits := if signed then s[1..] else s;
    if |digits| == 0 || !IsDigits(digits) then None
    else
      var n: int := DigitsValue(digits);
      var v := if signed && s[0] == '-' then -n else n;
      if MinInt64 <= v <= MaxInt64 then Some(v) else None
  }

  /** The shortest decimal spelling of `n`. */
  function NatToDecimal(n: nat): (r: String)
    ensures |r| >= 1 && IsDigits(r) && DigitsValue(r) == n
    decreases n
  {
    var last := [DigitChar(n % 10)];
    if n < 10 then last
    else
      var prefix := NatToDecimal(n / 10);
      var r := prefix + last;
      assert r[..|r| - 1] == prefix;
      r
  }

  /** `fmt.Sprintf("%d", i)`. */
  function IntToDecimal(i: int): (r: String)
    ensures |r| >= 1
  {
    if i < 0 then "-" + NatToDecimal(-i) else NatToDecimal(i)
  }

  /** Parsing what `%d` prints gives the number back. */
  lemma AtoiOfDecimal(i: int)
    requires MinInt64 <= i <= MaxInt64
    ensures Atoi(IntToDecimal(i)) == Some(i)
  {
    var s := IntToDecimal(i);
    if i < 0 {
      assert s[1..] == NatToDecimal(-i);
    }
  }

  /** Leading white space is all that `TrimLeft` removes before a non-space character. */
  lemma {:induction false} TrimLeftSkips(ws: String, t: String)
    requires forall k :: 0 <= k < |ws| ==> ws[k] in Whitespace
    requires t != [] && t[0] !in Whitespace
    ensures TrimLeft(ws + t, Whitespace) == t
    decreases |ws|
  {
    if ws == [] {
      assert ws + t == t;
    } else {
      assert (ws + t)[0] == ws[0];
      assert (ws + t)[1..] == ws[1..] + t;
      TrimLeftSkips(ws[1..], t);
    }
  }

  /** `TrimRight` keeps every character up to the last non-space one. */
  lemma TrimRightKeeps(t: String, n: nat)
    requires 0 < n <= |t| && t[n - 1] !in Whitespace
    ensures HasPrefix(TrimRight(t, Whitespace), t[..n])
  {
    var r := TrimRight(t, Whitespace);
    assert |r| >= n;
    assert r[..n] == t[..n];
  }

  /** Trimming text that starts with white space and then `p`, a word with no white space at either end, keeps `p` at the front. */
  lemma TrimKeepsPrefix(ws: String, p: String, x: String)
    requires forall k :: 0 <= k < |ws| ==> ws[k] in Whitespace
    requires |p| > 0 && p[0] !in Whitespace && p[|p| - 1] !in Whitespace
    ensures HasPrefix(TrimSpace(ws + p + x), p)
  {
    assert ws + p + x == ws + (p + x);
    TrimLeftSkips(ws, p + x);
    TrimRightKeeps(p + x, |p|);
    assert (p + x)[..|p|] == p;
  }
}
