/**
 * The side-by-side comparison `gt formula diff` prints when no external diff
 * tool is used: a positional line comparator, the truncation of each cell,
 * and the cap of twenty rows.
 */
module Diff {
  import opened Text

  datatype Kind = Changed | Added | Removed

  /** One reported difference: an added line has no left text, a removed line no right text. */
  datatype LineDiff = LineDiff(kind: Kind, left: String, right: String)

  /** Line `i`, or "" past the end. */
  function LineAt(lines: seq<String>, i: nat): String {
    if i < |lines| then lines[i] else []
  }

  function MaxLen(left: seq<String>, right: seq<String>): nat {
    if |right| > |left| then |right| else |left|
  }

  /** The trimmed lines: what the comparator compares. */
  function Keys(lines: seq<String>): (r: seq<String>)
    ensures |r| == |lines|
  {
    if lines == [] then [] else [TrimSpace(lines[0])] + Keys(lines[1..])
  }

  lemma {:induction false} KeyOf(lines: seq<String>, k: nat)
    requires k < |lines|
    ensures Keys(lines)[k] == TrimSpace(lines[k])
  {
    KeysTail(lines);
    if k > 0 {
      KeyOf(lines[1..], k - 1);
      assert lines[1..][k - 1] == lines[k];
      assert Keys(lines)[k] == Keys(lines)[1..][k - 1];
    }
  }

  lemma KeysTail(lines: seq<String>)
    requires lines != []
    ensures Keys(lines)[0] == TrimSpace(lines[0]) && Keys(lines)[1..] == Keys(lines[1..])
  {
  }

  /** The key of line `i`, a missing line counting as "". */
  lemma KeyAt(lines: seq<String>, i: nat)
    ensures LineAt(Keys(lines), i) == TrimSpace(LineAt(lines, i))
  {
    if i >= |lines| {
      assert TrimLeft([], Whitespace) == [];
    } else {
      KeyOf(lines, i);
    }
  }

  /** Lines `i` of the two sides differ, by their keys. */
  predicate Differs(leftKeys: seq<String>, rightKeys: seq<String>, i: nat) {
    LineAt(leftKeys, i) != LineAt(rightKeys, i)
  }

  /** The entry for a differing index: added past the left end, removed past the right end, changed otherwise. */
  function DiffAt(left: seq<String>, right: seq<String>, i: nat): LineDiff {
    if i >= |left| then LineDiff(Added, [], LineAt(right, i))
    else if i >= |right| then LineDiff(Removed, left[i], [])
    else LineDiff(Changed, left[i], right[i])
  }

  /** The indices below `n` whose keys differ, in increasing order. */
  function DiffIndices(leftKeys: seq<String>, rightKeys: seq<String>, n: nat): seq<nat> {
    if n == 0 then []
    else DiffIndices(leftKeys, rightKeys, n - 1) + (if Differs(leftKeys, rightKeys, n - 1) then [n - 1] else [])
  }

  /** The indices listed are exactly the differing ones below `n`, each once and in increasing order. */
  ghost predicate IndexedBelow(leftKeys: seq<String>, rightKeys: seq<String>, n: nat, idx: seq<nat>) {
    && (forall i: nat :: i in idx <==> i < n && Differs(leftKeys, rightKeys, i))
    && (forall k :: 0 <= k < |idx| ==> idx[k] < n)
    && (forall j, k :: 0 <= j < k < |idx| ==> idx[j] < idx[k])
  }

  lemma {:induction false} DiffIndicesSpec(leftKeys: seq<String>, rightKeys: seq<String>, n: nat)
    ensures IndexedBelow(leftKeys, rightKeys, n, DiffIndices(leftKeys, rightKeys, n))
  {
    if n > 0 {
      DiffIndicesSpec(leftKeys, rightKeys, n - 1);
      IndexedAppend(leftKeys, rightKeys, n, DiffIndices(leftKeys, rightKeys, n - 1), DiffIndices(leftKeys, rightKeys, n));
    }
  }

  /** Listing index `n - 1` after the differing ones below it, when it differs too, lists the differing ones below `n`. */
  lemma IndexedAppend(leftKeys: seq<String>, rightKeys: seq<String>, n: nat, prev: seq<nat>, idx: seq<nat>)
    requires n > 0 && IndexedBelow(leftKeys, rightKeys, n - 1, prev)
    requires idx == prev + (if Differs(leftKeys, rightKeys, n - 1) then [n - 1] else [])
    ensures IndexedBelow(leftKeys, rightKeys, n, idx)
  {
    if Differs(leftKeys, rightKeys, n - 1) {
      forall i: nat
        ensures i in idx <==> i < n && Differs(leftKeys, rightKeys, i)
      {
        assert i in idx <==> i in prev || i == n - 1;
      }
      forall j, k | 0 <= j < k < |idx|
        ensures idx[j] < idx[k]
      {
        assert idx[j] == prev[j];
        if k < |prev| {
          assert idx[k] == prev[k];
        }
      }
    } else {
      assert idx == prev;
    }
  }

  /** The entries for the indices below `n`, by the keys of the two sides. */
  function DiffsUpTo(left: seq<String>, right: seq<String>, leftKeys: seq<String>, rightKeys: seq<String>, n: nat): seq<LineDiff> {
    if n == 0 then []
    else DiffsUpTo(left, right, leftKeys, rightKeys, n - 1) + (if Differs(leftKeys, rightKeys, n - 1) then [DiffAt(left, right, n - 1)] else [])
  }

  /** Entry `k` is the one for the `k`-th differing index. */
  lemma {:induction false} DiffsUpToSpec(left: seq<String>, right: seq<String>, leftKeys: seq<String>, rightKeys: seq<String>, n: nat)
    ensures var idx := DiffIndices(leftKeys, rightKeys, n);
      var r := DiffsUpTo(left, right, leftKeys, rightKeys, n);
      |r| == |idx| && forall k :: 0 <= k < |r| ==> r[k] == DiffAt(left, right, idx[k])
  {
    if n > 0 {
      DiffsUpToSpec(left, right, leftKeys, rightKeys, n - 1);
    }
  }

  /** What `findLineDifferences` returns. */
  function Differences(left: seq<String>, right: seq<String>): seq<LineDiff> {
    DiffsUpTo(left, right, Keys(left), Keys(right), MaxLen(left, right))
  }

  /** `findLineDifferences`: one pass over the longer side. */
  method FindLineDifferences(left: seq<String>, right: seq<String>) returns (diffs: seq<LineDiff>)
    ensures diffs == Differences(left, right)
  {
    var maxLen := |left|;
    if |right| > maxLen {
      maxLen := |right|;
    }
    diffs := [];
    ghost var leftKeys, rightKeys := Keys(left), Keys(right);
    for i := 0 to maxLen
      invariant diffs == DiffsUpTo(left, right, leftKeys, rightKeys, i)
    {
      var l: String := [];
      var r: String := [];
      if i < |left| {
        l := left[i];
      }
      if i < |right| {
        r := right[i];
      }
      var kl, kr := TrimSpace(l), TrimSpace(r);
      DiffsStepKeys(left, right, leftKeys, rightKeys, i, l, r, kl, kr);
      if kl == kr {
        continue;
      }
      if kl == [] && kr == [] {
        continue;
      }
      if i >= |left| {
        diffs := diffs + [LineDiff(Added, [], r)];
      } else if i >= |right| {
        diffs := diffs + [LineDiff(Removed, l, [])];
      } else {
        diffs := diffs + [LineDiff(Changed, l, r)];
      }
    }
  }

  /** One step of the comparator: index `i` adds its entry exactly when the trimmed lines differ. */
  lemma DiffsStep(left: seq<String>, right: seq<String>, leftKeys: seq<String>, rightKeys: seq<String>, i: nat, l: String, r: String)
    requires leftKeys == Keys(left) && rightKeys == Keys(right)
    requires l == LineAt(left, i) && r == LineAt(right, i)
    ensures DiffsUpTo(left, right, leftKeys, rightKeys, i + 1)
      == DiffsUpTo(left, right, leftKeys, rightKeys, i) + (if TrimSpace(l) != TrimSpace(r) then [DiffAt(left, right, i)] else [])
  {
    KeyAt(left, i);
    KeyAt(right, i);
  }

  /** The step of `DiffsStep` with the trimmed lines named, and the entry spelled out as the loop builds it. */
  lemma DiffsStepKeys(left: seq<String>, right: seq<String>, leftKeys: seq<String>, rightKeys: seq<String>, i: nat,
                      l: String, r: String, kl: String, kr: String)
    requires leftKeys == Keys(left) && rightKeys == Keys(right)
    requires l == LineAt(left, i) && r == LineAt(right, i)
    requires kl == TrimSpace(l) && kr == TrimSpace(r)
    ensures kl == kr ==> DiffsUpTo(left, right, leftKeys, rightKeys, i + 1) == DiffsUpTo(left, right, leftKeys, rightKeys, i)
    ensures kl != kr && i >= |left| ==>
      DiffsUpTo(left, right, leftKeys, rightKeys, i + 1) == DiffsUpTo(left, right, leftKeys, rightKeys, i) + [LineDiff(Added, [], r)]
    ensures kl != kr && i < |left| && i >= |right| ==>
      DiffsUpTo(left, right, leftKeys, rightKeys, i + 1) == DiffsUpTo(left, right, leftKeys, rightKeys, i) + [LineDiff(Removed, l, [])]
    ensures kl != kr && i < |left| && i < |right| ==>
      DiffsUpTo(left, right, leftKeys, rightKeys, i + 1) == DiffsUpTo(left, right, leftKeys, rightKeys, i) + [LineDiff(Changed, l, r)]
  {
    DiffsStep(left, right, leftKeys, rightKeys, i, l, r);
    if kl == kr {
      assert DiffsUpTo(left, right, leftKeys, rightKeys, i) + [] == DiffsUpTo(left, right, leftKeys, rightKeys, i);
    }
  }

  /** An index gets an entry exactly when the trimmed lines there differ. */
  lemma IndexedIff(left: seq<String>, right: seq<String>, i: nat)
    ensures i in DiffIndices(Keys(left), Keys(right), MaxLen(left, right))
      <==> i < MaxLen(left, right) && TrimSpace(LineAt(left, i)) != TrimSpace(LineAt(right, i))
  {
    var lk, rk := Keys(left), Keys(right);
    DiffIndicesSpec(lk, rk, MaxLen(left, right));
    KeyAt(left, i);
    KeyAt(right, i);
    assert Differs(lk, rk, i) <==> TrimSpace(LineAt(left, i)) != TrimSpace(LineAt(right, i));
  }

  /** The `k`-th entry is the one for the `k`-th differing index. */
  lemma EntryAt(left: seq<String>, right: seq<String>, k: nat)
    requires k < |Differences(left, right)|
    ensures var idx := DiffIndices(Keys(left), Keys(right), MaxLen(left, right));
      && k < |idx|
      && idx[k] < MaxLen(left, right)
      && Differs(Keys(left), Keys(right), idx[k])
      && Differences(left, right)[k] == DiffAt(left, right, idx[k])
  {
    var lk, rk := Keys(left), Keys(right);
    var idx := DiffIndices(lk, rk, MaxLen(left, right));
    DiffIndicesSpec(lk, rk, MaxLen(left, right));
    DiffsUpToSpec(left, right, lk, rk, MaxLen(left, right));
    assert idx[k] in idx;
  }

  /**
   * Each entry stands for one index at which the trimmed lines differ, and
   * every such index has one, in increasing order; each entry carries both
   * sides' lines at that index.
   */
  lemma DifferencesAreIndexed(left: seq<String>, right: seq<String>)
    ensures var idx := DiffIndices(Keys(left), Keys(right), MaxLen(left, right));
      && |Differences(left, right)| == |idx|
      && (forall i: nat :: i in idx <==> i < MaxLen(left, right) && TrimSpace(LineAt(left, i)) != TrimSpace(LineAt(right, i)))
      && (forall j, k :: 0 <= j < k < |idx| ==> idx[j] < idx[k])
      && (forall k :: 0 <= k < |idx| ==>
            Differences(left, right)[k].left == LineAt(left, idx[k])
            && Differences(left, right)[k].right == LineAt(right, idx[k]))
  {
    var lk, rk := Keys(left), Keys(right);
    var idx := DiffIndices(lk, rk, MaxLen(left, right));
    DiffIndicesSpec(lk, rk, MaxLen(left, right));
    DiffsUpToSpec(left, right, lk, rk, MaxLen(left, right));
    forall i: nat
      ensures i in idx <==> i < MaxLen(left, right) && TrimSpace(LineAt(left, i)) != TrimSpace(LineAt(right, i))
    {
      IndexedIff(left, right, i);
    }
    forall k | 0 <= k < |idx|
      ensures Differences(left, right)[k].left == LineAt(left, idx[k])
      ensures Differences(left, right)[k].right == LineAt(right, idx[k])
    {
      EntryAt(left, right, k);
      DiffAtCarriesLines(left, right, idx[k]);
    }
  }

  /** At a differing index, the entry holds both sides' lines and its kind says which side ran out. */
  lemma DiffAtCarriesLines(left: seq<String>, right: seq<String>, i: nat)
    requires i < MaxLen(left, right) && Differs(Keys(left), Keys(right), i)
    ensures DiffAt(left, right, i).left == LineAt(left, i) && DiffAt(left, right, i).right == LineAt(right, i)
    ensures DiffAt(left, right, i).kind == Added <==> i >= |left|
    ensures DiffAt(left, right, i).kind == Removed <==> i >= |right|
    ensures DiffAt(left, right, i).kind == Changed <==> i < |left| && i < |right|
  {
  }

  /** Lines that trim alike have equal keys. */
  lemma SameKeys(left: seq<String>, right: seq<String>)
    requires |left| == |right|
    requires forall i :: 0 <= i < |left| ==> TrimSpace(left[i]) == TrimSpace(right[i])
    ensures Keys(left) == Keys(right)
  {
    forall k | 0 <= k < |left|
      ensures Keys(left)[k] == Keys(right)[k]
    {
      KeyOf(left, k);
      KeyOf(right, k);
    }
  }

  /** A line that differs only in surrounding white space is no difference, so identical inputs give none. */
  lemma SameTrimmedNoDifferences(left: seq<String>, right: seq<String>)
    requires |left| == |right|
    requires forall i :: 0 <= i < |left| ==> TrimSpace(left[i]) == TrimSpace(right[i])
    ensures Differences(left, right) == []
  {
    SameKeys(left, right);
    NoIndicesForEqualKeys(Keys(left), MaxLen(left, right));
    DiffsUpToSpec(left, right, Keys(left), Keys(right), MaxLen(left, right));
  }

  lemma {:induction false} NoIndicesForEqualKeys(keys: seq<String>, n: nat)
    ensures DiffIndices(keys, keys, n) == []
  {
    if n > 0 {
      NoIndicesForEqualKeys(keys, n - 1);
    }
  }

  lemma IdenticalNoDifferences(lines: seq<String>)
    ensures Differences(lines, lines) == []
  {
    SameTrimmedNoDifferences(lines, lines);
  }

  /** Comparing the other way round reports the same indices. */
  lemma {:induction false} SwappedIndices(leftKeys: seq<String>, rightKeys: seq<String>, n: nat)
    ensures DiffIndices(leftKeys, rightKeys, n) == DiffIndices(rightKeys, leftKeys, n)
  {
    if n > 0 {
      SwappedIndices(leftKeys, rightKeys, n - 1);
    }
  }

  /** Comparing the other way round reports the same differences, with added and removed and the two sides exchanged. */
  lemma Swapped(left: seq<String>, right: seq<String>)
    ensures |Differences(left, right)| == |Differences(right, left)|
    ensures forall k :: 0 <= k < |Differences(left, right)| ==>
      (Differences(left, right)[k].kind == Added <==> Differences(right, left)[k].kind == Removed)
      && Differences(left, right)[k].left == Differences(right, left)[k].right
  {
    var lk, rk := Keys(left), Keys(right);
    var n := MaxLen(left, right);
    assert n == MaxLen(right, left);
    SwappedIndices(lk, rk, n);
    DiffsUpToSpec(left, right, lk, rk, n);
    DiffsUpToSpec(right, left, rk, lk, n);
    forall k | 0 <= k < |Differences(left, right)|
      ensures (Differences(left, right)[k].kind == Added <==> Differences(right, left)[k].kind == Removed)
      ensures Differences(left, right)[k].left == Differences(right, left)[k].right
    {
      EntryAt(left, right, k);
      EntryAt(right, left, k);
      var i := DiffIndices(lk, rk, n)[k];
      DiffAtCarriesLines(left, right, i);
      DiffAtCarriesLines(right, left, i);
    }
  }

  // ---------------------------------------------------------------------
  // Display
  // ---------------------------------------------------------------------

  /** `truncateLine`: the trimmed line when it fits, else its first `width - 3` bytes and "...". */
  function TruncateLine(line: String, width: nat): (r: String)
    requires width >= 3
    ensures |r| <= width
  {
    var t := TrimSpace(line);
    if |t| <= width then t else t[..width - 3] + "..."
  }

  /** A line that fits is only trimmed; a longer one is cut to exactly `width`, ending in "..." after a prefix of the trimmed line. */
  lemma TruncateLineShape(line: String, width: nat)
    requires width >= 3
    ensures var r := TruncateLine(line, width);
      && (|TrimSpace(line)| <= width ==> r == TrimSpace(line))
      && (|TrimSpace(line)| > width ==> |r| == width && HasSuffix(r, "...") && HasPrefix(TrimSpace(line), r[..width - 3]))
  {
  }

  /** The number of rows shown before the rest is summarised. */
  const DisplayCap: nat := 20

  /** The width each cell is cut to. */
  const CellWidth: nat := 36

  /** The two cells of a printed row, each cut to the cell width; a missing side shows a placeholder. */
  function Cells(d: LineDiff): (r: (String, String))
    ensures |r.0| <= CellWidth && |r.1| <= CellWidth
    ensures d.kind == Added ==> r.0 == "(added)"
    ensures d.kind == Removed ==> r.1 == "(removed)"
  {
    match d.kind
    case Changed => (TruncateLine(d.left, CellWidth), TruncateLine(d.right, CellWidth))
    case Removed => (TruncateLine(d.left, CellWidth), "(removed)")
    case Added => ("(added)", TruncateLine(d.right, CellWidth))
  }

  /**
   * The row loop of `printSimpleDiffBytes`: the differences printed as rows
   * (at most twenty, from the front) and the number left out, reported only
   * when the cap is reached; `Cells` gives each printed row.
   */
  method ShownDifferences(diffs: seq<LineDiff>) returns (shown: seq<LineDiff>, more: nat)
    ensures |shown| == if |diffs| > DisplayCap then DisplayCap else |diffs|
    ensures shown == diffs[..|shown|]
    ensures |shown| + more == |diffs|
    ensures more > 0 <==> |diffs| > DisplayCap
  {
    shown := [];
    more := 0;
    var count := 0;
    for i := 0 to |diffs|
      invariant count == |shown| == i <= DisplayCap
      invariant shown == diffs[..i]
    {
      if count >= DisplayCap {
        more := |diffs| - count;
        break;
      }
      shown := shown + [diffs[i]];
      count := count + 1;
    }
  }
}
