/** The swap skeleton of reorderByDistance (src/palette.js:225-268). Round
    `i` picks, among positions `i + 1 ..`, the entry of highest score and
    swaps it into position `i + 1`, unless that position holds a fixed
    entry. The score of the source (the distance to the entries already
    placed, scaled by `rFactor` and multiplied by `qty`) is floating-point
    arithmetic; it is the parameter `score(rFactor, palette, i, j)`. */
module DistanceOrder {
  import opened Entries

  type Score = (real, seq<Entry>, int, int) -> real

  /** The `idx` of the second inner loop after scanning `j` up to `hi`:
      starts at `i + 1` and moves only on a strictly greater score. */
  function Best(rf: real, score: Score, s: seq<Entry>, i: int, hi: int): (r: int)
    requires 0 <= i && i + 1 <= hi
    ensures i + 1 <= r && (hi > i + 1 ==> r < hi)
    decreases hi
  {
    if hi == i + 1 then i + 1
    else
      var b := Best(rf, score, s, i, hi - 1);
      if score(rf, s, i, hi - 1) > score(rf, s, i, b) then hi - 1 else b
  }

  /** No candidate scores strictly higher than the chosen one, and every
      earlier candidate scores strictly lower. */
  lemma {:induction false} BestIsFirstMaximum(rf: real, score: Score, s: seq<Entry>, i: int, hi: int)
    requires 0 <= i && i + 1 < hi
    ensures forall j :: i + 1 <= j < hi ==> score(rf, s, i, j) <= score(rf, s, i, Best(rf, score, s, i, hi))
    ensures forall j :: i + 1 <= j < Best(rf, score, s, i, hi) ==>
              score(rf, s, i, j) < score(rf, s, i, Best(rf, score, s, i, hi))
    decreases hi
  {
    if hi > i + 2 {
      BestIsFirstMaximum(rf, score, s, i, hi - 1);
    }
  }

  function Swap(s: seq<Entry>, a: int, b: int): (r: seq<Entry>)
    requires 0 <= a < |s| && 0 <= b < |s|
    ensures |r| == |s| && multiset(r) == multiset(s)
    ensures r[a] == s[b] && r[b] == s[a]
    ensures forall k :: 0 <= k < |s| && k != a && k != b ==> r[k] == s[k]
  {
    s[a := s[b]][b := s[a]]
  }

  /** Round `i` of the outer loop. */
  function Step(rf: real, score: Score, s: seq<Entry>, i: int): (r: seq<Entry>)
    requires 0 <= i < |s|
    ensures |r| == |s| && multiset(r) == multiset(s)
    ensures forall k :: 0 <= k <= i ==> r[k] == s[k]
  {
    if i + 1 < |s| && s[i + 1].isFixed then s
    else if i + 1 < |s| then
      var idx := Best(rf, score, s, i, |s|);
      if i + 1 != idx then Swap(s, i + 1, idx) else s
    else s
  }

  /** The palette after the first `n` rounds. */
  function Rounds(rf: real, score: Score, s: seq<Entry>, n: nat): (r: seq<Entry>)
    requires n <= |s|
    ensures |r| == |s| && multiset(r) == multiset(s)
  {
    if n == 0 then s else Step(rf, score, Rounds(rf, score, s, n - 1), n - 1)
  }

  /** The reordered palette. */
  function Reordered(rf: real, score: Score, s: seq<Entry>): (r: seq<Entry>)
    ensures |r| == |s| && multiset(r) == multiset(s)
  {
    Rounds(rf, score, s, |s|)
  }

  /** A round keeps the fixed-first layout and leaves every fixed entry in
      its place: when position `i + 1` is free, so is every later one. */
  lemma StepKeepsFixed(rf: real, score: Score, s: seq<Entry>, i: int)
    requires 0 <= i < |s| && FixedFirst(s)
    ensures forall k :: 0 <= k < |s| ==> Step(rf, score, s, i)[k].isFixed == s[k].isFixed
    ensures forall k :: 0 <= k < |s| && s[k].isFixed ==> Step(rf, score, s, i)[k] == s[k]
  {
    if i + 1 < |s| && !s[i + 1].isFixed {
      var idx := Best(rf, score, s, i, |s|);
      assert !s[idx].isFixed;
    }
  }

  lemma {:induction false} RoundsKeepFixed(rf: real, score: Score, s: seq<Entry>, n: nat)
    requires n <= |s| && FixedFirst(s)
    ensures forall k :: 0 <= k < |s| ==> Rounds(rf, score, s, n)[k].isFixed == s[k].isFixed
    ensures forall k :: 0 <= k < |s| && s[k].isFixed ==> Rounds(rf, score, s, n)[k] == s[k]
  {
    if n > 0 {
      RoundsKeepFixed(rf, score, s, n - 1);
      var prev := Rounds(rf, score, s, n - 1);
      SameFlagsFixedFirst(s, prev);
      StepKeepsFixed(rf, score, prev, n - 1);
      var r := Step(rf, score, prev, n - 1);
      assert Rounds(rf, score, s, n) == r;
      forall k | 0 <= k < |s| && s[k].isFixed ensures r[k] == s[k] {
        assert prev[k] == s[k];
      }
    }
  }

  lemma SameFlagsFixedFirst(a: seq<Entry>, b: seq<Entry>)
    requires |a| == |b| && FixedFirst(a)
    requires forall k :: 0 <= k < |a| ==> b[k].isFixed == a[k].isFixed
    ensures FixedFirst(b)
  {
  }

  /** reorderByDistance is a permutation that never moves position 0; on a
      fixed-first palette it keeps every fixed entry where it is, so the
      result is fixed-first too. */
  lemma ReorderedProperties(rf: real, score: Score, s: seq<Entry>)
    ensures |Reordered(rf, score, s)| == |s| && multiset(Reordered(rf, score, s)) == multiset(s)
    ensures |s| > 0 ==> Reordered(rf, score, s)[0] == s[0]
    ensures FixedFirst(s) ==> FixedFirst(Reordered(rf, score, s))
    ensures FixedFirst(s) ==> forall k :: 0 <= k < |s| && s[k].isFixed ==> Reordered(rf, score, s)[k] == s[k]
  {
    if |s| > 0 {
      RoundsKeepFirst(rf, score, s, |s|);
    }
    if FixedFirst(s) {
      RoundsKeepFixed(rf, score, s, |s|);
    }
  }

  lemma {:induction false} RoundsKeepFirst(rf: real, score: Score, s: seq<Entry>, n: nat)
    requires 0 < |s| && n <= |s|
    ensures Rounds(rf, score, s, n)[0] == s[0]
  {
    if n > 0 {
      RoundsKeepFirst(rf, score, s, n - 1);
    }
  }
}
