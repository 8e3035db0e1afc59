/** The order of reorderByQty (src/palette.js:209-217): `Array.prototype.sort`
    with the comparator `Number(b.isFixed) - Number(a.isFixed)`, then
    `b.qty - a.qty`. The sort is stable (ECMAScript 2019 and later), so it is
    modelled as a stable insertion sort. */
module QtySort {
  import opened Entries

  /** The comparator is negative: `a` belongs strictly before `b`. */
  predicate Before(a: Entry, b: Entry) {
    (a.isFixed && !b.isFixed) || (a.isFixed == b.isFixed && a.qty > b.qty)
  }

  /** The comparator is zero: a stable sort keeps such entries in order. */
  predicate SameKey(a: Entry, b: Entry) {
    a.isFixed == b.isFixed && a.qty == b.qty
  }

  predicate Sorted(s: seq<Entry>) {
    forall i, j :: 0 <= i < j < |s| ==> !Before(s[j], s[i])
  }

  /** Puts `x` in front of the first entry that does not strictly precede it. */
  function Insert(x: Entry, t: seq<Entry>): (r: seq<Entry>)
    ensures multiset(r) == multiset{x} + multiset(t)
    ensures |r| == |t| + 1
  {
    if t == [] || !Before(t[0], x) then [x] + t
    else
      assert t == [t[0]] + t[1..];
      [t[0]] + Insert(x, t[1..])
  }

  function SortByQty(s: seq<Entry>): (r: seq<Entry>)
    ensures multiset(r) == multiset(s)
    ensures |r| == |s|
  {
    if s == [] then []
    else
      assert s == [s[0]] + s[1..];
      Insert(s[0], SortByQty(s[1..]))
  }

  lemma {:induction false} InsertSorted(x: Entry, t: seq<Entry>)
    requires Sorted(t)
    ensures Sorted(Insert(x, t))
  {
    if t != [] && Before(t[0], x) {
      InsertSorted(x, t[1..]);
      var r := Insert(x, t);
      var rest := Insert(x, t[1..]);
      assert r == [t[0]] + rest;
      assert multiset(rest) == multiset{x} + multiset(t[1..]);
      forall j | 1 <= j < |r| ensures !Before(r[j], r[0]) {
        assert r[j] == rest[j - 1];
        assert r[j] in multiset(rest);
        if r[j] != x {
          assert r[j] in multiset(t[1..]);
          var m :| 0 <= m < |t[1..]| && t[1..][m] == r[j];
          assert t[m + 1] == r[j];
        }
      }
    }
  }

  /** The result is ordered: fixed entries first, then non-increasing `qty`. */
  lemma {:induction false} SortByQtySorted(s: seq<Entry>)
    ensures Sorted(SortByQty(s))
  {
    if s != [] {
      SortByQtySorted(s[1..]);
      InsertSorted(s[0], SortByQty(s[1..]));
    }
  }

  /** The entries of `s` that compare equal to `k`, in order. */
  function WithKey(s: seq<Entry>, k: Entry): (r: seq<Entry>)
    ensures |r| <= |s|
  {
    if s == [] then [] else (if SameKey(s[0], k) then [s[0]] else []) + WithKey(s[1..], k)
  }

  lemma {:induction false} InsertWithKey(x: Entry, t: seq<Entry>, k: Entry)
    ensures WithKey(Insert(x, t), k) == (if SameKey(x, k) then [x] else []) + WithKey(t, k)
  {
    if t != [] && Before(t[0], x) {
      InsertWithKey(x, t[1..], k);
      assert Insert(x, t)[1..] == Insert(x, t[1..]);
      if SameKey(x, k) {
        assert !SameKey(t[0], k);
      }
    } else {
      assert ([x] + t)[1..] == t;
    }
  }

  /** Stability: the entries of each key keep their relative order. */
  lemma {:induction false} SortByQtyStable(s: seq<Entry>, k: Entry)
    ensures WithKey(SortByQty(s), k) == WithKey(s, k)
  {
    if s != [] {
      SortByQtyStable(s[1..], k);
      InsertWithKey(s[0], SortByQty(s[1..]), k);
    }
  }

  /** What sortedness means for the palette: fixed entries first, and `qty`
      non-increasing among entries with the same flag. */
  lemma SortedGroups(s: seq<Entry>)
    requires Sorted(s)
    ensures FixedFirst(s)
    ensures forall i, j :: 0 <= i < j < |s| && s[i].isFixed == s[j].isFixed ==> s[i].qty >= s[j].qty
  {
  }

  /** An ordered input is left as it is. */
  lemma {:induction false} SortByQtyOfSorted(s: seq<Entry>)
    requires Sorted(s)
    ensures SortByQty(s) == s
  {
    if s != [] {
      assert Sorted(s[1..]);
      SortByQtyOfSorted(s[1..]);
      if |s| > 1 {
        assert !Before(s[1], s[0]);
      }
    }
  }
}
