/** Array-method analogues used throughout the dashboard: `filter` and a
    stable sort by a numeric key in descending order, the latter being what
    `sort((a, b) => key(b) - key(a))` computes on an engine whose sort is
    stable. */
module Lists {

  /** `s.filter(keep)`: the elements satisfying `keep`, in their order. */
  function Filter<T(!new)>(s: seq<T>, keep: T -> bool): (r: seq<T>)
    ensures |r| <= |s|
    ensures forall x :: x in r <==> x in s && keep(x)
  {
    if s == [] then []
    else (if keep(s[0]) then [s[0]] else []) + Filter(s[1..], keep)
  }

  /** A filter keeps every occurrence of an element it accepts and none of
      one it rejects: its output is a sub-multiset of its input. */
  lemma {:induction false} FilterMultiset<T(!new)>(s: seq<T>, keep: T -> bool, x: T)
    ensures multiset(Filter(s, keep))[x] == if keep(x) then multiset(s)[x] else 0
  {
    if s != [] {
      assert s == [s[0]] + s[1..];
      FilterMultiset(s[1..], keep, x);
    }
  }

  /** Filtering a concatenation filters each part and keeps them in order;
      so a filter never reorders what it keeps. */
  lemma {:induction false} FilterAppend<T(!new)>(s: seq<T>, t: seq<T>, keep: T -> bool)
    ensures Filter(s + t, keep) == Filter(s, keep) + Filter(t, keep)
  {
    if s == [] {
      assert s + t == t;
    } else {
      assert (s + t)[1..] == s[1..] + t;
      FilterAppend(s[1..], t, keep);
    }
  }

  /** A filter that keeps every element returns its input unchanged. */
  lemma {:induction false} FilterKeepsAll<T(!new)>(s: seq<T>, keep: T -> bool)
    requires forall x :: x in s ==> keep(x)
    ensures Filter(s, keep) == s
  {
    if s != [] {
      FilterKeepsAll(s[1..], keep);
    }
  }

  /** A filter that keeps no element of its input returns nothing. */
  lemma {:induction false} FilterKeepsNone<T(!new)>(s: seq<T>, keep: T -> bool)
    requires forall x :: x in s ==> !keep(x)
    ensures Filter(s, keep) == []
  {
    if s != [] {
      FilterKeepsNone(s[1..], keep);
    }
  }

  /** Two filters in a row are one filter on the conjunction. */
  lemma {:induction false} FilterTwice<T(!new)>(s: seq<T>, f: T -> bool, g: T -> bool, both: T -> bool)
    requires forall x :: both(x) == (f(x) && g(x))
    ensures Filter(Filter(s, f), g) == Filter(s, both)
  {
    if s != [] {
      FilterTwice(s[1..], f, g, both);
      if f(s[0]) {
        assert Filter(s, f) == [s[0]] + Filter(s[1..], f);
        assert Filter(s, f)[1..] == Filter(s[1..], f);
      } else {
        assert Filter(s, f) == Filter(s[1..], f);
      }
    }
  }

  /** `r` is a subsequence of `s`, picked out by the strictly increasing
      positions `idx`. */
  ghost predicate Embeds<T>(idx: seq<int>, r: seq<T>, s: seq<T>) {
    && |idx| == |r|
    && (forall i :: 0 <= i < |idx| ==> 0 <= idx[i] < |s| && s[idx[i]] == r[i])
    && (forall i, j :: 0 <= i < j < |idx| ==> idx[i] < idx[j])
  }

  function Shift(idx: seq<int>): (r: seq<int>)
    ensures |r| == |idx| && forall i :: 0 <= i < |idx| ==> r[i] == idx[i] + 1
  {
    seq(|idx|, i requires 0 <= i < |idx| => idx[i] + 1)
  }

  /** The positions of the elements a filter keeps. */
  function FilterIndices<T>(s: seq<T>, keep: T -> bool): seq<int> {
    if s == [] then [] else (if keep(s[0]) then [0] else []) + Shift(FilterIndices(s[1..], keep))
  }

  /** Filtering keeps relative order: what it keeps is a subsequence of the
      input, at the positions `FilterIndices` lists. */
  lemma {:induction false} FilterEmbeds<T(!new)>(s: seq<T>, keep: T -> bool)
    ensures Embeds(FilterIndices(s, keep), Filter(s, keep), s)
  {
    if s != [] {
      var t := FilterIndices(s[1..], keep);
      var rest := Filter(s[1..], keep);
      FilterEmbeds(s[1..], keep);
      ShiftEmbeds(t, rest, s);
      if keep(s[0]) {
        assert Filter(s, keep) == [s[0]] + rest;
        assert FilterIndices(s, keep) == [0] + Shift(t);
        ConsEmbeds(Shift(t), rest, s);
      } else {
        assert Filter(s, keep) == rest;
        assert FilterIndices(s, keep) == Shift(t);
      }
    }
  }

  lemma {:induction false} ShiftEmbeds<T>(t: seq<int>, r: seq<T>, s: seq<T>)
    requires s != [] && Embeds(t, r, s[1..])
    ensures Embeds(Shift(t), r, s)
    ensures forall i :: 0 <= i < |t| ==> Shift(t)[i] >= 1
  {
    var m := Shift(t);
    forall i | 0 <= i < |m| ensures 0 <= m[i] < |s| && s[m[i]] == r[i] {
      assert s[m[i]] == s[1..][t[i]];
    }
  }

  lemma {:induction false} ConsEmbeds<T>(m: seq<int>, r: seq<T>, s: seq<T>)
    requires s != [] && Embeds(m, r, s)
    requires forall i :: 0 <= i < |m| ==> m[i] >= 1
    ensures Embeds([0] + m, [s[0]] + r, s)
  {
    var idx, q := [0] + m, [s[0]] + r;
    forall i | 0 <= i < |idx| ensures 0 <= idx[i] < |s| && s[idx[i]] == q[i] {
      if i > 0 {
        assert idx[i] == m[i - 1] && q[i] == r[i - 1];
      }
    }
    forall i, j | 0 <= i < j < |idx| ensures idx[i] < idx[j] {
      if i > 0 {
        assert idx[i] == m[i - 1] && idx[j] == m[j - 1];
      }
    }
  }

  /** `s.map(f)`. */
  function Map<T, U>(s: seq<T>, f: T -> U): (r: seq<U>)
    ensures |r| == |s|
    ensures forall i :: 0 <= i < |s| ==> r[i] == f(s[i])
  {
    if s == [] then [] else [f(s[0])] + Map(s[1..], f)
  }

  lemma {:induction false} MapAppend<T, U>(s: seq<T>, t: seq<T>, f: T -> U)
    ensures Map(s + t, f) == Map(s, f) + Map(t, f)
  {
    if s != [] {
      assert (s + t)[1..] == s[1..] + t;
      MapAppend(s[1..], t, f);
    }
  }

  /** Mapping two sequences that hold the same elements gives two sequences
      that hold the same images. */
  lemma {:induction false} MapPermutation<T, U>(s: seq<T>, t: seq<T>, f: T -> U)
    requires multiset(s) == multiset(t)
    ensures multiset(Map(s, f)) == multiset(Map(t, f))
    decreases |s|
  {
    if s == [] {
      assert |t| == |multiset(t)| == 0;
    } else {
      var x := s[0];
      assert s == [x] + s[1..];
      assert x in multiset(t);
      var k :| 0 <= k < |t| && t[k] == x;
      var rest := t[..k] + t[k + 1..];
      MapRemove(t, k, f);
      CancelOne(x, multiset(s[1..]), multiset(rest));
      MapPermutation(s[1..], rest, f);
      assert Map(s, f) == [f(x)] + Map(s[1..], f);
    }
  }

  /** Taking one element out of a sequence takes its image out of the
      mapped sequence. */
  lemma {:induction false} MapRemove<T, U>(t: seq<T>, k: int, f: T -> U)
    requires 0 <= k < |t|
    ensures multiset(t) == multiset{t[k]} + multiset(t[..k] + t[k + 1..])
    ensures multiset(Map(t, f)) == multiset{f(t[k])} + multiset(Map(t[..k] + t[k + 1..], f))
  {
    var a, x, b := t[..k], t[k], t[k + 1..];
    assert t == a + [x] + b;
    assert multiset(t) == multiset(a) + multiset{x} + multiset(b);
    assert multiset(a + b) == multiset(a) + multiset(b);
    MapAppend(a + [x], b, f);
    MapAppend(a, [x], f);
    MapAppend(a, b, f);
    var ma, mb := Map(a, f), Map(b, f);
    assert Map(t, f) == ma + [f(x)] + mb;
    assert Map(a + b, f) == ma + mb;
    assert multiset(ma + [f(x)] + mb) == multiset(ma) + multiset{f(x)} + multiset(mb);
    assert multiset(ma + mb) == multiset(ma) + multiset(mb);
  }

  lemma {:induction false} CancelOne<T>(x: T, a: multiset<T>, b: multiset<T>)
    requires multiset{x} + a == multiset{x} + b
    ensures a == b
  {
    forall y ensures a[y] == b[y] {
      assert (multiset{x} + a)[y] == (multiset{x} + b)[y];
    }
  }

  /** Counting by a condition that is either of two exclusive conditions
      adds their counts. */
  lemma {:induction false} FilterCountSplit<T(!new)>(s: seq<T>, either: T -> bool, f: T -> bool, g: T -> bool)
    requires forall x :: either(x) == (f(x) || g(x)) && !(f(x) && g(x))
    ensures |Filter(s, either)| == |Filter(s, f)| + |Filter(s, g)|
  {
    if s != [] {
      FilterCountSplit(s[1..], either, f, g);
    }
  }

  ghost predicate NonIncreasing<T>(s: seq<T>, key: T -> real) {
    forall i, j :: 0 <= i < j < |s| ==> key(s[i]) >= key(s[j])
  }

  /** Places `x` in front of the first element whose key does not exceed
      its own. */
  function Insert<T(!new)>(x: T, s: seq<T>, key: T -> real): (r: seq<T>)
    ensures multiset(r) == multiset(s) + multiset{x}
  {
    if s == [] then [x]
    else if key(x) >= key(s[0]) then [x] + s
    else
      assert s == [s[0]] + s[1..];
      [s[0]] + Insert(x, s[1..], key)
  }

  /** Inserting into a non-increasing sequence keeps it non-increasing. */
  lemma {:induction false} InsertSorted<T(!new)>(x: T, s: seq<T>, key: T -> real)
    requires NonIncreasing(s, key)
    ensures NonIncreasing(Insert(x, s, key), key)
  {
    if s == [] {
    } else if key(x) >= key(s[0]) {
      forall y | y in s ensures key(x) >= key(y) {
        var m :| 0 <= m < |s| && s[m] == y;
      }
      ConsSorted(x, s, key);
    } else {
      var rest := Insert(x, s[1..], key);
      InsertSorted(x, s[1..], key);
      forall y | y in rest ensures key(s[0]) >= key(y) {
        assert y in multiset(rest);
        if y != x {
          assert y in multiset(s[1..]);
          var m :| 0 <= m < |s[1..]| && s[1..][m] == y;
          assert s[m + 1] == y;
        }
      }
      ConsSorted(s[0], rest, key);
    }
  }

  lemma ConsSorted<T>(h: T, t: seq<T>, key: T -> real)
    requires NonIncreasing(t, key)
    requires forall y :: y in t ==> key(h) >= key(y)
    ensures NonIncreasing([h] + t, key)
  {
    var r := [h] + t;
    forall i, j | 0 <= i < j < |r| ensures key(r[i]) >= key(r[j]) {
      assert r[j] == t[j - 1] && r[j] in t;
      if i > 0 {
        assert r[i] == t[i - 1];
      }
    }
  }

  /** A stable descending sort by `key`: elements with equal keys keep
      their input order (see SortDescendingStable). */
  function SortDescending<T(!new)>(s: seq<T>, key: T -> real): (r: seq<T>)
    ensures multiset(r) == multiset(s)
    ensures |r| == |s|
    ensures NonIncreasing(r, key)
  {
    if s == [] then []
    else
      assert s == [s[0]] + s[1..];
      assert |multiset(s)| == |s|;
      var r := Insert(s[0], SortDescending(s[1..], key), key);
      assert |multiset(r)| == |r|;
      InsertSorted(s[0], SortDescending(s[1..], key), key);
      r
  }

  function HasKey<T(!new)>(key: T -> real, k: real): T -> bool {
    x => key(x) == k
  }

  /** The head of a sequence goes first among the elements it keeps. */
  lemma FilterCons<T(!new)>(x: T, s: seq<T>, keep: T -> bool)
    ensures Filter([x] + s, keep) == (if keep(x) then [x] else []) + Filter(s, keep)
  {
    assert ([x] + s)[1..] == s;
  }

  lemma {:induction false} InsertKeepsKeyClass<T(!new)>(x: T, s: seq<T>, key: T -> real, k: real)
    ensures Filter(Insert(x, s, key), HasKey(key, k))
         == (if key(x) == k then [x] else []) + Filter(s, HasKey(key, k))
  {
    var p := HasKey(key, k);
    if s == [] {
    } else if key(x) >= key(s[0]) {
      FilterCons(x, s, p);
    } else {
      InsertKeepsKeyClass(x, s[1..], key, k);
      FilterCons(s[0], Insert(x, s[1..], key), p);
      assert s == [s[0]] + s[1..];
      FilterCons(s[0], s[1..], p);
    }
  }

  /** Stability: among elements with an equal key, the sorted output lists
      them in exactly their input order. */
  lemma {:induction false} SortDescendingStable<T(!new)>(s: seq<T>, key: T -> real, k: real)
    ensures Filter(SortDescending(s, key), HasKey(key, k)) == Filter(s, HasKey(key, k))
  {
    if s != [] {
      SortDescendingStable(s[1..], key, k);
      InsertKeepsKeyClass(s[0], SortDescending(s[1..], key), key, k);
    }
  }

  /** What a sort comparator must be for `sort` to have a defined result:
      swapping the arguments of a positive comparison gives a negative one,
      and "may come first" (a non-positive comparison) is transitive. */
  ghost predicate Consistent<T(!new)>(cmp: (T, T) -> int) {
    && (forall x, y :: cmp(x, y) > 0 ==> cmp(y, x) < 0)
    && (forall x, y, z {:trigger Chained(cmp, x, y, z)} :: Chained(cmp, x, y, z) ==> cmp(x, z) <= 0)
  }

  /** `x` may come before `y`, and `y` before `z`. */
  ghost predicate Chained<T>(cmp: (T, T) -> int, x: T, y: T, z: T) {
    cmp(x, y) <= 0 && cmp(y, z) <= 0
  }

  ghost predicate SortedBy<T>(s: seq<T>, cmp: (T, T) -> int) {
    forall i, j :: 0 <= i < j < |s| ==> cmp(s[i], s[j]) <= 0
  }

  /** `a.sort(cmp)` for a consistent comparator, as an in-place insertion
      sort: afterwards every earlier element may come before every later
      one, and the array holds the same elements. */
  method SortInPlace<T(!new)>(a: array<T>, cmp: (T, T) -> int)
    requires Consistent(cmp)
    modifies a
    ensures SortedBy(a[..], cmp)
    ensures multiset(a[..]) == multiset(old(a[..]))
  {
    var i := 0;
    while i < a.Length
      invariant 0 <= i <= a.Length
      invariant forall p, q :: 0 <= p < q < i ==> cmp(a[p], a[q]) <= 0
      invariant multiset(a[..]) == multiset(old(a[..]))
    {
      InsertStep(a, i, cmp);
      i := i + 1;
    }
    assert a[..] == a[..a.Length];
  }

  /** One pass of insertion sort: moves `a[i]` left into the sorted prefix
      `a[..i]` by adjacent swaps. */
  method InsertStep<T(!new)>(a: array<T>, i: nat, cmp: (T, T) -> int)
    requires Consistent(cmp)
    requires i < a.Length
    requires forall p, q :: 0 <= p < q < i ==> cmp(a[p], a[q]) <= 0
    modifies a
    ensures forall p, q :: 0 <= p < q <= i ==> cmp(a[p], a[q]) <= 0
    ensures multiset(a[..]) == multiset(old(a[..]))
  {
    var j: nat := i;
    while j > 0 && cmp(a[j - 1], a[j]) > 0
      invariant InsertionInvariant(a[..], i, j, cmp)
      invariant multiset(a[..]) == multiset(old(a[..]))
    {
      ghost var before := a[..];
      Swap(a, j - 1, j);
      SwapKeepsInvariant(before, i, j, cmp);
      j := j - 1;
    }
    InsertionDone(a[..], i, j, cmp);
  }

  /** Exchanges two elements of the array. */
  method Swap<T>(a: array<T>, i: nat, j: nat)
    requires i < j < a.Length
    modifies a
    ensures a[..] == old(a[..])[i := old(a[j])][j := old(a[i])]
    ensures multiset(a[..]) == multiset(old(a[..]))
  {
    a[i], a[j] := a[j], a[i];
  }

  /** While `a[i]`'s value travels left to position `j`: the rest of
      `a[..i + 1]` is in order, everything behind it may follow it, and its
      two neighbours are in order with each other. */
  ghost predicate InsertionInvariant<T>(s: seq<T>, i: nat, j: nat, cmp: (T, T) -> int) {
    && j <= i < |s|
    && (forall p, q :: 0 <= p < q <= i && p != j && q != j ==> cmp(s[p], s[q]) <= 0)
    && (forall q :: j < q <= i ==> cmp(s[j], s[q]) <= 0)
    && (0 < j < i ==> cmp(s[j - 1], s[j + 1]) <= 0)
  }

  lemma SwapKeepsInvariant<T(!new)>(s: seq<T>, i: nat, j: nat, cmp: (T, T) -> int)
    requires Consistent(cmp)
    requires InsertionInvariant(s, i, j, cmp) && 0 < j && cmp(s[j - 1], s[j]) > 0
    ensures InsertionInvariant(s[j - 1 := s[j]][j := s[j - 1]], i, j - 1, cmp)
  {
    assert cmp(s[j], s[j - 1]) < 0;
  }

  lemma InsertionDone<T(!new)>(s: seq<T>, i: nat, j: nat, cmp: (T, T) -> int)
    requires Consistent(cmp)
    requires InsertionInvariant(s, i, j, cmp) && (j == 0 || cmp(s[j - 1], s[j]) <= 0)
    ensures forall p, q :: 0 <= p < q <= i ==> cmp(s[p], s[q]) <= 0
  {
    forall p | 0 <= p < j - 1 ensures cmp(s[p], s[j]) <= 0 {
      assert Chained(cmp, s[p], s[j - 1], s[j]);
    }
  }
}
