/** The two interpolated percentiles, of the load tester and of the benchmark, over exact
    reals. `None` stands for NaN. */
module Percentile {
  import opened Prelude

  ghost predicate Ordered(s: seq<real>) {
    forall i, j :: 0 <= i <= j < |s| ==> s[i] <= s[j]
  }

  function Insert(x: real, s: seq<real>): seq<real> {
    if s == [] then [x] else if x <= s[0] then [x] + s else [s[0]] + Insert(x, s[1..])
  }

  function Sort(s: seq<real>): seq<real> {
    if s == [] then [] else Insert(s[0], Sort(s[1..]))
  }

  function Ceil(k: real): (c: int)
    ensures k.Floor <= c <= k.Floor + 1
    ensures c == k.Floor <==> k == k.Floor as real
    ensures c as real - 1.0 < k <= c as real
  {
    -((-k).Floor)
  }

  function Fraction(pct: real): (q: real)
    requires 0.0 <= pct <= 100.0
    ensures 0.0 <= q <= 1.0
  {
    pct / 100.0
  }

  function Times(a: real, b: real): real {
    a * b
  }

  // The fractional rank of a percentage in a list of n.
  function Rank(n: nat, pct: real): (k: real)
    requires n > 0 && 0.0 <= pct <= 100.0
    ensures 0.0 <= k <= (n - 1) as real
  {
    ScaleBounds((n - 1) as real, Fraction(pct));
    Times((n - 1) as real, Fraction(pct))
  }

  // scripts: sorts, then picks or interpolates.
  function LoadTest(values: seq<real>, pct: real): Option<real>
    requires 0.0 <= pct <= 100.0
  {
    if values == [] then None
    else
      SortLength(values);
      var ordered := Sort(values);
      if |ordered| == 1 then Some(ordered[0])
      else
        var k := Rank(|ordered|, pct);
        var lo, hi := k.Floor, Ceil(k);
        if lo == hi then Some(ordered[k.Floor])
        else Some(ordered[lo] + (ordered[hi] - ordered[lo]) * (k - lo as real))
  }

  // bench: the caller hands in a sorted slice.
  function Bench(sorted: seq<real>, pct: real): Option<real>
    requires 0.0 <= pct <= 100.0
  {
    if |sorted| == 0 then None
    else if |sorted| == 1 then Some(sorted[0])
    else
      var k := Rank(|sorted|, pct);
      var lo, hi := k.Floor, Ceil(k);
      if lo == hi then Some(sorted[lo])
      else Some(sorted[lo] + (sorted[hi] - sorted[lo]) * (k - lo as real))
  }

  lemma ScaleBounds(x: real, q: real)
    requires 0.0 <= x && 0.0 <= q <= 1.0
    ensures 0.0 <= Times(x, q) <= x
  {
    Multiply(x, 0.0, q);
    Multiply(x, q, 1.0);
  }

  lemma Multiply(d: real, x: real, y: real)
    requires 0.0 <= d && x <= y
    ensures Times(d, x) <= Times(d, y)
  {
    assert 0.0 <= d * (y - x);
    assert d * (y - x) == d * y - d * x;
  }

  // ---------------------------------------------------------------- sorting

  lemma {:induction false} InsertLength(x: real, s: seq<real>)
    ensures |Insert(x, s)| == |s| + 1
  {
    if s != [] {
      InsertLength(x, s[1..]);
    }
  }

  lemma {:induction false} SortLength(s: seq<real>)
    ensures |Sort(s)| == |s|
  {
    if s != [] {
      SortLength(s[1..]);
      InsertLength(s[0], Sort(s[1..]));
    }
  }

  lemma {:induction false} InsertMembers(x: real, s: seq<real>)
    ensures multiset(Insert(x, s)) == multiset(s) + multiset{x}
  {
    if s == [] {
    } else if x <= s[0] {
      assert multiset([x] + s) == multiset{x} + multiset(s);
    } else {
      InsertMembers(x, s[1..]);
      assert s == [s[0]] + s[1..];
    }
  }

  // Sortedness by neighbours, the form the insertion keeps.
  ghost predicate Ascending(s: seq<real>) {
    |s| > 1 ==> s[0] <= s[1] && Ascending(s[1..])
  }

  lemma {:induction false} InsertAscending(x: real, s: seq<real>)
    requires Ascending(s)
    ensures Ascending(Insert(x, s)) && Insert(x, s) != []
    ensures s != [] ==> Insert(x, s)[0] == if x <= s[0] then x else s[0]
  {
    if s == [] {
    } else if x <= s[0] {
      assert ([x] + s)[1..] == s;
    } else {
      InsertAscending(x, s[1..]);
      assert ([s[0]] + Insert(x, s[1..]))[1..] == Insert(x, s[1..]);
    }
  }

  lemma {:induction false} AscendingIsOrdered(s: seq<real>)
    requires Ascending(s)
    ensures Ordered(s)
  {
    if |s| > 1 {
      AscendingIsOrdered(s[1..]);
      assert forall i :: 1 <= i < |s| ==> s[i] == s[1..][i - 1];
    }
  }

  lemma {:induction false} SortAscending(s: seq<real>)
    ensures Ascending(Sort(s))
  {
    if s != [] {
      SortAscending(s[1..]);
      InsertAscending(s[0], Sort(s[1..]));
    }
  }

  lemma {:induction false} SortMembers(s: seq<real>)
    ensures multiset(Sort(s)) == multiset(s)
  {
    if s != [] {
      SortMembers(s[1..]);
      InsertMembers(s[0], Sort(s[1..]));
      assert s == [s[0]] + s[1..];
    }
  }

  lemma SortSpec(s: seq<real>)
    ensures Ordered(Sort(s)) && multiset(Sort(s)) == multiset(s) && |Sort(s)| == |s|
  {
    SortAscending(s);
    SortMembers(s);
    AscendingIsOrdered(Sort(s));
    SortLength(s);
  }

  lemma SameSize(a: seq<real>, b: seq<real>)
    requires multiset(a) == multiset(b)
    ensures |a| == |b|
  {
    assert |multiset(a)| == |a| && |multiset(b)| == |b|;
  }

  lemma HeadIsLeast(a: seq<real>, x: real)
    requires Ordered(a) && x in multiset(a)
    ensures a != [] && a[0] <= x
  {
  }

  lemma DropHead(a: seq<real>)
    requires a != []
    ensures multiset(a[1..]) == multiset(a) - multiset{a[0]}
  {
    assert a == [a[0]] + a[1..];
  }

  lemma SameHead(a: seq<real>, b: seq<real>)
    requires Ordered(a) && Ordered(b) && multiset(a) == multiset(b) && a != []
    ensures b != [] && a[0] == b[0] && multiset(a[1..]) == multiset(b[1..])
  {
    SameSize(a, b);
    assert a[0] in multiset(a) && b[0] in multiset(b);
    HeadIsLeast(b, a[0]);
    HeadIsLeast(a, b[0]);
    DropHead(a);
    DropHead(b);
  }

  lemma Rebuild(a: seq<real>, b: seq<real>)
    requires a != [] && b != [] && a[0] == b[0] && a[1..] == b[1..]
    ensures a == b
  {
  }

  // A list has one sorted arrangement.
  lemma {:induction false} OrderedUnique(a: seq<real>, b: seq<real>)
    requires Ordered(a) && Ordered(b) && multiset(a) == multiset(b)
    ensures a == b
    decreases |a|
  {
    if a == [] {
      SameSize(a, b);
    } else {
      SameHead(a, b);
      TailOrdered(a);
      TailOrdered(b);
      OrderedUnique(a[1..], b[1..]);
      Rebuild(a, b);
    }
  }

  lemma TailOrdered(a: seq<real>)
    requires Ordered(a) && a != []
    ensures Ordered(a[1..])
  {
  }

  // ---------------------------------------------------------------- the theorems

  // The two implementations agree: the load tester's on any list is the benchmark's on
  // that list sorted, however it was sorted.
  lemma ImplementationsAgree(values: seq<real>, sorted: seq<real>, pct: real)
    requires 0.0 <= pct <= 100.0 && Ordered(sorted) && multiset(sorted) == multiset(values)
    ensures LoadTest(values, pct) == Bench(sorted, pct)
  {
    SortSpec(values);
    OrderedUnique(Sort(values), sorted);
    if |sorted| > 1 {
      var k := Rank(|sorted|, pct);
      assert values != [];
    }
  }

  // The order in which the samples came does not matter.
  lemma OrderIndependent(values: seq<real>, shuffled: seq<real>, pct: real)
    requires 0.0 <= pct <= 100.0 && multiset(values) == multiset(shuffled)
    ensures LoadTest(values, pct) == LoadTest(shuffled, pct)
  {
    SortSpec(shuffled);
    ImplementationsAgree(values, Sort(shuffled), pct);
    ImplementationsAgree(shuffled, Sort(shuffled), pct);
  }

  // The interpolated value at rank k.
  function At(s: seq<real>, k: real): real
    requires |s| > 0 && 0.0 <= k <= (|s| - 1) as real
  {
    var lo, hi := k.Floor, Ceil(k);
    if lo == hi then s[lo] else s[lo] + (s[hi] - s[lo]) * (k - lo as real)
  }

  lemma BenchIsAt(s: seq<real>, pct: real)
    requires |s| > 0 && 0.0 <= pct <= 100.0
    ensures Bench(s, pct) == Some(At(s, Rank(|s|, pct)))
  {
  }

  lemma AtBetweenNeighbours(s: seq<real>, k: real)
    requires Ordered(s) && |s| > 0 && 0.0 <= k <= (|s| - 1) as real
    ensures s[k.Floor] <= At(s, k) <= s[Ceil(k)]
  {
    ScaleBounds(s[Ceil(k)] - s[k.Floor], k - k.Floor as real);
  }

  lemma AtMonotone(s: seq<real>, j: real, k: real)
    requires Ordered(s) && |s| > 0 && 0.0 <= j <= k <= (|s| - 1) as real
    ensures At(s, j) <= At(s, k)
  {
    AtBetweenNeighbours(s, j);
    AtBetweenNeighbours(s, k);
    if j.Floor == k.Floor {
      if Ceil(j) == Ceil(k) {
        var lo := k.Floor;
        var d, x, y := s[Ceil(k)] - s[lo], j - lo as real, k - lo as real;
        SameSegment(s[lo], d, x, y);
        assert lo != Ceil(k) ==> At(s, j) == s[lo] + d * x && At(s, k) == s[lo] + d * y;
      }
    } else {
      assert Ceil(j) <= k.Floor;
    }
  }

  lemma SameSegment(base: real, d: real, x: real, y: real)
    requires 0.0 <= d && x <= y
    ensures base + Times(d, x) <= base + Times(d, y)
  {
    Multiply(d, x, y);
  }

  // Between the smallest and the largest sample.
  lemma WithinRange(values: seq<real>, pct: real)
    requires values != [] && 0.0 <= pct <= 100.0
    ensures LoadTest(values, pct).Some?
    ensures exists i, j :: 0 <= i < |values| && 0 <= j < |values| && values[i] <= LoadTest(values, pct).value <= values[j]
  {
    SortSpec(values);
    var s := Sort(values);
    ImplementationsAgree(values, s, pct);
    BenchIsAt(s, pct);
    var k := Rank(|s|, pct);
    AtBetweenNeighbours(s, k);
    var i := IndexOf(values, s, k.Floor);
    var j := IndexOf(values, s, Ceil(k));
    assert values[i] <= LoadTest(values, pct).value <= values[j];
  }

  lemma IndexOf(values: seq<real>, s: seq<real>, k: nat) returns (i: nat)
    requires multiset(s) == multiset(values) && k < |s|
    ensures i < |values| && values[i] == s[k]
  {
    assert s[k] in multiset(s);
    i :| 0 <= i < |values| && values[i] == s[k];
  }

  lemma FractionMonotone(p: real, q: real)
    requires 0.0 <= p <= q <= 100.0
    ensures Fraction(p) <= Fraction(q)
  {
  }

  lemma RankMonotone(n: nat, p: real, q: real)
    requires n > 0 && 0.0 <= p <= q <= 100.0
    ensures Rank(n, p) <= Rank(n, q)
  {
    FractionMonotone(p, q);
    Multiply((n - 1) as real, Fraction(p), Fraction(q));
  }

  // A larger percentage never gives a smaller value, also across interpolation segments.
  lemma MonotoneInPct(values: seq<real>, p: real, q: real)
    requires values != [] && 0.0 <= p <= q <= 100.0
    ensures LoadTest(values, p).Some? && LoadTest(values, q).Some?
    ensures LoadTest(values, p).value <= LoadTest(values, q).value
  {
    SortSpec(values);
    var s := Sort(values);
    ImplementationsAgree(values, s, p);
    ImplementationsAgree(values, s, q);
    BenchIsAt(s, p);
    BenchIsAt(s, q);
    RankMonotone(|s|, p, q);
    AtMonotone(s, Rank(|s|, p), Rank(|s|, q));
  }

  // ---------------------------------------------------------------- the value

  // `v` is the percentile of the ordered list `s`: the single element; or, between the two
  // neighbours k and k + 1 whose own percentages enclose `pct`, the value proportionally
  // between theirs.
  ghost predicate IsPercentile(s: seq<real>, pct: real, v: real) {
    && |s| > 0
    && (|s| == 1 ==> v == s[0])
    && (forall k: nat :: k + 1 < |s| && Encloses(|s| - 1, pct, k) ==> v == Between(s[k], s[k + 1], (|s| - 1) as real * pct / 100.0 - k as real))
  }

  ghost predicate Encloses(last: nat, pct: real, k: nat) {
    k as real * 100.0 <= last as real * pct <= (k + 1) as real * 100.0
  }

  ghost function Between(a: real, b: real, share: real): real {
    a + (b - a) * share
  }

  lemma RankIs(n: nat, pct: real)
    requires n > 0 && 0.0 <= pct <= 100.0
    ensures Rank(n, pct) == (n - 1) as real * pct / 100.0
  {
    Divide((n - 1) as real, pct);
  }

  lemma Divide(x: real, pct: real)
    ensures x * (pct / 100.0) == x * pct / 100.0
  {
  }

  lemma AtBetween(s: seq<real>, rank: real, k: nat)
    requires k + 1 < |s| && k as real <= rank <= (k + 1) as real
    ensures 0.0 <= rank <= (|s| - 1) as real && At(s, rank) == Between(s[k], s[k + 1], rank - k as real)
  {
    if rank == (k + 1) as real {
      assert rank - k as real == 1.0;
    } else {
      assert rank.Floor == k;
    }
  }

  lemma EnclosesRank(last: nat, pct: real, k: nat, rank: real)
    requires rank == last as real * pct / 100.0 && Encloses(last, pct, k)
    ensures k as real <= rank <= (k + 1) as real
  {
  }

  lemma AtIsPercentile(s: seq<real>, pct: real, rank: real)
    requires |s| > 0 && 0.0 <= rank <= (|s| - 1) as real && rank == (|s| - 1) as real * pct / 100.0
    ensures IsPercentile(s, pct, At(s, rank))
  {
    forall k: nat | k + 1 < |s| && Encloses(|s| - 1, pct, k)
      ensures At(s, rank) == Between(s[k], s[k + 1], (|s| - 1) as real * pct / 100.0 - k as real)
    {
      EnclosesRank(|s| - 1, pct, k, rank);
      AtBetween(s, rank, k);
    }
  }

  lemma BenchIs(s: seq<real>, pct: real)
    requires s != [] && 0.0 <= pct <= 100.0
    ensures Bench(s, pct).Some? && IsPercentile(s, pct, Bench(s, pct).value)
  {
    BenchIsAt(s, pct);
    RankIs(|s|, pct);
    AtIsPercentile(s, pct, Rank(|s|, pct));
  }

  // What both implementations compute, for every list, percentage and arrangement.
  lemma PercentileIs(values: seq<real>, s: seq<real>, pct: real)
    requires values != [] && 0.0 <= pct <= 100.0 && Ordered(s) && multiset(s) == multiset(values)
    ensures LoadTest(values, pct).Some? && Bench(s, pct) == LoadTest(values, pct)
    ensures IsPercentile(s, pct, LoadTest(values, pct).value)
  {
    SameSize(values, s);
    ImplementationsAgree(values, s, pct);
    BenchIs(s, pct);
  }

  // There is one such value.
  lemma PercentileIsUnique(s: seq<real>, pct: real, v: real, w: real)
    requires 0.0 <= pct <= 100.0 && IsPercentile(s, pct, v) && IsPercentile(s, pct, w)
    ensures v == w
  {
    if |s| > 1 {
      var k := Neighbour(|s| - 1, pct);
      var value := Between(s[k], s[k + 1], (|s| - 1) as real * pct / 100.0 - k as real);
      assert v == value && w == value;
    }
  }

  lemma Neighbour(last: nat, pct: real) returns (k: nat)
    requires last > 0 && 0.0 <= pct <= 100.0
    ensures k < last && Encloses(last, pct, k)
  {
    var rank := Rank(last + 1, pct);
    RankIs(last + 1, pct);
    k := if rank.Floor == last then last - 1 else rank.Floor;
  }

  // 0 gives the least sample, 100 the largest, 50 of an odd number of them the middle one.
  lemma NotablePercentiles(values: seq<real>, s: seq<real>)
    requires values != [] && Ordered(s) && multiset(s) == multiset(values)
    ensures LoadTest(values, 0.0) == Some(s[0]) && LoadTest(values, 100.0) == Some(s[|s| - 1])
    ensures |s| % 2 == 1 ==> LoadTest(values, 50.0) == Some(s[|s| / 2])
  {
    SameSize(values, s);
    PercentileIs(values, s, 0.0);
    PercentileIs(values, s, 100.0);
    PercentileIs(values, s, 50.0);
    var n := |s| - 1;
    if n > 0 {
      assert Encloses(n, 0.0, 0);
      assert Encloses(n, 100.0, n - 1);
      if n % 2 == 0 {
        assert Encloses(n, 50.0, n / 2);
      }
    }
  }
}
