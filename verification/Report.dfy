/** The load tester's report: samples grouped by operation, errors counted by code. Python
    dictionaries are kept as their items in insertion order. */
module Report {
  import opened Prelude
  import opened LoadTest
  import Percentile

  datatype Entry<K, V> = Entry(key: K, value: V)

  ghost predicate DistinctKeys<K, V>(d: seq<Entry<K, V>>) {
    forall i, j :: 0 <= i < j < |d| ==> d[i].key != d[j].key
  }

  // ---------------------------------------------------------------- grouping

  // `by_op.setdefault(s.op, []).append(s)`
  function AddSample(d: seq<Entry<Op, seq<Sample>>>, s: Sample): seq<Entry<Op, seq<Sample>>> {
    if d == [] then [Entry(s.op, [s])]
    else if d[0].key == s.op then [Entry(s.op, d[0].value + [s])] + d[1..]
    else [d[0]] + AddSample(d[1..], s)
  }

  function Group(samples: seq<Sample>): seq<Entry<Op, seq<Sample>>> {
    if samples == [] then [] else AddSample(Group(samples[..|samples| - 1]), samples[|samples| - 1])
  }

  // The reference: the samples of one operation, in order.
  function OfOp(samples: seq<Sample>, op: Op): seq<Sample> {
    if samples == [] then []
    else
      var n := |samples| - 1;
      if samples[n].op == op then OfOp(samples[..n], op) + [samples[n]] else OfOp(samples[..n], op)
  }

  // What a group holds under an operation; nothing if the key is absent.
  function Lookup(d: seq<Entry<Op, seq<Sample>>>, op: Op): seq<Sample> {
    if d == [] then [] else if d[0].key == op then d[0].value else Lookup(d[1..], op)
  }

  function Total(d: seq<Entry<Op, seq<Sample>>>): nat {
    if d == [] then 0 else |d[0].value| + Total(d[1..])
  }

  predicate HasKey(d: seq<Entry<Op, seq<Sample>>>, op: Op) {
    d != [] && (d[0].key == op || HasKey(d[1..], op))
  }

  lemma {:induction false} KeysBelow(d: seq<Entry<Op, seq<Sample>>>, op: Op)
    ensures HasKey(d, op) <==> exists i :: 0 <= i < |d| && d[i].key == op
  {
    if d != [] {
      KeysBelow(d[1..], op);
      if i :| 0 <= i < |d| && d[i].key == op && i > 0 {
        assert d[1..][i - 1].key == op;
      }
    }
  }

  lemma {:induction false} AddSampleKeys(d: seq<Entry<Op, seq<Sample>>>, s: Sample)
    ensures forall op :: HasKey(AddSample(d, s), op) <==> op == s.op || HasKey(d, op)
  {
    if d != [] && d[0].key != s.op {
      AddSampleKeys(d[1..], s);
      assert AddSample(d, s)[1..] == AddSample(d[1..], s);
    } else if d != [] {
      assert AddSample(d, s)[1..] == d[1..];
    }
  }

  lemma NotAmongTheRest(d: seq<Entry<Op, seq<Sample>>>, s: Sample)
    requires d != [] && DistinctKeys(d) && d[0].key != s.op
    ensures !HasKey(AddSample(d[1..], s), d[0].key)
  {
    AddSampleKeys(d[1..], s);
    KeysBelow(d[1..], d[0].key);
  }

  lemma DistinctCons(x: Entry<Op, seq<Sample>>, t: seq<Entry<Op, seq<Sample>>>)
    requires DistinctKeys(t) && !HasKey(t, x.key)
    ensures DistinctKeys([x] + t)
  {
    KeysBelow(t, x.key);
  }

  lemma {:induction false} AddSampleSpec(d: seq<Entry<Op, seq<Sample>>>, s: Sample)
    requires DistinctKeys(d)
    ensures var e := AddSample(d, s);
            && DistinctKeys(e)
            && Total(e) == Total(d) + 1
            && (forall op :: Lookup(e, op) == if op == s.op then Lookup(d, op) + [s] else Lookup(d, op))
  {
    var e := AddSample(d, s);
    if d == [] {
      assert [s] == [] + [s];
    } else if d[0].key != s.op {
      AddSampleSpec(d[1..], s);
      NotAmongTheRest(d, s);
      DistinctCons(d[0], AddSample(d[1..], s));
      assert e[1..] == AddSample(d[1..], s);
    } else {
      assert e[1..] == d[1..];
    }
  }

  // Grouping loses, repeats and misfiles nothing: one group per operation, each holding
  // that operation's samples in order, and the sizes add up to the number of samples.
  lemma {:induction false} GroupSpec(samples: seq<Sample>)
    ensures DistinctKeys(Group(samples))
    ensures Total(Group(samples)) == |samples|
    ensures forall op :: Lookup(Group(samples), op) == OfOp(samples, op)
  {
    if samples != [] {
      GroupSpec(samples[..|samples| - 1]);
      AddSampleSpec(Group(samples[..|samples| - 1]), samples[|samples| - 1]);
    }
  }

  // ---------------------------------------------------------------- statistics

  // `Counter` over error codes; a missing code is a key of its own.
  function Count(d: seq<Entry<Option<string>, nat>>, code: Option<string>): seq<Entry<Option<string>, nat>> {
    if d == [] then [Entry(code, 1)]
    else if d[0].key == code then [Entry(code, d[0].value + 1)] + d[1..]
    else [d[0]] + Count(d[1..], code)
  }

  function Histogram(errs: seq<Sample>): seq<Entry<Option<string>, nat>> {
    if errs == [] then [] else Count(Histogram(errs[..|errs| - 1]), errs[|errs| - 1].code)
  }

  function Sum(d: seq<Entry<Option<string>, nat>>): nat {
    if d == [] then 0 else d[0].value + Sum(d[1..])
  }

  function Tally(d: seq<Entry<Option<string>, nat>>, code: Option<string>): nat {
    if d == [] then 0 else if d[0].key == code then d[0].value else Tally(d[1..], code)
  }

  function Occurrences(errs: seq<Sample>, code: Option<string>): nat {
    if errs == [] then 0 else Occurrences(errs[..|errs| - 1], code) + (if errs[|errs| - 1].code == code then 1 else 0)
  }

  lemma {:induction false} CountSpec(d: seq<Entry<Option<string>, nat>>, code: Option<string>)
    ensures Sum(Count(d, code)) == Sum(d) + 1
    ensures forall c :: Tally(Count(d, code), c) == Tally(d, c) + (if c == code then 1 else 0)
  {
    if d != [] && d[0].key != code {
      CountSpec(d[1..], code);
      assert ([d[0]] + Count(d[1..], code))[1..] == Count(d[1..], code);
    } else if d != [] {
      assert ([Entry(code, d[0].value + 1)] + d[1..])[1..] == d[1..];
    }
  }

  // The histogram counts every error once, under its own code.
  lemma {:induction false} HistogramSpec(errs: seq<Sample>)
    ensures Sum(Histogram(errs)) == |errs|
    ensures forall c :: Tally(Histogram(errs), c) == Occurrences(errs, c)
  {
    if errs != [] {
      HistogramSpec(errs[..|errs| - 1]);
      CountSpec(Histogram(errs[..|errs| - 1]), errs[|errs| - 1].code);
    }
  }

  function Successful(samples: seq<Sample>): seq<real> {
    if samples == [] then []
    else
      var n := |samples| - 1;
      if samples[n].status == 200 then Successful(samples[..n]) + [samples[n].elapsed] else Successful(samples[..n])
  }

  function Errors(samples: seq<Sample>): seq<Sample> {
    if samples == [] then []
    else
      var n := |samples| - 1;
      if samples[n].status != 200 then Errors(samples[..n]) + [samples[n]] else Errors(samples[..n])
  }

  // ---------------------------------------------------------------- rounding

  // To the nearest integer, a tie to the even one.
  function Nearest(y: real): int {
    var below := y.Floor;
    var d := y - below as real;
    if d < 0.5 || (d == 0.5 && below % 2 == 0) then below else below + 1
  }

  // `round(x, 2)` and `round(x, 4)`
  function Round2(x: real): real {
    Nearest(x * 100.0) as real / 100.0
  }

  function Round4(x: real): real {
    Nearest(x * 10000.0) as real / 10000.0
  }

  lemma NearestSpec(x: real, y: real)
    ensures x - 0.5 <= Nearest(x) as real <= x + 0.5
    ensures Nearest(x) as real == x - 0.5 || Nearest(x) as real == x + 0.5 ==> Nearest(x) % 2 == 0
    ensures x <= y ==> Nearest(x) <= Nearest(y)
  {
    if x <= y {
      assert x.Floor <= y.Floor;
    }
  }

  // Two and four digits after the point.
  lemma RoundsTo(x: real)
    ensures Round2(x) * 100.0 == Nearest(x * 100.0) as real
    ensures Round4(x) * 10000.0 == Nearest(x * 10000.0) as real
  {
  }

  // Rounding keeps the order and moves a value by half a unit at most.
  lemma RoundSpec(x: real, y: real)
    ensures x - 0.005 <= Round2(x) <= x + 0.005
    ensures x <= y ==> Round2(x) <= Round2(y) && Round4(x) <= Round4(y)
  {
    NearestSpec(x * 100.0, y * 100.0);
    NearestSpec(x * 10000.0, y * 10000.0);
  }

  // ---------------------------------------------------------------- per operation

  function SumOf(xs: seq<real>): real {
    if xs == [] then 0.0 else SumOf(xs[..|xs| - 1]) + xs[|xs| - 1]
  }

  function Mean(xs: seq<real>): real
    requires xs != []
  {
    SumOf(xs) / |xs| as real
  }

  function Max(xs: seq<real>): (m: real)
    requires xs != []
    ensures m in xs && forall i :: 0 <= i < |xs| ==> xs[i] <= m
  {
    var n := |xs| - 1;
    if n == 0 then xs[0] else if Max(xs[..n]) > xs[n] then Max(xs[..n]) else xs[n]
  }

  // Requests per second; 0 if no time passed.
  function Rate(n: nat, duration: real): real {
    if duration > 0.0 then n as real / duration else 0.0
  }

  lemma RateSpec(n: nat, duration: real)
    ensures duration > 0.0 ==> Rate(n, duration) * duration == n as real
    ensures duration <= 0.0 ==> Rate(n, duration) == 0.0
  {
  }

  datatype Latency = Latency(mean: real, p50: real, p90: real, p95: real, p99: real, max: real)

  datatype Stats =
    | NoSamples
    | Stats(count: nat, okCount: nat, errorCount: nat, errorRate: real, qps: real, latency: Option<Latency>,
            errorCodes: seq<Entry<Option<string>, nat>>)

  function LatencyOf(ok: seq<real>): Option<Latency> {
    if ok == [] then None
    else
      Some(Latency(Round2(Mean(ok)), Round2(Percentile.LoadTest(ok, 50.0).value), Round2(Percentile.LoadTest(ok, 90.0).value),
                   Round2(Percentile.LoadTest(ok, 95.0).value), Round2(Percentile.LoadTest(ok, 99.0).value), Round2(Max(ok))))
  }

  lemma {:induction false} OkPlusErrors(samples: seq<Sample>)
    ensures |Successful(samples)| + |Errors(samples)| == |samples|
  {
    if samples != [] {
      OkPlusErrors(samples[..|samples| - 1]);
    }
  }

  lemma {:induction false} SumBetween(xs: seq<real>, lo: real, hi: real)
    requires forall i :: 0 <= i < |xs| ==> lo <= xs[i] <= hi
    ensures |xs| as real * lo <= SumOf(xs) <= |xs| as real * hi
  {
    if xs != [] {
      var init := xs[..|xs| - 1];
      SumBetween(init, lo, hi);
      assert |xs| as real * lo == |init| as real * lo + lo;
      assert |xs| as real * hi == |init| as real * hi + hi;
    }
  }

  lemma DivideBounds(n: real, sum: real, hi: real)
    requires n > 0.0 && sum <= n * hi
    ensures sum / n <= hi
  {
    var q := sum / n;
    assert q * n == sum;
    if q > hi {
      Scale(hi, q, n);
    }
  }

  lemma Scale(a: real, b: real, n: real)
    requires a < b && n > 0.0
    ensures a * n < b * n
  {
  }

  function Least(xs: seq<real>): (m: real)
    requires xs != []
    ensures forall i :: 0 <= i < |xs| ==> m <= xs[i]
  {
    var n := |xs| - 1;
    if n == 0 then xs[0] else if Least(xs[..n]) < xs[n] then Least(xs[..n]) else xs[n]
  }

  lemma MeanAtMostMax(xs: seq<real>)
    requires xs != []
    ensures Mean(xs) <= Max(xs)
  {
    SumBetween(xs, Least(xs), Max(xs));
    DivideBounds(|xs| as real, SumOf(xs), Max(xs));
  }

  // The positions, in order, of the samples that succeeded (or did not).
  ghost predicate Selects(idx: seq<nat>, samples: seq<Sample>, ok: bool) {
    && (forall k :: 0 <= k < |idx| ==> idx[k] < |samples| && (samples[idx[k]].status == 200) == ok)
    && (forall j, k :: 0 <= j < k < |idx| ==> idx[j] < idx[k])
    && (forall i :: 0 <= i < |samples| && (samples[i].status == 200) == ok ==> i in idx)
  }

  // The successes' latencies are those of exactly the samples with status 200, in order.
  lemma {:induction false} SuccessfulIs(samples: seq<Sample>) returns (idx: seq<nat>)
    ensures Selects(idx, samples, true) && |idx| == |Successful(samples)|
    ensures forall k :: 0 <= k < |idx| ==> Successful(samples)[k] == samples[idx[k]].elapsed
  {
    if samples == [] {
      idx := [];
    } else {
      var n := |samples| - 1;
      idx := SuccessfulIs(samples[..n]);
      if samples[n].status == 200 {
        TakesLast(idx, samples, true);
        idx := idx + [n];
      } else {
        SkipsLast(idx, samples, true);
      }
    }
  }

  lemma {:induction false} ErrorsAre(samples: seq<Sample>) returns (idx: seq<nat>)
    ensures Selects(idx, samples, false) && |idx| == |Errors(samples)|
    ensures forall k :: 0 <= k < |idx| ==> Errors(samples)[k] == samples[idx[k]]
  {
    if samples == [] {
      idx := [];
    } else {
      var n := |samples| - 1;
      idx := ErrorsAre(samples[..n]);
      if samples[n].status != 200 {
        TakesLast(idx, samples, false);
        idx := idx + [n];
      } else {
        SkipsLast(idx, samples, false);
      }
    }
  }

  lemma SkipsLast(idx: seq<nat>, samples: seq<Sample>, ok: bool)
    requires samples != [] && Selects(idx, samples[..|samples| - 1], ok) && (samples[|samples| - 1].status == 200) != ok
    ensures Selects(idx, samples, ok)
  {
    var init := samples[..|samples| - 1];
    forall i | 0 <= i < |samples| && (samples[i].status == 200) == ok ensures i in idx {
      assert init[i] == samples[i];
    }
    forall k | 0 <= k < |idx| ensures idx[k] < |samples| && (samples[idx[k]].status == 200) == ok {
      assert init[idx[k]] == samples[idx[k]];
    }
  }

  lemma TakesLast(idx: seq<nat>, samples: seq<Sample>, ok: bool)
    requires samples != [] && Selects(idx, samples[..|samples| - 1], ok) && (samples[|samples| - 1].status == 200) == ok
    ensures Selects(idx + [|samples| - 1], samples, ok)
  {
    var n := |samples| - 1;
    var init, more := samples[..n], idx + [n];
    forall i | 0 <= i < |samples| && (samples[i].status == 200) == ok ensures i in more {
      if i < n {
        assert init[i] == samples[i] && i in idx;
      } else {
        assert more[|idx|] == n;
      }
    }
    forall k | 0 <= k < |more| ensures more[k] < |samples| && (samples[more[k]].status == 200) == ok {
      if k < |idx| {
        assert more[k] == idx[k] && init[idx[k]] == samples[idx[k]];
      }
    }
    forall j, k | 0 <= j < k < |more| ensures more[j] < more[k] {
      assert more[j] == idx[j];
    }
  }

  ghost predicate Ascending(l: Latency) {
    l.p50 <= l.p90 <= l.p95 <= l.p99 <= l.max && l.mean <= l.max
  }

  lemma PercentilesAscend(ok: seq<real>, p: real, q: real)
    requires ok != [] && 0.0 <= p <= q <= 100.0
    ensures Percentile.LoadTest(ok, p).Some? && Percentile.LoadTest(ok, q).Some?
    ensures Round2(Percentile.LoadTest(ok, p).value) <= Round2(Percentile.LoadTest(ok, q).value) <= Round2(Max(ok))
  {
    Percentile.MonotoneInPct(ok, p, q);
    Percentile.WithinRange(ok, q);
    RoundSpec(Percentile.LoadTest(ok, p).value, Percentile.LoadTest(ok, q).value);
    RoundSpec(Percentile.LoadTest(ok, q).value, Max(ok));
  }

  // The latencies ascend to the largest sample, which also bounds the mean; rounding
  // changes none of this.
  lemma LatencySpec(ok: seq<real>)
    ensures LatencyOf(ok).Some? <==> ok != []
    ensures ok != [] ==> Ascending(LatencyOf(ok).value) && LatencyOf(ok).value.max == Round2(Max(ok))
  {
    if ok != [] {
      PercentilesAscend(ok, 50.0, 90.0);
      PercentilesAscend(ok, 90.0, 95.0);
      PercentilesAscend(ok, 95.0, 99.0);
      MeanAtMostMax(ok);
      RoundSpec(Mean(ok), Max(ok));
    }
  }

  // A rounded percentile of the values, in any sorted arrangement.
  ghost predicate ShowsPercentile(shown: real, values: seq<real>, pct: real) {
    forall s :: Percentile.Ordered(s) && multiset(s) == multiset(values) ==> exists v :: Percentile.IsPercentile(s, pct, v) && shown == Round2(v)
  }

  lemma PercentileShown(values: seq<real>, pct: real)
    requires values != [] && 0.0 <= pct <= 100.0
    ensures Percentile.LoadTest(values, pct).Some?
    ensures ShowsPercentile(Round2(Percentile.LoadTest(values, pct).value), values, pct)
  {
    Percentile.MonotoneInPct(values, pct, pct);
    forall s | Percentile.Ordered(s) && multiset(s) == multiset(values)
      ensures exists v :: Percentile.IsPercentile(s, pct, v) && Round2(Percentile.LoadTest(values, pct).value) == Round2(v)
    {
      Percentile.PercentileIs(values, s, pct);
    }
  }

  // The rounded quotient of `total` by `n`.
  ghost predicate ShowsMean(shown: real, total: real, n: nat) {
    exists q: real :: Quotient(q, total, n as real) && shown == Round2(q)
  }

  ghost predicate Quotient(q: real, total: real, n: real) {
    q * n == total
  }

  lemma MeanShown(values: seq<real>)
    requires values != []
    ensures ShowsMean(Round2(Mean(values)), SumOf(values), |values|)
  {
    assert Quotient(Mean(values), SumOf(values), |values| as real);
  }

  ghost predicate Latencies(l: Option<Latency>, ok: seq<real>) {
    && (l.Some? <==> ok != [])
    && (l.Some? ==>
          && Ascending(l.value) && l.value.max == Round2(Max(ok)) && ShowsMean(l.value.mean, SumOf(ok), |ok|)
          && ShowsPercentile(l.value.p50, ok, 50.0) && ShowsPercentile(l.value.p90, ok, 90.0)
          && ShowsPercentile(l.value.p95, ok, 95.0) && ShowsPercentile(l.value.p99, ok, 99.0))
  }

  function ErrorRate(samples: seq<Sample>): (r: real)
    requires samples != []
    ensures r <= 1.0
  {
    OkPlusErrors(samples);
    DivideBounds(|samples| as real, |Errors(samples)| as real, 1.0);
    |Errors(samples)| as real / |samples| as real
  }

  // The closure `stats` of `summarize`.
  function StatsOf(samples: seq<Sample>, duration: real): Stats {
    if samples == [] then NoSamples
    else
      var ok := Successful(samples);
      var errs := Errors(samples);
      Stats(|samples|, |ok|, |errs|, Round4(ErrorRate(samples)), Round2(Rate(|samples|, duration)), LatencyOf(ok), Histogram(errs))
  }

  lemma LatenciesOf(ok: seq<real>)
    ensures Latencies(LatencyOf(ok), ok)
  {
    LatencySpec(ok);
    if ok != [] {
      PercentileShown(ok, 50.0);
      PercentileShown(ok, 90.0);
      PercentileShown(ok, 95.0);
      PercentileShown(ok, 99.0);
      MeanShown(ok);
    }
  }

  lemma StatsLatencies(samples: seq<Sample>, duration: real)
    requires samples != []
    ensures Latencies(StatsOf(samples, duration).latency, Successful(samples))
  {
    LatenciesOf(Successful(samples));
  }

  // The counts are those of the samples with and without status 200.
  ghost predicate CountsStatuses(okCount: nat, errorCount: nat, samples: seq<Sample>) {
    && (exists idx :: Selects(idx, samples, true) && okCount == |idx|)
    && (exists idx :: Selects(idx, samples, false) && errorCount == |idx|)
  }

  lemma StatusesCounted(samples: seq<Sample>)
    ensures CountsStatuses(|Successful(samples)|, |Errors(samples)|, samples)
  {
    var ok := SuccessfulIs(samples);
    var errs := ErrorsAre(samples);
  }

  // The rates, rounded: errors per sample, samples per second.
  ghost predicate RatesShown(s: Stats, n: nat, duration: real)
    requires s.Stats?
  {
    && (exists q: real :: Quotient(q, s.errorCount as real, n as real) && s.errorRate == Round4(q))
    && (if duration > 0.0 then exists q: real :: Quotient(q, n as real, duration) && s.qps == Round2(q) else s.qps == 0.0)
  }

  lemma StatsRates(samples: seq<Sample>, duration: real)
    requires samples != []
    ensures StatsOf(samples, duration).Stats? && RatesShown(StatsOf(samples, duration), |samples|, duration)
  {
    RateSpec(|samples|, duration);
    assert Quotient(ErrorRate(samples), |Errors(samples)| as real, |samples| as real);
    assert duration > 0.0 ==> Quotient(Rate(|samples|, duration), |samples| as real, duration);
  }

  // Per operation: every sample is a success or an error by its status, the codes account
  // for the errors, the rates are those of the counts, and the latencies are there exactly
  // if anything succeeded.
  lemma StatsSpec(samples: seq<Sample>, duration: real)
    requires samples != []
    ensures var s := StatsOf(samples, duration);
            && s.Stats?
            && s.count == |samples| == s.okCount + s.errorCount
            && CountsStatuses(s.okCount, s.errorCount, samples)
            && Sum(s.errorCodes) == s.errorCount
            && (forall code :: Tally(s.errorCodes, code) == Occurrences(Errors(samples), code))
            && s.errorRate <= 1.0
            && RatesShown(s, |samples|, duration)
            && Latencies(s.latency, Successful(samples))
  {
    OkPlusErrors(samples);
    HistogramSpec(Errors(samples));
    StatusesCounted(samples);
    StatsRates(samples, duration);
    StatsLatencies(samples, duration);
    RoundSpec(ErrorRate(samples), 1.0);
  }

  // ---------------------------------------------------------------- the report

  // The rank of an operation's name: "insert", "select_count", "select_recent".
  function Alphabetical(op: Op): nat {
    match op
    case Insert => 0
    case SelectCount => 1
    case SelectRecent => 2
  }

  function OpName(op: Op): string {
    match op
    case Insert => "insert"
    case SelectRecent => "select_recent"
    case SelectCount => "select_count"
  }

  ghost predicate FirstDifference(a: string, b: string, n: nat) {
    n <= |a| && n < |b| && a[..n] == b[..n] && (n == |a| || a[n] < b[n])
  }

  // Ranks are in the order of the names, character by character.
  lemma RanksFollowNames(a: Op, b: Op)
    ensures Alphabetical(a) < Alphabetical(b) ==> exists n: nat :: FirstDifference(OpName(a), OpName(b), n)
    ensures Alphabetical(a) == Alphabetical(b) ==> a == b
  {
    if Alphabetical(a) < Alphabetical(b) {
      assert FirstDifference(OpName(a), OpName(b), if a.Insert? then 0 else 7);
    }
  }

  ghost predicate Above(d: seq<Entry<Op, seq<Sample>>>, rank: int) {
    forall i :: 0 <= i < |d| ==> rank < Alphabetical(d[i].key)
  }

  ghost predicate InOrder<V>(d: seq<Entry<Op, V>>) {
    forall i, j :: 0 <= i < j < |d| ==> Alphabetical(d[i].key) < Alphabetical(d[j].key)
  }

  // `sorted(by_op.items())`; keys are distinct, so the groups are never compared.
  function InsertGroup(x: Entry<Op, seq<Sample>>, d: seq<Entry<Op, seq<Sample>>>): seq<Entry<Op, seq<Sample>>> {
    if d == [] then [x]
    else if Alphabetical(x.key) < Alphabetical(d[0].key) then [x] + d
    else [d[0]] + InsertGroup(x, d[1..])
  }

  function SortGroups(d: seq<Entry<Op, seq<Sample>>>): seq<Entry<Op, seq<Sample>>> {
    if d == [] then [] else InsertGroup(d[0], SortGroups(d[1..]))
  }

  lemma {:induction false} InsertGroupSpec(x: Entry<Op, seq<Sample>>, d: seq<Entry<Op, seq<Sample>>>)
    requires InOrder(d) && !HasKey(d, x.key)
    ensures var e := InsertGroup(x, d);
            && InOrder(e) && Total(e) == Total(d) + |x.value|
            && (forall op :: HasKey(e, op) <==> op == x.key || HasKey(d, op))
            && (forall op :: Lookup(e, op) == if op == x.key then x.value else Lookup(d, op))
            && (forall rank :: rank < Alphabetical(x.key) && Above(d, rank) ==> Above(e, rank))
  {
    var e := InsertGroup(x, d);
    if d == [] {
    } else if Alphabetical(x.key) < Alphabetical(d[0].key) {
      assert e[1..] == d;
    } else {
      InsertGroupSpec(x, d[1..]);
      var t := InsertGroup(x, d[1..]);
      assert e == [d[0]] + t && e[1..] == t;
      assert Above(d[1..], Alphabetical(d[0].key));
      assert Above(t, Alphabetical(d[0].key));
    }
  }

  lemma {:induction false} SortGroupsSpec(d: seq<Entry<Op, seq<Sample>>>)
    requires DistinctKeys(d)
    ensures var e := SortGroups(d);
            && InOrder(e) && Total(e) == Total(d)
            && (forall op :: HasKey(e, op) <==> HasKey(d, op))
            && (forall op :: Lookup(e, op) == Lookup(d, op))
  {
    if d != [] {
      SortGroupsSpec(d[1..]);
      KeysBelow(d[1..], d[0].key);
      InsertGroupSpec(d[0], SortGroups(d[1..]));
    }
  }

  ghost predicate NoneEmpty(d: seq<Entry<Op, seq<Sample>>>) {
    forall op :: HasKey(d, op) <==> Lookup(d, op) != []
  }

  lemma {:induction false} GroupsAreNotEmpty(samples: seq<Sample>)
    ensures NoneEmpty(Group(samples))
  {
    if samples != [] {
      var d := Group(samples[..|samples| - 1]);
      GroupsAreNotEmpty(samples[..|samples| - 1]);
      GroupSpec(samples[..|samples| - 1]);
      AddSampleSpec(d, samples[|samples| - 1]);
      AddSampleKeys(d, samples[|samples| - 1]);
    }
  }

  datatype Summary = Summary(duration: real, totalRequests: nat, totalQps: real, byOp: seq<Entry<Op, Stats>>)

  function SumCounts(r: seq<Entry<Op, Stats>>): nat {
    if r == [] then 0
    else SumCounts(r[..|r| - 1]) + (if r[|r| - 1].value.Stats? then r[|r| - 1].value.count else 0)
  }

  function SumQps(r: seq<Entry<Op, Stats>>): real {
    if r == [] then 0.0
    else SumQps(r[..|r| - 1]) + (if r[|r| - 1].value.Stats? then r[|r| - 1].value.qps else 0.0)
  }

  lemma RatesAdd(m: nat, n: nat, duration: real)
    ensures Rate(m + n, duration) == Rate(m, duration) + Rate(n, duration)
  {
  }

  ghost predicate Nonempty(d: seq<Entry<Op, seq<Sample>>>) {
    forall i :: 0 <= i < |d| ==> d[i].value != []
  }

  function PerGroup(d: seq<Entry<Op, seq<Sample>>>, stats: seq<Sample> -> Stats): (r: seq<Entry<Op, Stats>>)
    ensures |r| == |d|
    ensures forall i :: 0 <= i < |d| ==> r[i] == Entry(d[i].key, stats(d[i].value))
  {
    seq(|d|, i requires 0 <= i < |d| => Entry(d[i].key, stats(d[i].value)))
  }

  // `stats` counts its samples and rates them.
  ghost predicate Measures(stats: seq<Sample> -> Stats, rate: nat -> real) {
    forall g :: g != [] ==> stats(g).Stats? && stats(g).count == |g| && stats(g).qps == Round2(rate(|g|))
  }

  ghost predicate Additive(rate: nat -> real) {
    rate(0) == 0.0 && forall m: nat, n: nat :: rate(m + n) == rate(m) + rate(n)
  }

  lemma {:induction false} TotalSnoc(d: seq<Entry<Op, seq<Sample>>>)
    requires d != []
    ensures Total(d) == Total(d[..|d| - 1]) + |d[|d| - 1].value|
  {
    if |d| > 1 {
      TotalSnoc(d[1..]);
      assert d[1..][..|d| - 2] == d[..|d| - 1][1..];
    }
  }

  predicate Close(a: real, b: real, tolerance: real) {
    b - tolerance <= a <= b + tolerance
  }

  lemma PerGroupSnoc(d: seq<Entry<Op, seq<Sample>>>, stats: seq<Sample> -> Stats)
    requires d != []
    ensures var n := |d| - 1;
            var r := PerGroup(d, stats);
            r[..n] == PerGroup(d[..n], stats) && r[n].value == stats(d[n].value)
  {
  }

  lemma {:induction false} CountsAdd(d: seq<Entry<Op, seq<Sample>>>, stats: seq<Sample> -> Stats, rate: nat -> real)
    requires Nonempty(d) && Measures(stats, rate)
    ensures SumCounts(PerGroup(d, stats)) == Total(d)
  {
    if d != [] {
      CountsAdd(d[..|d| - 1], stats, rate);
      TotalSnoc(d);
      PerGroupSnoc(d, stats);
    }
  }

  lemma CloseStep(sum: real, part: real, whole: real, last: real, n: nat)
    requires Close(sum, whole, n as real * 0.005) && Close(part, last, 0.005)
    ensures Close(sum + part, whole + last, (n + 1) as real * 0.005)
  {
  }

  // The rates, each rounded, add up to that of all samples together to within half a
  // hundredth per operation.
  lemma {:induction false} RatesSum(d: seq<Entry<Op, seq<Sample>>>, stats: seq<Sample> -> Stats, rate: nat -> real)
    requires Nonempty(d) && Measures(stats, rate) && Additive(rate)
    ensures Close(SumQps(PerGroup(d, stats)), rate(Total(d)), |d| as real * 0.005)
  {
    if d != [] {
      var n := |d| - 1;
      RatesSum(d[..n], stats, rate);
      TotalSnoc(d);
      PerGroupSnoc(d, stats);
      var last := rate(|d[n].value|);
      RoundSpec(last, 0.0);
      CloseStep(SumQps(PerGroup(d[..n], stats)), Round2(last), rate(Total(d[..n])), last, n);
    }
  }

  // What the report must say: the operations that have samples, in alphabetical order,
  // each with the statistics of exactly its own samples in order.
  ghost predicate Reports(byOp: seq<Entry<Op, Stats>>, samples: seq<Sample>, stats: seq<Sample> -> Stats) {
    && InOrder(byOp)
    && (forall op :: OfOp(samples, op) != [] <==> exists i :: 0 <= i < |byOp| && byOp[i].key == op)
    && (forall i :: 0 <= i < |byOp| ==> byOp[i].value == stats(OfOp(samples, byOp[i].key)))
  }

  lemma {:induction false} LookupAt(d: seq<Entry<Op, seq<Sample>>>, i: nat)
    requires InOrder(d) && i < |d|
    ensures Lookup(d, d[i].key) == d[i].value
  {
    if i > 0 {
      LookupAt(d[1..], i - 1);
    }
  }

  lemma GroupsReport(samples: seq<Sample>, stats: seq<Sample> -> Stats)
    ensures var d := SortGroups(Group(samples));
            && Total(d) == |samples| && Nonempty(d)
            && Reports(PerGroup(d, stats), samples, stats)
  {
    var d := SortGroups(Group(samples));
    GroupSpec(samples);
    GroupsAreNotEmpty(samples);
    SortGroupsSpec(Group(samples));
    var r := PerGroup(d, stats);
    forall op ensures OfOp(samples, op) != [] <==> exists i :: 0 <= i < |r| && r[i].key == op {
      KeysBelow(d, op);
      assert forall i :: 0 <= i < |r| ==> r[i].key == d[i].key;
    }
    forall i | 0 <= i < |d| ensures d[i].value == OfOp(samples, d[i].key) && d[i].value != [] {
      LookupAt(d, i);
      KeysBelow(d, d[i].key);
    }
  }

  // The loop that groups, then one entry per group in sorted order.
  method ByOp(samples: seq<Sample>, stats: seq<Sample> -> Stats) returns (byOp: seq<Entry<Op, Stats>>)
    ensures byOp == PerGroup(SortGroups(Group(samples)), stats)
    ensures Reports(byOp, samples, stats)
  {
    var groups: seq<Entry<Op, seq<Sample>>> := [];
    for n := 0 to |samples|
      invariant groups == Group(samples[..n])
    {
      assert samples[..n + 1][..n] == samples[..n];
      groups := AddSample(groups, samples[n]);
    }
    assert samples[..|samples|] == samples;
    var sorted := SortGroups(groups);
    byOp := [];
    for i := 0 to |sorted|
      invariant |byOp| == i
      invariant forall k :: 0 <= k < i ==> byOp[k] == Entry(sorted[k].key, stats(sorted[k].value))
    {
      byOp := byOp + [Entry(sorted[i].key, stats(sorted[i].value))];
    }
    assert byOp == PerGroup(sorted, stats);
    GroupsReport(samples, stats);
  }

  function StatsFor(duration: real): seq<Sample> -> Stats {
    samples => StatsOf(samples, duration)
  }

  function RateOver(duration: real): nat -> real {
    (n: nat) => Rate(n, duration)
  }

  lemma StatsMeasure(duration: real)
    ensures Measures(StatsFor(duration), RateOver(duration))
  {
  }

  lemma RatesAreAdditive(duration: real)
    ensures Additive(RateOver(duration))
  {
    RatesAdd(0, 0, duration);
    forall m: nat, n: nat ensures RateOver(duration)(m + n) == RateOver(duration)(m) + RateOver(duration)(n) {
      RatesAdd(m, n, duration);
    }
  }

  // The totals of the whole report.
  lemma TotalsAgree(samples: seq<Sample>, duration: real)
    ensures var r := PerGroup(SortGroups(Group(samples)), StatsFor(duration));
            && SumCounts(r) == |samples|
            && Close(SumQps(r), Rate(|samples|, duration), |r| as real * 0.005)
  {
    StatsMeasure(duration);
    RatesAreAdditive(duration);
    GroupsReport(samples, StatsFor(duration));
    CountsAdd(SortGroups(Group(samples)), StatsFor(duration), RateOver(duration));
    RatesSum(SortGroups(Group(samples)), StatsFor(duration), RateOver(duration));
  }

  // `duration_s`
  function Duration(started: real, finished: real): real {
    if finished > started then finished - started else 0.0
  }

  // `summarize`. The counts add up to the total, and the rounded rates to the rounded
  // total rate within half a hundredth for each of them.
  method Summarize(samples: seq<Sample>, started: real, finished: real) returns (summary: Summary)
    ensures summary.duration == Round2(if finished > started then finished - started else 0.0)
    ensures summary.totalRequests == |samples| == SumCounts(summary.byOp)
    ensures summary.totalQps == Round2(Rate(|samples|, Duration(started, finished)))
    ensures Close(SumQps(summary.byOp), summary.totalQps, (|summary.byOp| + 1) as real * 0.005)
    ensures Reports(summary.byOp, samples, StatsFor(Duration(started, finished)))
  {
    var duration := Duration(started, finished);
    TotalsAgree(samples, duration);
    var byOp := ByOp(samples, StatsFor(duration));
    var total := Rate(|samples|, duration);
    RoundSpec(total, 0.0);
    summary := Summary(Round2(duration), |samples|, Round2(total), byOp);
  }
}
