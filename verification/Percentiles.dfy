/** Nearest-rank percentiles over samples that may be infinite.

    Rounding of floating-point numbers is left out: a sample is a real, positive infinity or
    not a number. */
module Percentiles {

  datatype Sample = Fin(value: real) | Inf | Nan

  datatype Result<T> = Ok(value: T) | MetricError(message: string)

  datatype Estimate = Estimate(value: Sample, denominator: nat)

  /** The order of valid samples: infinity above every number. */
  predicate Le(a: Sample, b: Sample) { b.Inf? || (a.Fin? && b.Fin? && a.value <= b.value) }

  predicate Lt(a: Sample, b: Sample) { Le(a, b) && a != b }

  predicate ValidSample(s: Sample) { s.Inf? || (s.Fin? && s.value >= 0.0) }

  ghost predicate Valid(samples: seq<Sample>) { forall i :: 0 <= i < |samples| ==> ValidSample(samples[i]) }

  // ---------------------------------------------------------------- counting and sorting

  function CountWhere(samples: seq<Sample>, f: Sample -> bool): nat {
    if samples == [] then 0 else (if f(samples[0]) then 1 else 0) + CountWhere(samples[1..], f)
  }

  function AtMost(r: Sample): Sample -> bool { (s: Sample) => Le(s, r) }

  function Below(r: Sample): Sample -> bool { (s: Sample) => Lt(s, r) }

  function Infinite(): Sample -> bool { (s: Sample) => s.Inf? }

  function InsertSample(s: seq<Sample>, x: Sample): seq<Sample> {
    if s == [] || Le(x, s[0]) then [x] + s else [s[0]] + InsertSample(s[1..], x)
  }

  function SortSamples(s: seq<Sample>): seq<Sample> {
    if s == [] then [] else InsertSample(SortSamples(s[1..]), s[0])
  }

  ghost predicate Rising(s: seq<Sample>) { forall i, j :: 0 <= i < j < |s| ==> Le(s[i], s[j]) }

  lemma {:induction false} InsertKeeps(s: seq<Sample>, x: Sample, f: Sample -> bool)
    requires Valid(s) && ValidSample(x) && Rising(s)
    ensures
      var r := InsertSample(s, x);
      && Valid(r) && Rising(r) && |r| == |s| + 1
      && CountWhere(r, f) == CountWhere(s, f) + (if f(x) then 1 else 0)
      && (r[0] == x || (s != [] && r[0] == s[0]))
  {
    var r := InsertSample(s, x);
    if s == [] || Le(x, s[0]) {
      assert r[1..] == s;
    } else {
      var rest := InsertSample(s[1..], x);
      InsertKeeps(s[1..], x, f);
      assert r[1..] == rest;
      hide InsertSample;
      forall i, j | 0 <= i < j < |r| ensures Le(r[i], r[j]) {
        assert r[j] == rest[j - 1];
        if i == 0 {
          assert Le(s[0], rest[0]);
          assert j > 1 ==> Le(rest[0], rest[j - 1]);
        } else {
          assert r[i] == rest[i - 1];
        }
      }
      assert forall i :: 0 < i < |r| ==> r[i] == rest[i - 1];
    }
  }

  lemma {:induction false} SortKeeps(s: seq<Sample>, f: Sample -> bool)
    requires Valid(s)
    ensures Valid(SortSamples(s)) && Rising(SortSamples(s)) && |SortSamples(s)| == |s|
    ensures CountWhere(SortSamples(s), f) == CountWhere(s, f)
  {
    if s != [] {
      SortKeeps(s[1..], f);
      InsertKeeps(SortSamples(s[1..]), s[0], f);
    }
  }

  lemma {:induction false} CountConcat(a: seq<Sample>, b: seq<Sample>, f: Sample -> bool)
    ensures CountWhere(a + b, f) == CountWhere(a, f) + CountWhere(b, f)
  {
    if a == [] {
      assert a + b == b;
    } else {
      CountConcat(a[1..], b, f);
      assert (a + b)[1..] == a[1..] + b;
    }
  }

  lemma {:induction false} CountAll(s: seq<Sample>, f: Sample -> bool)
    ensures CountWhere(s, f) <= |s|
    ensures (forall i :: 0 <= i < |s| ==> f(s[i])) ==> CountWhere(s, f) == |s|
    ensures (forall i :: 0 <= i < |s| ==> !f(s[i])) ==> CountWhere(s, f) == 0
  {
    if s != [] { CountAll(s[1..], f); }
  }

  /** If `f` at every position of `a` implies `g` at that position of `b`, `g` counts as much. */
  lemma {:induction false} CountMonotone(a: seq<Sample>, b: seq<Sample>, f: Sample -> bool, g: Sample -> bool)
    requires |a| == |b| && forall i :: 0 <= i < |a| && f(a[i]) ==> g(b[i])
    ensures CountWhere(a, f) <= CountWhere(b, g)
  {
    if a != [] { CountMonotone(a[1..], b[1..], f, g); }
  }

  // ---------------------------------------------------------------- nearest_rank

  function Ceiling(x: real): int { -((-x).Floor) }

  function Rank(n: nat, percentile: real): int {
    var c := Ceiling(percentile * n as real);
    if c < 1 then 1 else c
  }

  /** The rank is the least number that is not below the percentile's share of the samples. */
  lemma {:induction false} RankInRange(n: nat, percentile: real)
    requires n > 0 && 0.0 < percentile <= 1.0
    ensures 1 <= Rank(n, percentile) <= n
    ensures (Rank(n, percentile) - 1) as real < percentile * n as real <= Rank(n, percentile) as real
  {
    var share := percentile * n as real;
    assert 0.0 < share <= n as real;
    var below := (-share).Floor;
    assert below as real <= -share < (below + 1) as real;
  }

  function NearestRank(samples: seq<Sample>, percentile: real): Result<Estimate> {
    if !(0.0 < percentile <= 1.0) then MetricError("percentile must be in (0, 1]")
    else if (exists i :: 0 <= i < |samples| && samples[i].Nan?) then MetricError("sample must be finite")
    else if samples == [] then MetricError("empty samples")
    else if (exists i :: 0 <= i < |samples| && samples[i].Fin? && samples[i].value < 0.0) then
      MetricError("duration samples must be non-negative")
    else
      RankInRange(|samples|, percentile);
      assert Valid(samples);
      SortKeeps(samples, AtMost(Inf));
      Ok(Estimate(SortSamples(samples)[Rank(|samples|, percentile) - 1], |samples|))
  }

  /** `r` is the order statistic of that rank: at least `rank` samples are at most `r`, and
      fewer than `rank` are below it. */
  ghost predicate HasRank(samples: seq<Sample>, rank: int, r: Sample) {
    ValidSample(r) && CountWhere(samples, AtMost(r)) >= rank && CountWhere(samples, Below(r)) < rank
  }

  lemma {:induction false} SortedRank(s: seq<Sample>, k: nat)
    requires Valid(s) && Rising(s) && k < |s|
    ensures HasRank(s, k + 1, s[k])
  {
    var r, low, front, high := s[k], s[..k + 1], s[..k], s[k..];
    assert s == low + s[k + 1..] && s == front + high;
    CountConcat(low, s[k + 1..], AtMost(r));
    CountConcat(front, high, Below(r));
    forall i | 0 <= i < |low| ensures AtMost(r)(low[i]) { assert low[i] == s[i]; }
    forall i | 0 <= i < |high| ensures !Below(r)(high[i]) { assert high[i] == s[k + i]; }
    CountAll(low, AtMost(r));
    CountAll(front, Below(r));
    CountAll(high, Below(r));
  }

  /** An order statistic is one of the samples. */
  lemma {:induction false} StatisticIsSample(samples: seq<Sample>, rank: int, r: Sample)
    requires Valid(samples) && HasRank(samples, rank, r)
    ensures r in samples
  {
    if r !in samples {
      forall i | 0 <= i < |samples| && AtMost(r)(samples[i]) ensures Below(r)(samples[i]) {
        assert samples[i] in samples;
      }
      CountMonotone(samples, samples, AtMost(r), Below(r));
    }
  }

  /** Nearest rank is defined for exactly the valid non-empty samples and percentiles.  It returns
      one of the samples: at least the percentile's share of all samples is at most the result, and
      less than that share is below it. */
  lemma {:induction false} NearestRankIsOrderStatistic(samples: seq<Sample>, percentile: real)
    ensures
      var r := NearestRank(samples, percentile);
      && (r.Ok? <==> 0.0 < percentile <= 1.0 && samples != [] && Valid(samples))
      && (r.Ok? ==>
            var result, share := r.value.value, percentile * |samples| as real;
            && r.value.denominator == |samples| && HasRank(samples, Rank(|samples|, percentile), result)
            && result in samples
            && CountWhere(samples, AtMost(result)) as real >= share > CountWhere(samples, Below(result)) as real)
  {
    if 0.0 < percentile <= 1.0 && samples != [] && Valid(samples) {
      var rank := Rank(|samples|, percentile);
      RankInRange(|samples|, percentile);
      SortKeeps(samples, AtMost(Inf));
      var r := SortSamples(samples)[rank - 1];
      SortedRank(SortSamples(samples), rank - 1);
      SortKeeps(samples, AtMost(r));
      SortKeeps(samples, Below(r));
      StatisticIsSample(samples, rank, r);
      hide SortSamples, Rank, CountWhere;
    }
  }

  lemma {:induction false} TotalOrder(a: Sample, b: Sample)
    requires ValidSample(a) && ValidSample(b)
    ensures Le(a, b) || Lt(b, a)
  {
  }

  /** Raising samples never lowers an order statistic; in particular it is unique. */
  lemma {:induction false} RankMonotone(a: seq<Sample>, b: seq<Sample>, rank: int, r: Sample, q: Sample)
    requires |a| == |b| && Valid(a) && Valid(b) && HasRank(a, rank, r) && HasRank(b, rank, q)
    requires forall i :: 0 <= i < |a| ==> Le(a[i], b[i])
    ensures Le(r, q)
  {
    TotalOrder(r, q);
    if Lt(q, r) {
      CountMonotone(b, a, AtMost(q), Below(r));
    }
  }

  /** The statistic is infinite exactly when the infinite samples are more than those that the
      rank leaves out. */
  lemma {:induction false} InfiniteExactlyWhen(samples: seq<Sample>, rank: int, r: Sample)
    requires Valid(samples) && HasRank(samples, rank, r) && rank <= |samples|
    ensures r.Inf? <==> CountWhere(samples, Infinite()) > |samples| - rank
  {
    CountSplit(samples);
    if r.Inf? {
      CountMonotone(samples, samples, (s: Sample) => !s.Inf?, Below(r));
    } else {
      CountMonotone(samples, samples, AtMost(r), (s: Sample) => !s.Inf?);
    }
  }

  lemma {:induction false} CountSplit(samples: seq<Sample>)
    ensures CountWhere(samples, Infinite()) + CountWhere(samples, (s: Sample) => !s.Inf?) == |samples|
  {
    if samples != [] { CountSplit(samples[1..]); }
  }
}
