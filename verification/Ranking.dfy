/** Ranking metrics: recall, nDCG and complete evidence sets of a retrieved list.

    The discount 1 / log2(rank + 2) enters as any positive decreasing function of the rank, and
    numbers are reals.  A relevance dictionary is the list of its entries in insertion order. */
module Ranking {

  datatype Result<T> = Ok(value: T) | MetricError(message: string)

  datatype Label = Label(id: string, grade: int)

  type Discount = nat -> real

  ghost predicate Positive(d: Discount) { forall i: nat :: d(i) > 0.0 }
  ghost predicate Falling(d: Discount) { forall i: nat :: d(i + 1) <= d(i) }
  ghost predicate StrictlyFalling(d: Discount) { forall i: nat :: d(i + 1) < d(i) }

  predicate Distinct(ids: seq<string>) { forall i, j :: 0 <= i < j < |ids| ==> ids[i] != ids[j] }

  predicate Dictionary(labels: seq<Label>) { forall i, j :: 0 <= i < j < |labels| ==> labels[i].id != labels[j].id }

  predicate Graded(labels: seq<Label>) { forall i :: 0 <= i < |labels| ==> 0 <= labels[i].grade <= 3 }

  function Top<T>(s: seq<T>, k: int): seq<T>
    requires k >= 0
  {
    if k < |s| then s[..k] else s
  }

  // ---------------------------------------------------------------- nDCG

  /** relevance.get(id, 0) */
  function Grade(labels: seq<Label>, id: string): int {
    if labels == [] then 0 else if labels[0].id == id then labels[0].grade else Grade(labels[1..], id)
  }

  /** 2 ** grade - 1, for a grade between 0 and 3. */
  function Gain(grade: int): real {
    if grade >= 3 then 7.0 else if grade == 2 then 3.0 else if grade == 1 then 1.0 else 0.0
  }

  function Gains(ranked: seq<string>, labels: seq<Label>): (r: seq<real>)
    ensures |r| == |ranked|
    ensures forall i :: 0 <= i < |r| ==> r[i] == Gain(Grade(labels, ranked[i]))
  {
    seq(|ranked|, i requires 0 <= i < |ranked| => Gain(Grade(labels, ranked[i])))
  }

  function LabelGrades(labels: seq<Label>): (r: seq<int>)
    ensures |r| == |labels|
    ensures forall i :: 0 <= i < |r| ==> r[i] == labels[i].grade
  {
    seq(|labels|, i requires 0 <= i < |labels| => labels[i].grade)
  }

  function GainsOf(grades: seq<int>): (r: seq<real>)
    ensures |r| == |grades|
    ensures forall i :: 0 <= i < |r| ==> r[i] == Gain(grades[i])
  {
    seq(|grades|, i requires 0 <= i < |grades| => Gain(grades[i]))
  }

  function LabelGains(labels: seq<Label>): seq<real> { GainsOf(LabelGrades(labels)) }

  function Term(gain: real, weight: real): real { gain * weight }

  function Dcg(gains: seq<real>, d: Discount): real {
    if gains == [] then 0.0 else Dcg(gains[..|gains| - 1], d) + Term(gains[|gains| - 1], d(|gains| - 1))
  }

  function InsertDown(s: seq<int>, x: int): seq<int> {
    if s == [] || s[0] <= x then [x] + s else [s[0]] + InsertDown(s[1..], x)
  }

  /** Sorted in descending order. */
  function SortDown(s: seq<int>): seq<int> {
    if s == [] then [] else InsertDown(SortDown(s[1..]), s[0])
  }

  /** The gains of all labelled items, best first. */
  function Best(labels: seq<Label>): seq<real> { GainsOf(SortDown(LabelGrades(labels))) }

  function Ideal(labels: seq<Label>, k: nat): seq<real> { GainsOf(Top(SortDown(LabelGrades(labels)), k)) }

  function NdcgAtK(ranked: seq<string>, labels: seq<Label>, k: int, d: Discount): Result<real> {
    if k <= 0 || labels == [] || !Graded(labels) then MetricError("nDCG requires k>0 and relevance grades 0..3")
    else if !Distinct(ranked) then MetricError("duplicate retrieved evidence IDs")
    else
      var dcg := Dcg(Gains(Top(ranked, k), labels), d);
      var idcg := Dcg(Ideal(labels, k), d);
      if idcg == 0.0 then MetricError("nDCG gold has no positive relevance") else Ok(dcg / idcg)
  }

  // ---------------------------------------------------------------- sums

  function Sum(s: seq<real>): real {
    if s == [] then 0.0 else Sum(s[..|s| - 1]) + s[|s| - 1]
  }

  /** How much a gain exceeds a threshold. */
  function Excess(x: real, t: real): real { if x > t then x - t else 0.0 }

  function TotalExcess(s: seq<real>, t: real): real {
    if s == [] then 0.0 else Excess(s[0], t) + TotalExcess(s[1..], t)
  }

  ghost predicate Descending(s: seq<real>) { forall i, j :: 0 <= i < j < |s| ==> s[i] >= s[j] }

  ghost predicate Falls(s: seq<int>) { forall i, j :: 0 <= i < j < |s| ==> s[i] >= s[j] }

  lemma {:induction false} InsertFalls(s: seq<int>, x: int)
    requires Falls(s)
    ensures Falls(InsertDown(s, x)) && |InsertDown(s, x)| == |s| + 1
    ensures InsertDown(s, x)[0] == if s == [] || s[0] <= x then x else s[0]
  {
    if s != [] && s[0] > x {
      var rest := InsertDown(s[1..], x);
      InsertFalls(s[1..], x);
      var r := InsertDown(s, x);
      assert r == [s[0]] + rest;
      hide InsertDown;
      forall i, j | 0 <= i < j < |r| ensures r[i] >= r[j] {
        assert r[j] == rest[j - 1] <= rest[0];
        if i > 0 { assert r[i] == rest[i - 1]; }
      }
    }
  }

  lemma {:induction false} InsertMembers(s: seq<int>, x: int)
    ensures multiset(InsertDown(s, x)) == multiset(s) + multiset{x}
  {
    if s != [] && s[0] > x {
      InsertMembers(s[1..], x);
      assert s == [s[0]] + s[1..];
    }
  }

  lemma {:induction false} GainsCons(x: int, s: seq<int>, t: real)
    ensures TotalExcess(GainsOf([x] + s), t) == Excess(Gain(x), t) + TotalExcess(GainsOf(s), t)
  {
    assert GainsOf([x] + s)[1..] == GainsOf(s);
  }

  lemma {:induction false} InsertExcess(s: seq<int>, x: int, t: real)
    ensures TotalExcess(GainsOf(InsertDown(s, x)), t) == TotalExcess(GainsOf(s), t) + Excess(Gain(x), t)
  {
    if s == [] || s[0] <= x {
      GainsCons(x, s, t);
    } else {
      InsertExcess(s[1..], x, t);
      assert s == [s[0]] + s[1..];
      GainsCons(s[0], s[1..], t);
      GainsCons(s[0], InsertDown(s[1..], x), t);
    }
  }

  lemma {:induction false} SortFalls(s: seq<int>)
    ensures Falls(SortDown(s)) && |SortDown(s)| == |s| && multiset(SortDown(s)) == multiset(s)
  {
    if s != [] {
      SortFalls(s[1..]);
      InsertFalls(SortDown(s[1..]), s[0]);
      InsertMembers(SortDown(s[1..]), s[0]);
      assert s == [s[0]] + s[1..];
    }
  }

  lemma {:induction false} SortExcess(s: seq<int>, t: real)
    ensures TotalExcess(GainsOf(SortDown(s)), t) == TotalExcess(GainsOf(s), t)
  {
    if s != [] {
      SortExcess(s[1..], t);
      InsertExcess(SortDown(s[1..]), s[0], t);
      assert s == [s[0]] + s[1..];
      GainsCons(s[0], s[1..], t);
    }
  }

  /** The best gains: as many as there are labels, in descending order, none negative, with the
      same excess over any threshold as the labels. */
  lemma {:induction false} BestKeeps(labels: seq<Label>, t: real)
    ensures Descending(Best(labels)) && |Best(labels)| == |labels|
    ensures TotalExcess(Best(labels), t) == TotalExcess(LabelGains(labels), t)
    ensures forall i :: 0 <= i < |Best(labels)| ==> Best(labels)[i] >= 0.0
  {
    SortFalls(LabelGrades(labels));
    SortExcess(LabelGrades(labels), t);
  }

  // ---------------------------------------------------------------- no ranking beats the ideal prefix

  /** The ideal list, continued with zeros. */
  function Padded(s: seq<real>, n: nat): (r: seq<real>)
    ensures |r| == n
    ensures forall i :: 0 <= i < n ==> r[i] == if i < |s| then s[i] else 0.0
  {
    seq(n, i requires 0 <= i < n => if i < |s| then s[i] else 0.0)
  }

  lemma {:induction false} TotalExcessConcat(a: seq<real>, b: seq<real>, t: real)
    ensures TotalExcess(a + b, t) == TotalExcess(a, t) + TotalExcess(b, t)
  {
    if a == [] {
      assert a + b == b;
    } else {
      TotalExcessConcat(a[1..], b, t);
      assert (a + b)[1..] == a[1..] + b;
    }
  }

  /** `n` times `t` */
  function Times(n: nat, t: real): real { if n == 0 then 0.0 else Times(n - 1, t) + t }

  /** Each element is at most the threshold plus its excess. */
  lemma {:induction false} SumBelowExcess(s: seq<real>, t: real)
    ensures Sum(s) <= TotalExcess(s, t) + Times(|s|, t)
  {
    if s != [] {
      var front, last := s[..|s| - 1], s[|s| - 1];
      SumBelowExcess(front, t);
      TotalExcessConcat(front, [last], t);
      assert s == front + [last];
    }
  }

  lemma {:induction false} SumIsExcess(s: seq<real>, t: real)
    requires forall i :: 0 <= i < |s| ==> s[i] >= t
    ensures Sum(s) == TotalExcess(s, t) + Times(|s|, t)
  {
    if s != [] {
      var front, last := s[..|s| - 1], s[|s| - 1];
      SumIsExcess(front, t);
      TotalExcessConcat(front, [last], t);
      assert s == front + [last];
    }
  }

  lemma {:induction false} NoExcess(s: seq<real>, t: real)
    requires forall i :: 0 <= i < |s| ==> s[i] <= t
    ensures TotalExcess(s, t) == 0.0
  {
    if s != [] {
      NoExcess(s[1..], t);
    }
  }

  function Without(labels: seq<Label>, i: nat): seq<Label>
    requires i < |labels|
  {
    labels[..i] + labels[i + 1..]
  }

  lemma {:induction false} GradeOf(labels: seq<Label>, id: string)
    requires Dictionary(labels)
    ensures forall i :: 0 <= i < |labels| && labels[i].id == id ==> Grade(labels, id) == labels[i].grade
    ensures (forall i :: 0 <= i < |labels| ==> labels[i].id != id) ==> Grade(labels, id) == 0
  {
    if labels != [] {
      GradeOf(labels[1..], id);
      assert forall i :: 0 < i < |labels| ==> labels[i] == labels[1..][i - 1];
    }
  }

  lemma {:induction false} WithoutGrade(labels: seq<Label>, i: nat, id: string)
    requires Dictionary(labels) && i < |labels| && id != labels[i].id
    ensures Dictionary(Without(labels, i)) && Grade(Without(labels, i), id) == Grade(labels, id)
  {
    var rest := Without(labels, i);
    forall a, b | 0 <= a < b < |rest| ensures rest[a].id != rest[b].id {
      var a', b' := if a < i then a else a + 1, if b < i then b else b + 1;
      assert rest[a] == labels[a'] && rest[b] == labels[b'];
    }
    GradeOf(labels, id);
    GradeOf(rest, id);
    if a :| 0 <= a < |labels| && labels[a].id == id {
      assert rest[if a < i then a else a - 1] == labels[a];
    } else {
      assert forall b :: 0 <= b < |rest| ==> rest[b] == labels[if b < i then b else b + 1];
    }
  }

  lemma {:induction false} WithoutExcess(labels: seq<Label>, i: nat, t: real)
    requires i < |labels|
    ensures TotalExcess(LabelGains(labels), t) == Excess(Gain(labels[i].grade), t)
        + TotalExcess(LabelGains(Without(labels, i)), t)
  {
    var g := LabelGains(labels);
    assert g == g[..i] + ([g[i]] + g[i + 1..]);
    assert LabelGains(Without(labels, i)) == g[..i] + g[i + 1..];
    TotalExcessConcat(g[..i], [g[i]] + g[i + 1..], t);
    TotalExcessConcat([g[i]], g[i + 1..], t);
    TotalExcessConcat(g[..i], g[i + 1..], t);
  }

  /** Distinct ranked items take their excess from distinct labels. */
  lemma {:induction false} RankedExcess(ranked: seq<string>, labels: seq<Label>, t: real)
    requires Distinct(ranked) && Dictionary(labels) && t >= 0.0
    ensures TotalExcess(Gains(ranked, labels), t) <= TotalExcess(LabelGains(labels), t)
  {
    if ranked == [] {
      ExcessNonNegative(LabelGains(labels), t);
    } else {
      var id, rest := ranked[0], ranked[1..];
      assert Gains(ranked, labels)[1..] == Gains(rest, labels);
      GradeOf(labels, id);
      if i :| 0 <= i < |labels| && labels[i].id == id {
        forall j | 0 <= j < |rest| ensures Grade(Without(labels, i), rest[j]) == Grade(labels, rest[j]) {
          WithoutGrade(labels, i, rest[j]);
        }
        assert Gains(rest, labels) == Gains(rest, Without(labels, i));
        WithoutDictionary(labels, i);
        RankedExcess(rest, Without(labels, i), t);
        WithoutExcess(labels, i, t);
      } else {
        RankedExcess(rest, labels, t);
      }
    }
  }

  lemma {:induction false} WithoutDictionary(labels: seq<Label>, i: nat)
    requires Dictionary(labels) && i < |labels|
    ensures Dictionary(Without(labels, i))
  {
    var rest := Without(labels, i);
    assert forall b :: 0 <= b < |rest| ==> rest[b] == labels[if b < i then b else b + 1];
  }

  lemma {:induction false} ExcessNonNegative(s: seq<real>, t: real)
    ensures TotalExcess(s, t) >= 0.0
  {
    if s != [] { ExcessNonNegative(s[1..], t); }
  }

  /** The first `j` gains of any ranking sum to no more than the `j` largest gains. */
  lemma {:induction false} PrefixBeaten(ranked: seq<string>, labels: seq<Label>, j: nat)
    requires Distinct(ranked) && Dictionary(labels) && j <= |ranked|
    ensures Sum(Gains(ranked[..j], labels)) <= Sum(Padded(Best(labels), j))
  {
    var s := Best(labels);
    BestKeeps(labels, 0.0);
    var t := if j < |s| then s[j] else 0.0;
    BestKeeps(labels, t);
    var best := Padded(s, j);
    SumIsExcess(best, t);
    PaddedExcess(s, j, t);
    hide Best, TotalExcess, Sum, Times, Padded, LabelGains, Gains;
    RankedExcess(ranked[..j], labels, t);
    SumBelowExcess(Gains(ranked[..j], labels), t);
  }

  lemma {:induction false} PaddedExcess(s: seq<real>, j: nat, t: real)
    requires Descending(s) && t == if j < |s| then s[j] else 0.0
    requires forall i :: 0 <= i < |s| ==> s[i] >= 0.0
    ensures TotalExcess(Padded(s, j), t) == TotalExcess(s, t)
  {
    if j < |s| {
      assert s == s[..j] + s[j..];
      assert Padded(s, j) == s[..j];
      TotalExcessConcat(s[..j], s[j..], t);
      NoExcess(s[j..], t);
    } else {
      var zeros := Padded(s, j)[|s|..];
      assert Padded(s, j) == s + zeros;
      TotalExcessConcat(s, zeros, t);
      NoExcess(zeros, t);
    }
  }

  // ---------------------------------------------------------------- summation by parts

  ghost predicate PrefixBelow(x: seq<real>, y: seq<real>) {
    |x| == |y| && forall j :: 0 <= j <= |x| ==> Sum(x[..j]) <= Sum(y[..j])
  }

  lemma {:induction false} PrefixOfPrefix(x: seq<real>, n: nat, j: nat)
    requires j <= n <= |x|
    ensures x[..n][..j] == x[..j]
  {
  }

  lemma {:induction false} PrefixBelowFront(x: seq<real>, y: seq<real>)
    requires PrefixBelow(x, y) && x != []
    ensures PrefixBelow(x[..|x| - 1], y[..|y| - 1])
    ensures Sum(x) <= Sum(y)
  {
    hide Sum;
    PrefixBelowAll(x, y);
    var n := |x| - 1;
    var a, b := x[..n], y[..n];
    forall j | 0 <= j <= n ensures Sum(a[..j]) <= Sum(b[..j]) {
      PrefixOfPrefix(x, n, j);
      PrefixOfPrefix(y, n, j);
    }
  }

  lemma {:induction false} TermLaws(x: real, y: real, w: real)
    ensures Term(y, w) - Term(x, w) == Term(y - x, w)
    ensures x >= 0.0 && w > 0.0 ==> Term(x, w) >= 0.0 && (Term(x, w) == 0.0 <==> x == 0.0)
  {
  }

  lemma {:induction false} TermShrinks(gap: real, before: real, now: real)
    requires gap >= 0.0 && now <= before
    ensures Term(gap, before) >= Term(gap, now)
    ensures now < before && Term(gap, before) <= Term(gap, now) ==> gap == 0.0
  {
    assert Term(gap, before) - Term(gap, now) == gap * (before - now);
  }

  /** The discounted difference is at least the plain difference at the last discount. */
  lemma {:induction false} Abel(x: seq<real>, y: seq<real>, d: Discount)
    requires PrefixBelow(x, y) && x != [] && Positive(d) && Falling(d)
    ensures Dcg(y, d) - Dcg(x, d) >= Term(Sum(y) - Sum(x), d(|x| - 1))
  {
    hide Term;
    PrefixBelowFront(x, y);
    var n := |x| - 1;
    var a, b := x[..n], y[..n];
    var gap := Sum(b) - Sum(a);
    PrefixBelowAll(a, b);
    TermLaws(x[n], y[n], d(n));
    TermLaws(-gap, y[n] - x[n], d(n));
    TermNegates(gap, d(n));
    if n > 0 {
      Abel(a, b, d);
      assert d(n - 1 + 1) <= d(n - 1);
      TermShrinks(gap, d(n - 1), d(n));
    } else {
      assert gap == 0.0;
    }
  }

  lemma {:induction false} TermNegates(x: real, w: real)
    ensures Term(-x, w) == -Term(x, w)
    ensures x == 0.0 ==> Term(x, w) == 0.0
  {
  }

  lemma {:induction false} PrefixBelowAll(x: seq<real>, y: seq<real>)
    requires PrefixBelow(x, y)
    ensures Sum(x) <= Sum(y)
  {
    assert x[..|x|] == x && y[..|y|] == y;
  }

  /** With a strictly falling discount, equal totals force equal lists. */
  lemma {:induction false} AbelEqual(x: seq<real>, y: seq<real>, d: Discount)
    requires PrefixBelow(x, y) && Positive(d) && StrictlyFalling(d)
    requires Dcg(y, d) == Dcg(x, d)
    ensures x == y
  {
    if x != [] {
      hide Term;
      PrefixBelowFront(x, y);
      var n := |x| - 1;
      var a, b := x[..n], y[..n];
      assert Falling(d);
      Abel(x, y, d);
      TermLaws(Sum(y) - Sum(x), 0.0, d(n));
      assert Sum(x) == Sum(y);
      PrefixBelowAll(a, b);
      var gap := Sum(b) - Sum(a);
      TermLaws(x[n], y[n], d(n));
      TermNegates(gap, d(n));
      assert Dcg(b, d) - Dcg(a, d) == Term(gap, d(n));
      if n > 0 {
        Abel(a, b, d);
        assert d(n - 1 + 1) < d(n - 1);
        TermShrinks(gap, d(n - 1), d(n));
      } else {
        assert gap == 0.0;
      }
      AbelEqual(a, b, d);
      assert x == a + [x[n]] && y == b + [y[n]];
    }
  }

  // ---------------------------------------------------------------- the metric

  lemma {:induction false} DcgPadded(s: seq<real>, n: nat, d: Discount)
    requires |s| <= n
    ensures Dcg(Padded(s, n), d) == Dcg(s, d)
  {
    if |s| < n {
      DcgPadded(s, n - 1, d);
      TermNegates(0.0, d(n - 1));
      assert Padded(s, n)[..n - 1] == Padded(s, n - 1);
    } else {
      assert Padded(s, n) == s;
    }
  }

  lemma {:induction false} DcgGrows(s: seq<real>, n: nat, d: Discount)
    requires n <= |s| && Positive(d) && forall i :: 0 <= i < |s| ==> s[i] >= 0.0
    ensures Dcg(s[..n], d) <= Dcg(s, d)
  {
    if n < |s| {
      var front := s[..|s| - 1];
      assert front[..n] == s[..n];
      hide Term;
      DcgGrows(front, n, d);
      TermLaws(s[|s| - 1], 0.0, d(|s| - 1));
    } else {
      assert s[..n] == s;
    }
  }

  /** The ranking's gains against the ideal ones at the same positions. */
  lemma {:induction false} RankedBelowIdeal(ranked: seq<string>, labels: seq<Label>, k: nat)
    requires Distinct(ranked) && Dictionary(labels)
    ensures
      var top := Top(ranked, k);
      PrefixBelow(Gains(top, labels), Padded(Best(labels), |top|))
  {
    var top, s := Top(ranked, k), Best(labels);
    var x, y := Gains(top, labels), Padded(s, |top|);
    forall j | 0 <= j <= |x| ensures Sum(x[..j]) <= Sum(y[..j]) {
      PrefixBeaten(top, labels, j);
      assert x[..j] == Gains(top[..j], labels);
      assert y[..j] == Padded(s, j);
    }
  }

  /** The ideal total is the discounted total of the ideal list up to the ranking's length, plus
      what the ideal list has beyond it. */
  lemma {:induction false} IdealSplits(labels: seq<Label>, k: nat, m: nat, d: Discount)
    requires m <= k && Positive(d)
    ensures Dcg(Padded(Best(labels), m), d) <= Dcg(Ideal(labels, k), d)
  {
    var s := Best(labels);
    BestKeeps(labels, 0.0);
    SortFalls(LabelGrades(labels));
    var ideal := Ideal(labels, k);
    assert forall i :: 0 <= i < |ideal| ==> ideal[i] == s[i];
    if m <= |ideal| {
      assert Padded(s, m) == ideal[..m];
      DcgGrows(ideal, m, d);
    } else {
      assert ideal == s;
      DcgPadded(s, m, d);
    }
  }

  lemma {:induction false} GainsNonNegative(ranked: seq<string>, labels: seq<Label>, d: Discount)
    requires Positive(d)
    ensures Dcg(Gains(ranked, labels), d) >= 0.0
  {
    DcgGrows(Gains(ranked, labels), 0, d);
  }

  /** The ranking's total never exceeds the ideal one. */
  lemma {:induction false} DcgBelowIdeal(ranked: seq<string>, labels: seq<Label>, k: nat, d: Discount)
    requires Distinct(ranked) && Dictionary(labels) && Positive(d) && Falling(d)
    ensures
      var top := Top(ranked, k);
      Dcg(Gains(top, labels), d) <= Dcg(Padded(Best(labels), |top|), d) <= Dcg(Ideal(labels, k), d)
  {
    var top := Top(ranked, k);
    var x, y := Gains(top, labels), Padded(Best(labels), |top|);
    hide Gains, Padded, Best, LabelGains, Ideal, Term;
    RankedBelowIdeal(ranked, labels, k);
    IdealSplits(labels, k, |top|, d);
    hide Dcg, Sum;
    if x != [] {
      Abel(x, y, d);
      PrefixBelowAll(x, y);
      TermLaws(Sum(y) - Sum(x), 0.0, d(|x| - 1));
    }
  }

  ghost predicate SomeRelevant(labels: seq<Label>) { exists i :: 0 <= i < |labels| && labels[i].grade > 0 }

  /** There is a score exactly when k is positive, the grades are grades, the ranking has no
      duplicate and some item is relevant; the score is between zero and one. */
  lemma {:induction false} NdcgIsNormalized(ranked: seq<string>, labels: seq<Label>, k: int, d: Discount)
    requires Dictionary(labels) && Positive(d) && Falling(d)
    ensures
      var r := NdcgAtK(ranked, labels, k, d);
      && (r.Ok? <==> k > 0 && Graded(labels) && Distinct(ranked) && SomeRelevant(labels))
      && (r.Ok? ==> 0.0 <= r.value <= 1.0)
  {
    hide Dcg, Gains, Ideal, Positive, Falling, Dictionary;
    if k > 0 && labels != [] && Graded(labels) && Distinct(ranked) {
      hide Graded, Distinct, SomeRelevant;
      IdealIsPositive(labels, k, d);
      GainsNonNegative(Top(ranked, k), labels, d);
      DcgBelowIdeal(ranked, labels, k, d);
      var dcg, idcg := Dcg(Gains(Top(ranked, k), labels), d), Dcg(Ideal(labels, k), d);
      if idcg > 0.0 { DivideBetween(dcg, idcg); }
    }
  }

  lemma {:induction false} DivideBetween(a: real, b: real)
    requires 0.0 <= a <= b && b > 0.0
    ensures 0.0 <= a / b <= 1.0
    ensures a / b == 1.0 <==> a == b
  {
  }

  /** With the real discount, which falls strictly, the score is one exactly when the ranking
      shows, position by position, the largest gains there are, down to where only zeros remain. */
  lemma {:induction false} PerfectExactlyWhenIdeal(ranked: seq<string>, labels: seq<Label>, k: int, d: Discount)
    requires Dictionary(labels) && Positive(d) && StrictlyFalling(d) && NdcgAtK(ranked, labels, k, d).Ok?
    ensures
      NdcgAtK(ranked, labels, k, d).value == 1.0
      <==> Padded(Gains(Top(ranked, k), labels), k) == Padded(Best(labels), k)
  {
    var top, s := Top(ranked, k), Best(labels);
    var x, ideal := Gains(top, labels), Ideal(labels, k);
    assert Falling(d);
    IdealIsPositive(labels, k, d);
    GainsNonNegative(top, labels, d);
    DcgBelowIdeal(ranked, labels, k, d);
    DivideBetween(Dcg(x, d), Dcg(ideal, d));
    BestKeeps(labels, 0.0);
    SortFalls(LabelGrades(labels));
    assert Padded(s, k) == Padded(ideal, k);
    DcgPadded(ideal, k, d);
    DcgPadded(x, k, d);
    hide Dcg, Ideal, SortDown, Gains;
    if Dcg(x, d) == Dcg(ideal, d) {
      RankedBelowIdeal(ranked, labels, k);
      PaddedBelow(x, s, k);
      AbelEqual(Padded(x, k), Padded(s, k), d);
    }
  }

  /** Zeros after the ranking keep it below the ideal list. */
  lemma {:induction false} PaddedBelow(x: seq<real>, s: seq<real>, k: nat)
    requires |x| <= k && PrefixBelow(x, Padded(s, |x|)) && forall i :: 0 <= i < |s| ==> s[i] >= 0.0
    ensures PrefixBelow(Padded(x, k), Padded(s, k))
  {
    forall j: nat | j <= k ensures Sum(Padded(x, k)[..j]) <= Sum(Padded(s, k)[..j]) {
      assert Padded(x, k)[..j] == Padded(x, j) && Padded(s, k)[..j] == Padded(s, j);
      PaddedBelowAt(x, s, j);
    }
  }

  lemma {:induction false} PaddedBelowAt(x: seq<real>, s: seq<real>, j: nat)
    requires PrefixBelow(x, Padded(s, |x|)) && forall i :: 0 <= i < |s| ==> s[i] >= 0.0
    ensures Sum(Padded(x, j)) <= Sum(Padded(s, j))
  {
    if j <= |x| {
      assert x[..j] == Padded(x, j) && Padded(s, |x|)[..j] == Padded(s, j);
    } else {
      PaddedBelowAt(x, s, j - 1);
      assert Padded(x, j)[..j - 1] == Padded(x, j - 1) && Padded(s, j)[..j - 1] == Padded(s, j - 1);
    }
  }

  lemma {:induction false} FirstIsLargest(g: seq<int>)
    requires g != []
    ensures
      var s := SortDown(g);
      |s| == |g| && (forall i :: 0 <= i < |g| ==> g[i] <= s[0]) && (forall p :: 0 <= p < |s| ==> s[p] in g)
  {
    var s := SortDown(g);
    SortFalls(g);
    hide SortDown;
    forall p | 0 <= p < |s| ensures s[p] in g { assert s[p] in multiset(s); assert s[p] in multiset(g); }
    forall i | 0 <= i < |g| ensures g[i] <= s[0] {
      assert g[i] in multiset(g);
      assert g[i] in multiset(s);
      var p :| 0 <= p < |s| && s[p] == g[i];
    }
  }

  lemma {:induction false} IdealIsPositive(labels: seq<Label>, k: int, d: Discount)
    requires k > 0 && labels != [] && Graded(labels) && Positive(d)
    ensures Dcg(Ideal(labels, k), d) >= 0.0
    ensures Dcg(Ideal(labels, k), d) != 0.0 <==> SomeRelevant(labels)
  {
    var g, ideal := LabelGrades(labels), Ideal(labels, k);
    var s := SortDown(g);
    FirstIsLargest(g);
    hide SortDown, Dcg, Term;
    DcgGrows(ideal, 1, d);
    DcgGrows(ideal, 0, d);
    FirstTerm(ideal, d);
    TermLaws(Gain(s[0]), 0.0, d(0));
    if i :| 0 <= i < |labels| && labels[i].grade > 0 {
      assert g[i] > 0;
    } else {
      assert forall i :: 0 <= i < |g| ==> g[i] == 0;
      ZeroDcg(ideal, d);
    }
  }

  lemma {:induction false} FirstTerm(s: seq<real>, d: Discount)
    requires s != []
    ensures Dcg(s[..1], d) == Term(s[0], d(0)) && Dcg(s[..0], d) == 0.0
  {
    assert s[..1][..0] == [];
  }

  lemma {:induction false} ZeroDcg(s: seq<real>, d: Discount)
    requires forall i :: 0 <= i < |s| ==> s[i] == 0.0
    ensures Dcg(s, d) == 0.0
  {
    if s != [] {
      ZeroDcg(s[..|s| - 1], d);
      TermNegates(s[|s| - 1], d(|s| - 1));
    }
  }

  // ---------------------------------------------------------------- what raises the score

  function Pow2(n: nat): nat { if n == 0 then 1 else 2 * Pow2(n - 1) }

  /** The gain of a grade is two to its power, less one; an item without a label gains nothing. */
  lemma {:induction false} GainIsPower(labels: seq<Label>, id: string, i: nat)
    requires Dictionary(labels) && Graded(labels)
    ensures i < |labels| && labels[i].id == id ==>
        labels[i].grade >= 0 && Gain(Grade(labels, id)) == (Pow2(labels[i].grade) - 1) as real
    ensures (forall j :: 0 <= j < |labels| ==> labels[j].id != id) ==> Gain(Grade(labels, id)) == 0.0
  {
    assert Pow2(1) == 2 && Pow2(2) == 4 && Pow2(3) == 8;
    if labels != [] {
      GainIsPower(labels[1..], id, if i > 0 then i - 1 else |labels|);
      if 0 < i < |labels| && labels[i].id == id {
        assert labels[1..][i - 1] == labels[i] && labels[0].id != id;
      }
    }
  }

  lemma {:induction false} DcgUpdate(gains: seq<real>, i: nat, x: real, d: Discount)
    requires i < |gains|
    ensures Dcg(gains[i := x], d) == Dcg(gains, d) + (x - gains[i]) * d(i)
  {
    var n := |gains| - 1;
    var front, changed := gains[..n], gains[i := x];
    if i < n {
      DcgUpdate(front, i, x, d);
      assert changed[..n] == front[i := x];
    } else {
      assert changed[..n] == front;
      TermDifference(x, gains[i], d(i));
    }
  }

  lemma {:induction false} TermDifference(x: real, y: real, w: real)
    ensures Term(x, w) == Term(y, w) + (x - y) * w
  {
  }

  /** Exchanging two items changes the sum by the product of the differences of gains and weights. */
  lemma {:induction false} DcgSwap(gains: seq<real>, i: nat, j: nat, d: Discount)
    requires i < j < |gains|
    ensures Dcg(gains[i := gains[j]][j := gains[i]], d) == Dcg(gains, d) + (gains[j] - gains[i]) * (d(i) - d(j))
  {
    DcgUpdate(gains, i, gains[j], d);
    DcgUpdate(gains[i := gains[j]], j, gains[i], d);
    hide Dcg;
    Products(gains[i], gains[j], d(i), d(j));
  }

  lemma {:induction false} Products(a: real, b: real, v: real, w: real)
    ensures (b - a) * v + (a - b) * w == (b - a) * (v - w)
  {
  }

  lemma {:induction false} LaterWeighsLess(d: Discount, i: nat, j: nat)
    requires StrictlyFalling(d) && i < j
    ensures d(j) < d(i)
  {
    assert d(j) < d(j - 1);
    if i < j - 1 { LaterWeighsLess(d, i, j - 1); }
  }

  lemma {:induction false} DivideStrict(a: real, b: real, n: real)
    requires a < b && n > 0.0
    ensures a / n < b / n
  {
  }

  /** Showing a better item earlier raises the score: exchanging it, among the first k, with a
      worse one before it. */
  lemma {:induction false} BetterFirstScoresMore(
      ranked: seq<string>, labels: seq<Label>, k: int, d: Discount, i: nat, j: nat)
    requires Dictionary(labels) && Positive(d) && StrictlyFalling(d) && NdcgAtK(ranked, labels, k, d).Ok?
    requires i < j < |ranked| && j < k
    requires Gain(Grade(labels, ranked[i])) < Gain(Grade(labels, ranked[j]))
    ensures
      var swapped := ranked[i := ranked[j]][j := ranked[i]];
      && NdcgAtK(swapped, labels, k, d).Ok?
      && NdcgAtK(ranked, labels, k, d).value < NdcgAtK(swapped, labels, k, d).value
  {
    hide Dcg, Ideal, Positive, Graded, Dictionary;
    var swapped := ranked[i := ranked[j]][j := ranked[i]];
    var x := Gains(Top(ranked, k), labels);
    assert Gains(Top(swapped, k), labels) == x[i := x[j]][j := x[i]];
    assert x[i] < x[j];
    hide Gains;
    assert Distinct(swapped);
    hide Distinct;
    assert Falling(d);
    IdealIsPositive(labels, k, d);
    SwapRaises(x, i, j, d);
    hide StrictlyFalling, Falling;
    DivideStrict(Dcg(x, d), Dcg(x[i := x[j]][j := x[i]], d), Dcg(Ideal(labels, k), d));
  }

  lemma {:induction false} SwapRaises(gains: seq<real>, i: nat, j: nat, d: Discount)
    requires StrictlyFalling(d) && i < j < |gains| && gains[i] < gains[j]
    ensures Dcg(gains, d) < Dcg(gains[i := gains[j]][j := gains[i]], d)
  {
    hide Dcg;
    DcgSwap(gains, i, j, d);
    LaterWeighsLess(d, i, j);
    hide StrictlyFalling;
    PositiveProduct(gains[j] - gains[i], d(i) - d(j));
  }

  lemma {:induction false} PositiveProduct(a: real, b: real)
    requires a > 0.0 && b > 0.0
    ensures a * b > 0.0
  {
  }

  // ---------------------------------------------------------------- recall and complete sets

  function Ids(ranked: seq<string>): set<string> { set i | 0 <= i < |ranked| :: ranked[i] }

  function RecallAtK(ranked: seq<string>, acceptable: set<string>, k: int): Result<real> {
    if k <= 0 || acceptable == {} then MetricError("recall requires k>0 and non-empty gold")
    else if !Distinct(ranked) then MetricError("duplicate retrieved evidence IDs")
    else Ok(Ratio(|Ids(Top(ranked, k)) * acceptable|, |acceptable|))
  }

  function Ratio(a: nat, n: nat): real
    requires n > 0
  {
    a as real / n as real
  }

  function RequiredSetComplete(ranked: seq<string>, sets: seq<set<string>>, k: int): Result<bool> {
    if k <= 0 || sets == [] || (exists i :: 0 <= i < |sets| && sets[i] == {}) then
      MetricError("required evidence sets must be non-empty")
    else Ok(exists i :: 0 <= i < |sets| && sets[i] <= Ids(Top(ranked, k)))
  }

  lemma {:induction false} SubsetSize<T>(a: set<T>, b: set<T>)
    requires a <= b
    ensures |a| <= |b| && (|a| == |b| <==> a == b)
  {
    assert b == a + (b - a);
  }

  /** Recall is between zero and one, one exactly when everything acceptable is retrieved, and
      never falls as k grows. */
  lemma {:induction false} RecallIsNormalized(ranked: seq<string>, acceptable: set<string>, k: int, more: int)
    requires RecallAtK(ranked, acceptable, k).Ok? && k <= more
    ensures
      var r := RecallAtK(ranked, acceptable, k).value;
      && 0.0 <= r <= 1.0
      && (r == 1.0 <==> acceptable <= Ids(Top(ranked, k)))
      && RecallAtK(ranked, acceptable, more).Ok? && r <= RecallAtK(ranked, acceptable, more).value
  {
    var a, b := Ids(Top(ranked, k)), Ids(Top(ranked, more));
    TopGrows(ranked, k, more);
    SubsetSize(a * acceptable, acceptable);
    SubsetSize(a * acceptable, b * acceptable);
    hide Ids;
    var n := |acceptable| as real;
    DivideBetween(|a * acceptable| as real, n);
    DivideMonotone(|a * acceptable| as real, |b * acceptable| as real, n);
  }

  /** How many positions of a ranking show something acceptable. */
  function Hits(ranked: seq<string>, acceptable: set<string>): nat {
    if ranked == [] then 0
    else Hits(ranked[..|ranked| - 1], acceptable) + if ranked[|ranked| - 1] in acceptable then 1 else 0
  }

  lemma {:induction false} HitsAreFound(ranked: seq<string>, acceptable: set<string>)
    requires Distinct(ranked)
    ensures Hits(ranked, acceptable) == |Ids(ranked) * acceptable|
  {
    if ranked != [] {
      var front, last := ranked[..|ranked| - 1], ranked[|ranked| - 1];
      HitsAreFound(front, acceptable);
      assert front + [last] == ranked;
      IdsAppend(front, last);
      assert last !in Ids(front);
      if last in acceptable {
        assert Ids(ranked) * acceptable == Ids(front) * acceptable + {last};
      } else {
        assert Ids(ranked) * acceptable == Ids(front) * acceptable;
      }
    } else {
      assert Ids(ranked) * acceptable == {};
    }
  }

  /** Recall is the share of the acceptable items that the first k positions show. */
  lemma {:induction false} RecallIsShare(ranked: seq<string>, acceptable: set<string>, k: int)
    ensures
      var r := RecallAtK(ranked, acceptable, k);
      && (r.Ok? <==> k > 0 && acceptable != {} && Distinct(ranked))
      && (r.Ok? ==> r.value * |acceptable| as real == Hits(Top(ranked, k), acceptable) as real)
  {
    if k > 0 && acceptable != {} && Distinct(ranked) {
      assert Distinct(Top(ranked, k));
      hide Hits, Ids, Distinct, Top;
      HitsAreFound(Top(ranked, k), acceptable);
      hide Ratio;
      RatioTimes(|Ids(Top(ranked, k)) * acceptable|, |acceptable|);
    }
  }

  lemma {:induction false} RatioTimes(a: nat, n: nat)
    requires n > 0
    ensures Ratio(a, n) * n as real == a as real
  {
  }

  lemma {:induction false} DivideMonotone(a: real, b: real, n: real)
    requires a <= b && n > 0.0
    ensures a / n <= b / n
  {
  }

  /** The ranking with repetitions dropped. */
  function Deduplicated(s: seq<string>): (r: seq<string>)
    ensures Distinct(r) && Ids(r) == Ids(s) && |r| <= |s|
    ensures Distinct(s) ==> r == s
  {
    if s == [] then []
    else
      var n := |s| - 1;
      var front := Deduplicated(s[..n]);
      IdsAppend(s[..n], s[n]);
      IdsAppend(front, s[n]);
      assert s[..n] + [s[n]] == s;
      if s[n] in Ids(s[..n]) then front else front + [s[n]]
  }

  lemma {:induction false} IdsAppend(s: seq<string>, x: string)
    ensures Ids(s + [x]) == Ids(s) + {x}
  {
    var more := s + [x];
    assert more[|s|] == x;
    forall i | 0 <= i < |s| ensures s[i] in Ids(more) { assert more[i] == s[i]; }
  }

  /** Of any ranking, repetitions or not, the answer exists exactly when every set has a recall
      among the distinct items of the first k, is yes exactly when one of these recalls is one,
      and stays yes as k grows. */
  lemma {:induction false} CompleteIffSomeRecallIsOne(ranked: seq<string>, sets: seq<set<string>>, k: int, more: int)
    requires k <= more
    ensures RequiredSetComplete(ranked, sets, k).Ok? ==> k > 0
    ensures k > 0 ==>
      var complete, items := RequiredSetComplete(ranked, sets, k), Deduplicated(Top(ranked, k));
      && (complete.Ok? <==> sets != [] && forall i :: 0 <= i < |sets| ==> RecallAtK(items, sets[i], k).Ok?)
      && (complete.Ok? ==>
            && (complete.value <==> exists i :: 0 <= i < |sets| && RecallAtK(items, sets[i], k) == Ok(1.0))
            && RequiredSetComplete(ranked, sets, more).Ok?
            && (complete.value ==> RequiredSetComplete(ranked, sets, more).value))
  {
    if k > 0 {
      var items := Deduplicated(Top(ranked, k));
      assert Top(items, k) == items;
      forall i | 0 <= i < |sets| && RecallAtK(items, sets[i], k).Ok?
        ensures sets[i] <= Ids(Top(ranked, k)) <==> RecallAtK(items, sets[i], k) == Ok(1.0)
      {
        RecallIsNormalized(items, sets[i], k, k);
      }
      TopGrows(ranked, k, more);
      hide Ids, Distinct, Top;
    }
  }

  lemma {:induction false} TopGrows(ranked: seq<string>, k: int, more: int)
    requires 0 < k <= more
    ensures Ids(Top(ranked, k)) <= Ids(Top(ranked, more))
  {
    var b := Top(ranked, more);
    forall i | 0 <= i < |Top(ranked, k)| ensures Top(ranked, k)[i] in Ids(b) { assert b[i] == Top(ranked, k)[i]; }
  }
}
