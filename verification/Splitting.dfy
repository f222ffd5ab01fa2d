/** How the inference worker cuts a batch into runs of the model.

    A run pads every input to the longest one, so its cost is the number of inputs times the
    longest length.  The worker sorts a batch by length and cuts it greedily.  The cut is a
    partition, every piece fits the padded-token budget, and no grouping of the same items
    whatsoever, contiguous or not, uses fewer runs. */
module Splitting {

  ghost predicate Sorted(lens: seq<nat>) {
    forall i, j :: 0 <= i < j < |lens| ==> lens[i] <= lens[j]
  }

  /** What tokenization guarantees of every queued item. */
  ghost predicate Runnable(lens: seq<nat>, budget: nat) {
    forall i :: 0 <= i < |lens| ==> 0 < lens[i] <= budget
  }

  // ---------------------------------------------------------------- cuts

  /** `cuts` are the boundaries 0 = c0 < c1 < ... < ck = |lens| of k consecutive segments. */
  ghost predicate Boundaries(cuts: seq<nat>, n: nat) {
    && |cuts| > 0 && cuts[0] == 0 && cuts[|cuts| - 1] == n
    && forall j :: 0 < j < |cuts| ==> cuts[j - 1] < cuts[j]
  }

  /** The segment [first, end) fits when padded to its longest, that is its last, input. */
  ghost predicate Fits(lens: seq<nat>, budget: nat, first: nat, end: nat) {
    first < end <= |lens| && (end - first) * lens[end - 1] <= budget
  }

  /** The segment [first, end) could not take one input more. */
  ghost predicate Full(lens: seq<nat>, budget: nat, first: nat, end: nat) {
    first < end <= |lens| && (end < |lens| ==> (end - first + 1) * lens[end] > budget)
  }

  ghost predicate Segments(lens: seq<nat>, budget: nat, cuts: seq<nat>) {
    forall j :: 0 < j < |cuts| ==> Fits(lens, budget, cuts[j - 1], cuts[j]) && Full(lens, budget, cuts[j - 1], cuts[j])
  }

  /** Division as the source writes the test, multiplication as the budget means it. */
  lemma {:induction false} QuotientTest(count: nat, budget: nat, len: nat)
    requires len > 0
    ensures count <= budget / len <==> count * len <= budget
  {
    var q := budget / len;
    assert q * len <= budget < (q + 1) * len;
    if count <= q {
      assert count * len <= q * len;
    } else {
      assert count * len >= (q + 1) * len;
    }
  }

  /** The end of the segment that starts at `first`. */
  method SegmentEnd(lens: seq<nat>, budget: nat, first: nat) returns (end: nat)
    requires first < |lens| && Runnable(lens, budget)
    ensures Fits(lens, budget, first, end) && Full(lens, budget, first, end)
  {
    end := first + 1;
    while end < |lens| && end - first + 1 <= budget / lens[end]
      invariant Fits(lens, budget, first, end)
    {
      QuotientTest(end - first + 1, budget, lens[end]);
      end := end + 1;
    }
    if end < |lens| {
      QuotientTest(end - first + 1, budget, lens[end]);
    }
  }

  method Split(lens: seq<nat>, budget: nat) returns (cuts: seq<nat>)
    requires Runnable(lens, budget)
    ensures Boundaries(cuts, |lens|) && Segments(lens, budget, cuts)
  {
    cuts := [0];
    var first := 0;
    while first < |lens|
      invariant first <= |lens|
      invariant Boundaries(cuts, first) && Segments(lens, budget, cuts)
    {
      var end := SegmentEnd(lens, budget, first);
      cuts := cuts + [end];
      first := end;
    }
  }

  // ---------------------------------------------------------------- no grouping does better

  /** A set of input positions that may run together. */
  ghost predicate Affordable(lens: seq<nat>, budget: nat, group: set<nat>) {
    forall i :: i in group ==> i < |lens| && |group| * lens[i] <= budget
  }

  ghost predicate AllAffordable(lens: seq<nat>, budget: nat, groups: seq<set<nat>>) {
    forall k :: 0 <= k < |groups| ==> Affordable(lens, budget, groups[k])
  }

  ghost function Union(groups: seq<set<nat>>): set<nat> {
    if groups == [] then {} else groups[0] + Union(groups[1..])
  }

  function Below(n: nat): (r: set<nat>)
    ensures |r| == n
    ensures forall i: nat :: i in r <==> i < n
  {
    if n == 0 then {} else Below(n - 1) + {n - 1}
  }

  lemma {:induction false} SubsetSize(a: set<nat>, b: set<nat>)
    requires a <= b
    ensures |a| <= |b|
  {
    assert b == a + (b - a);
  }

  /** More than `c` positions cannot all lie below `c`. */
  lemma {:induction false} SomePositionAtLeast(s: set<nat>, c: nat) returns (m: nat)
    requires |s| > c
    ensures m in s && c <= m
  {
    if forall i :: i in s ==> i < c {
      SubsetSize(s, Below(c));
      assert false;
    }
    m :| m in s && c <= m;
  }

  lemma {:induction false} GroupOf(groups: seq<set<nat>>, m: nat) returns (k: nat)
    requires m in Union(groups)
    ensures k < |groups| && m in groups[k]
  {
    if m in groups[0] {
      k := 0;
    } else {
      k := GroupOf(groups[1..], m);
      k := k + 1;
    }
  }

  lemma {:induction false} UnionWithout(groups: seq<set<nat>>, k: nat)
    requires k < |groups|
    ensures Union(groups) == groups[k] + Union(groups[..k] + groups[k + 1..])
    ensures |Union(groups[..k] + groups[k + 1..])| >= |Union(groups)| - |groups[k]|
  {
    var rest := groups[..k] + groups[k + 1..];
    if k == 0 {
      assert rest == groups[1..];
    } else {
      UnionWithout(groups[1..], k - 1);
      assert rest[0] == groups[0] && rest[1..] == groups[1..][..k - 1] + groups[1..][k..];
    }
    SubsetSize(Union(groups), groups[k] + Union(rest));
    UnionSize(groups[k], Union(rest));
  }

  lemma {:induction false} UnionSize(a: set<nat>, b: set<nat>)
    ensures |a + b| <= |a| + |b|
  {
    assert |a + b| + |a * b| == |a| + |b|;
  }

  /** A group that reaches position `m` or beyond is no larger than the greedy segment before
      the cut at `c <= m`. */
  lemma {:induction false} GroupIsSmall(lens: seq<nat>, budget: nat, b: nat, c: nat, m: nat, group: set<nat>)
    requires Sorted(lens) && Full(lens, budget, b, c) && c <= m
    requires Affordable(lens, budget, group) && m in group
    ensures |group| <= c - b
  {
    assert lens[c] <= lens[m];
    if |group| > c - b {
      assert |group| * lens[m] >= (c - b + 1) * lens[c] by {
        MultiplyMonotone(c - b + 1, |group|, lens[c], lens[m]);
      }
      assert false;
    }
  }

  lemma {:induction false} MultiplyMonotone(a: nat, b: nat, x: nat, y: nat)
    requires a <= b && x <= y
    ensures a * x <= b * y
  {
    assert a * x <= a * y;
    assert a * y <= b * y;
  }

  /** Covering more than `cuts[j]` positions takes more than `j` groups. */
  lemma {:induction false} Needs(lens: seq<nat>, budget: nat, cuts: seq<nat>, j: nat, groups: seq<set<nat>>)
    requires Sorted(lens) && Boundaries(cuts, |lens|) && Segments(lens, budget, cuts)
    requires j < |cuts| && AllAffordable(lens, budget, groups)
    requires |Union(groups)| > cuts[j]
    ensures |groups| > j
  {
    if j == 0 {
      assert groups != [];
    } else {
      hide Affordable, Fits, Full, Sorted;
      var m := SomePositionAtLeast(Union(groups), cuts[j]);
      var k := GroupOf(groups, m);
      assert Full(lens, budget, cuts[j - 1], cuts[j]);
      GroupIsSmall(lens, budget, cuts[j - 1], cuts[j], m, groups[k]);
      UnionWithout(groups, k);
      Needs(lens, budget, cuts, j - 1, groups[..k] + groups[k + 1..]);
    }
  }

  /** The greedy cut uses the fewest runs: any affordable groups that cover all inputs, whatever
      their shape, are at least as many as the segments. */
  lemma {:induction false} FewestRuns(lens: seq<nat>, budget: nat, cuts: seq<nat>, groups: seq<set<nat>>)
    requires Sorted(lens) && Boundaries(cuts, |lens|) && Segments(lens, budget, cuts)
    requires AllAffordable(lens, budget, groups)
    requires Below(|lens|) <= Union(groups)
    ensures |groups| >= |cuts| - 1
  {
    SubsetSize(Below(|lens|), Union(groups));
    if |cuts| > 1 {
      Needs(lens, budget, cuts, |cuts| - 2, groups);
    }
  }

  /** The segments are themselves such groups, so the bound is met. */
  lemma {:induction false} SegmentIsAffordable(lens: seq<nat>, budget: nat, first: nat, end: nat)
    requires Sorted(lens) && Fits(lens, budget, first, end)
    ensures Affordable(lens, budget, Below(end) - Below(first))
  {
    var group := Below(end) - Below(first);
    assert Below(end) == group + Below(first);
    assert |group| == end - first;
    forall i | i in group ensures |group| * lens[i] <= budget {
      MultiplyMonotone(|group|, |group|, lens[i], lens[end - 1]);
    }
  }

  // ---------------------------------------------------------------- the model's own checks

  function Longest(lens: seq<nat>): (r: nat)
    ensures forall i :: 0 <= i < |lens| ==> lens[i] <= r
    ensures lens != [] ==> r in lens
  {
    if |lens| == 0 then 0
    else if |lens| == 1 then lens[0]
    else
      var rest := Longest(lens[1..]);
      if lens[0] > rest then lens[0] else rest
  }

  /** The checks ModelRuntime::Run makes on its inputs before running the model. */
  predicate RunAccepts(inputs: seq<nat>, maxTokens: nat, budget: nat) {
    && 0 < |inputs| <= 128
    && (forall i :: 0 <= i < |inputs| ==> 0 < inputs[i] <= maxTokens)
    && |inputs| <= budget / Longest(inputs)
  }

  /** `active` picks positions of the segment [first, end), in order. */
  ghost predicate Survivors(active: seq<nat>, first: nat, end: nat) {
    && (forall k :: 0 <= k < |active| ==> first <= active[k] < end)
    && (forall k, m :: 0 <= k < m < |active| ==> active[k] < active[m])
  }

  lemma {:induction false} SurvivorsAreFewer(active: seq<nat>, first: nat, end: nat)
    requires Survivors(active, first, end) && first <= end
    ensures |active| <= end - first
  {
    if active != [] {
      var last := active[|active| - 1];
      SurvivorsAreFewer(active[..|active| - 1], first, last);
    }
  }

  function Pick(lens: seq<nat>, active: seq<nat>): (r: seq<nat>)
    requires forall k :: 0 <= k < |active| ==> active[k] < |lens|
    ensures |r| == |active|
    ensures forall k :: 0 <= k < |active| ==> r[k] == lens[active[k]]
  {
    seq(|active|, k requires 0 <= k < |active| => lens[active[k]])
  }

  /** Whatever items of a segment are dropped because they expired or were cancelled, the rest
      pass every check of the model: an execution never fails on its size. */
  lemma {:induction false} RunNeverRejects(
      lens: seq<nat>, maxTokens: nat, budget: nat, first: nat, end: nat, active: seq<nat>)
    requires Sorted(lens) && |lens| <= 128
    requires forall i :: 0 <= i < |lens| ==> 0 < lens[i] <= maxTokens
    requires Fits(lens, budget, first, end)
    requires Survivors(active, first, end) && active != []
    ensures RunAccepts(Pick(lens, active), maxTokens, budget)
  {
    var inputs := Pick(lens, active);
    SurvivorsAreFewer(active, first, end);
    var longest := Longest(inputs);
    var k :| 0 <= k < |inputs| && inputs[k] == longest;
    assert longest == lens[active[k]] <= lens[end - 1];
    assert forall i :: 0 <= i < |inputs| ==> 0 < inputs[i] <= maxTokens;
    hide Sorted, Survivors, Pick, Longest;
    MultiplyMonotone(|inputs|, end - first, longest, lens[end - 1]);
    QuotientTest(|inputs|, budget, longest);
  }
}
