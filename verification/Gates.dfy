/** Release gates: one result per gate, from declarations and measured runs.

    A gate passes only on valid evidence in which every run passes, adding runs never makes a
    failed gate pass, and the release passes exactly when every required gate does. */
module Gates {
  import opened Wrappers
  import opened Percentiles

  datatype Operator = AtMostThreshold | AtLeastThreshold

  datatype Gate = Gate(id: string, workload: string, required: bool, operator: Operator, threshold: real)

  datatype Status = PASS | FAIL | BLOCKED | NOT_MEASURED | NOT_APPLICABLE

  /** A workload's declaration, read in the order the source checks it. */
  datatype Declaration =
    | Malformed
    | NotApplicable(reason: string)
    | BlockedWorkload
    | UnknownStatus
    | Measured(factErrors: bool)

  /** A run after _assess_run: its estimate and whether it has ancillary failures. */
  datatype Assessment = Invalid | Assessed(value: Sample, denominator: nat, ancillary: bool)

  datatype Run = Run(id: string, assessment: Assessment)

  datatype Measurement = Unreadable | Runs(runs: seq<Run>)

  const MAX_U64: nat := 0xFFFF_FFFF_FFFF_FFFF

  datatype Input = Input(
    gates: seq<Gate>,
    workloads: map<string, Declaration>,
    measurements: map<string, Measurement>,
    releaseProfile: bool,
    globalErrors: bool,
    expectedRuns: nat)

  // ---------------------------------------------------------------- one gate

  predicate Passes(gate: Gate, value: Sample) {
    match gate.operator
    case AtMostThreshold => Le(value, Fin(gate.threshold)) && !value.Nan?
    case AtLeastThreshold => Le(Fin(gate.threshold), value)
  }

  predicate RunPasses(gate: Gate, run: Run) {
    run.assessment.Assessed? && Passes(gate, run.assessment.value) && !run.assessment.ancillary
  }

  predicate UniqueRuns(runs: seq<Run>) { forall i, j :: 0 <= i < j < |runs| ==> runs[i].id != runs[j].id }

  predicate AllAssessed(runs: seq<Run>) { forall i :: 0 <= i < |runs| ==> runs[i].assessment.Assessed? }

  function Denominators(runs: seq<Run>): nat
    requires AllAssessed(runs)
  {
    if runs == [] then 0 else Denominators(runs[..|runs| - 1]) + runs[|runs| - 1].assessment.denominator
  }

  /** Enough distinct, valid runs. */
  ghost predicate RunsInOrder(gate: Gate, runs: seq<Run>, expected: nat) {
    && runs != [] && (gate.required ==> |runs| >= expected) && UniqueRuns(runs) && AllAssessed(runs)
    && Denominators(runs) <= MAX_U64
  }

  ghost predicate AllPass(gate: Gate, runs: seq<Run>) { forall i :: 0 <= i < |runs| ==> RunPasses(gate, runs[i]) }

  /** Evidence is in order: declared measured, no prerequisite error, runs in order. */
  ghost predicate Evidenced(input: Input, gate: Gate, runs: seq<Run>) {
    && gate.workload in input.workloads && input.workloads[gate.workload] == Measured(false) && !input.globalErrors
    && gate.id in input.measurements && input.measurements[gate.id] == Runs(runs)
    && RunsInOrder(gate, runs, input.expectedRuns)
  }

  ghost predicate HasPassed(input: Input, gate: Gate) {
    exists runs :: Evidenced(input, gate, runs) && AllPass(gate, runs)
  }

  ghost predicate HasFailed(input: Input, gate: Gate) {
    exists runs :: Evidenced(input, gate, runs) && !AllPass(gate, runs)
  }

  /** Declared measured, nothing against it, and no measurement. */
  predicate IsUnmeasured(input: Input, gate: Gate) {
    && gate.workload in input.workloads && input.workloads[gate.workload] == Measured(false) && !input.globalErrors
    && gate.id !in input.measurements
  }

  /** Declared not applicable with a reason, and allowed to be. */
  predicate IsExempt(input: Input, gate: Gate) {
    && gate.workload in input.workloads && input.workloads[gate.workload].NotApplicable?
    && input.workloads[gate.workload].reason != "" && !(input.releaseProfile && gate.required)
  }

  /** What each status means.  A gate passes exactly when its evidence is in order and every run
      passes, and fails exactly when its evidence is in order and some run does not: missing or
      invalid evidence is never either. */
  ghost predicate Decides(input: Input, gate: Gate, status: Status) {
    && (status.PASS? <==> HasPassed(input, gate))
    && (status.FAIL? <==> HasFailed(input, gate))
    && (status.NOT_MEASURED? <==> IsUnmeasured(input, gate))
    && (status.NOT_APPLICABLE? <==> IsExempt(input, gate))
  }

  /** Adding runs never turns a failed gate into a passed one. */
  lemma {:induction false} ExtraRunsNeverRescue(input: Input, gate: Gate, runs: seq<Run>, extra: seq<Run>)
    requires HasFailed(input, gate) && gate.id in input.measurements && input.measurements[gate.id] == Runs(runs)
    ensures !HasPassed(input.(measurements := input.measurements[gate.id := Runs(runs + extra)]), gate)
  {
    var i :| 0 <= i < |runs| && !RunPasses(gate, runs[i]);
    assert (runs + extra)[i] == runs[i];
  }

  /** A run passes exactly when nothing ancillary failed and its value is on the right side of the
      threshold, which itself passes; infinity is above every threshold. */
  lemma {:induction false} ThresholdDecides(gate: Gate, run: Run)
    requires run.assessment.Assessed? && ValidSample(run.assessment.value)
    ensures
      var value := run.assessment.value;
      RunPasses(gate, run)
      <==> && !run.assessment.ancillary
           && (gate.operator.AtMostThreshold? ==> value.Fin? && value.value <= gate.threshold)
           && (gate.operator.AtLeastThreshold? ==> value.Inf? || value.value >= gate.threshold)
  {
  }

  /** Improving a run's value never makes it fail. */
  lemma {:induction false} BetterStillPasses(gate: Gate, a: Sample, b: Sample)
    requires ValidSample(a) && ValidSample(b) && Passes(gate, a)
    requires if gate.operator.AtMostThreshold? then Le(b, a) else Le(a, b)
    ensures Passes(gate, b)
  {
  }

  // ---------------------------------------------------------------- the reported value

  /** The worst value of the runs: the largest under an upper bound, the smallest under a lower. */
  function Worse(gate: Gate, a: Sample, b: Sample): Sample {
    match gate.operator
    case AtMostThreshold => if Le(b, a) then a else b
    case AtLeastThreshold => if Le(a, b) then a else b
  }

  function Worst(gate: Gate, runs: seq<Run>): Sample
    requires runs != [] && AllAssessed(runs)
  {
    var n := |runs| - 1;
    if n == 0 then runs[0].assessment.value else Worse(gate, Worst(gate, runs[..n]), runs[n].assessment.value)
  }

  ghost predicate ValidRuns(runs: seq<Run>) {
    AllAssessed(runs) && forall i :: 0 <= i < |runs| ==> ValidSample(runs[i].assessment.value)
  }

  /** The reported worst value passes the threshold exactly when every run's value does. */
  lemma {:induction false} WorstDecides(gate: Gate, runs: seq<Run>)
    requires runs != [] && ValidRuns(runs)
    ensures ValidSample(Worst(gate, runs))
    ensures Passes(gate, Worst(gate, runs)) <==> forall i :: 0 <= i < |runs| ==> Passes(gate, runs[i].assessment.value)
  {
    var n := |runs| - 1;
    if n > 0 {
      WorstDecides(gate, runs[..n]);
      assert runs == runs[..n] + [runs[n]];
      assert forall i :: 0 <= i < n ==> runs[i] == runs[..n][i];
    }
  }

  /** It is the value of one of the runs, and no run's value is worse. */
  lemma {:induction false} WorstIsExtreme(gate: Gate, runs: seq<Run>)
    requires runs != [] && ValidRuns(runs)
    ensures exists i :: 0 <= i < |runs| && runs[i].assessment.value == Worst(gate, runs)
    ensures forall i :: 0 <= i < |runs| ==>
        var value := runs[i].assessment.value;
        if gate.operator.AtMostThreshold? then Le(value, Worst(gate, runs)) else Le(Worst(gate, runs), value)
  {
    var n := |runs| - 1;
    var front, last := runs[..n], runs[n].assessment.value;
    if n > 0 {
      WorstIsExtreme(gate, front);
      var worst := Worst(gate, front);
      var i :| 0 <= i < n && front[i].assessment.value == worst;
      assert runs[i].assessment.value == worst && runs[n].assessment.value == last;
      assert forall j :: 0 <= j < n ==> runs[j] == front[j];
    } else {
      assert runs[0].assessment.value == Worst(gate, runs);
    }
  }

  // ---------------------------------------------------------------- one gate

  function RunIds(runs: seq<Run>): set<string> { set i | 0 <= i < |runs| :: runs[i].id }

  lemma {:induction false} RunIdsAppend(runs: seq<Run>, n: nat)
    requires n + 1 == |runs|
    ensures RunIds(runs) == RunIds(runs[..n]) + {runs[n].id}
  {
    var front := runs[..n];
    forall i | 0 <= i < n ensures front[i].id in RunIds(runs) { assert runs[i] == front[i]; }
    forall id | id in RunIds(runs) ensures id in RunIds(front) + {runs[n].id} {
      var i :| 0 <= i < |runs| && runs[i].id == id;
      if i < n { assert front[i].id == id; }
    }
  }

  lemma {:induction false} UniqueRunsAppend(runs: seq<Run>, n: nat)
    requires n + 1 == |runs|
    ensures UniqueRuns(runs) <==> UniqueRuns(runs[..n]) && runs[n].id !in RunIds(runs[..n])
  {
    var front := runs[..n];
    if runs[n].id in RunIds(front) {
      var i :| 0 <= i < n && front[i].id == runs[n].id;
      assert runs[i].id == runs[n].id;
    } else {
      assert forall i :: 0 <= i < n ==> front[i].id in RunIds(front) && front[i] == runs[i];
    }
  }

  /** As many identities as runs means no identity twice. */
  lemma {:induction false} RunIdsCount(runs: seq<Run>)
    ensures |RunIds(runs)| <= |runs|
    ensures |RunIds(runs)| == |runs| <==> UniqueRuns(runs)
  {
    if runs != [] {
      var n := |runs| - 1;
      RunIdsAppend(runs, n);
      UniqueRunsAppend(runs, n);
      RunIdsCount(runs[..n]);
      hide RunIds, UniqueRuns;
      assert runs[n].id in RunIds(runs[..n]) ==> RunIds(runs) == RunIds(runs[..n]);
    }
  }

  datatype Judgement = Judgement(status: Status, worst: Sample, denominator: nat)

  /** Judges the runs of a measurement: blocked unless they are in order, else passed or failed,
      with the worst value and all samples together. */
  method JudgeRuns(gate: Gate, runs: seq<Run>, expected: nat) returns (r: Judgement)
    ensures r.status.PASS? <==> RunsInOrder(gate, runs, expected) && AllPass(gate, runs)
    ensures r.status.FAIL? <==> RunsInOrder(gate, runs, expected) && !AllPass(gate, runs)
    ensures r.status.PASS? || r.status.FAIL? || r.status.BLOCKED?
    ensures !r.status.BLOCKED? ==> r.worst == Worst(gate, runs) && r.denominator == Denominators(runs)
  {
    hide RunPasses, Worse;
    if runs == [] { return Judgement(BLOCKED, Inf, 0); }
    if gate.required && |runs| < expected { return Judgement(BLOCKED, Inf, 0); }
    RunIdsCount(runs);
    if |RunIds(runs)| != |runs| { return Judgement(BLOCKED, Inf, 0); }
    var failed, worst, total := false, Inf, 0;
    for k := 0 to |runs|
      invariant AllAssessed(runs[..k]) && total == Denominators(runs[..k])
      invariant k > 0 ==> worst == Worst(gate, runs[..k])
      invariant failed <==> exists i :: 0 <= i < k && !RunPasses(gate, runs[i])
    {
      assert runs[..k + 1][..k] == runs[..k];
      if runs[k].assessment.Invalid? { return Judgement(BLOCKED, Inf, 0); }
      var value := runs[k].assessment.value;
      failed := failed || !RunPasses(gate, runs[k]);
      worst := if k == 0 then value else Worse(gate, worst, value);
      total := total + runs[k].assessment.denominator;
    }
    assert runs[..|runs|] == runs;
    if total > MAX_U64 { return Judgement(BLOCKED, Inf, 0); }
    r := Judgement(if failed then FAIL else PASS, worst, total);
  }

  /** The evidence of a gate is the runs it was measured with. */
  lemma {:induction false} EvidenceIsMeasured(input: Input, gate: Gate, runs: seq<Run>)
    requires gate.id in input.measurements && input.measurements[gate.id] == Runs(runs)
    ensures HasPassed(input, gate) <==> Evidenced(input, gate, runs) && AllPass(gate, runs)
    ensures HasFailed(input, gate) <==> Evidenced(input, gate, runs) && !AllPass(gate, runs)
  {
    assert forall all :: Evidenced(input, gate, all) ==> all == runs;
  }

  method EvaluateGate(input: Input, gate: Gate) returns (status: Status)
    ensures Decides(input, gate, status)
  {
    hide RunsInOrder, AllPass;
    if gate.workload !in input.workloads { return BLOCKED; }
    match input.workloads[gate.workload] {
      case Malformed => return BLOCKED;
      case NotApplicable(reason) =>
        if reason == "" { return BLOCKED; }
        return if input.releaseProfile && gate.required then BLOCKED else NOT_APPLICABLE;
      case BlockedWorkload => return BLOCKED;
      case UnknownStatus => return BLOCKED;
      case Measured(factErrors) =>
        if input.globalErrors || factErrors { return BLOCKED; }
    }
    if gate.id !in input.measurements { return NOT_MEASURED; }
    if input.measurements[gate.id].Unreadable? { return BLOCKED; }
    var runs := input.measurements[gate.id].runs;
    EvidenceIsMeasured(input, gate, runs);
    hide HasPassed, HasFailed;
    var judgement := JudgeRuns(gate, runs, input.expectedRuns);
    status := judgement.status;
  }

  // ---------------------------------------------------------------- all gates

  function CountOf(results: seq<Status>, status: Status): nat {
    if results == [] then 0
    else CountOf(results[..|results| - 1], status) + (if results[|results| - 1] == status then 1 else 0)
  }

  /** Every result is counted once. */
  lemma {:induction false} CountsAddUp(results: seq<Status>)
    ensures |results| == CountOf(results, PASS) + CountOf(results, FAIL) + CountOf(results, BLOCKED)
                       + CountOf(results, NOT_MEASURED) + CountOf(results, NOT_APPLICABLE)
  {
    if results != [] { CountsAddUp(results[..|results| - 1]); }
  }

  ghost predicate SomeRequired(gates: seq<Gate>, results: seq<Status>, status: Status)
    requires |gates| == |results|
  {
    exists i :: 0 <= i < |gates| && gates[i].required && results[i] == status
  }

  /** The status of the release, from the results of the required gates. */
  method ReleaseOf(gates: seq<Gate>, results: seq<Status>) returns (release: Status)
    requires |gates| == |results|
    ensures release.FAIL? <==> SomeRequired(gates, results, FAIL)
    ensures release.PASS? <==> forall i :: 0 <= i < |gates| && gates[i].required ==> results[i].PASS?
    ensures release.NOT_MEASURED? <==>
      && SomeRequired(gates, results, NOT_MEASURED)
      && !SomeRequired(gates, results, FAIL) && !SomeRequired(gates, results, BLOCKED)
    ensures !release.NOT_APPLICABLE?
  {
    var failed, blocked, unmeasured, passed := false, false, false, true;
    for k := 0 to |gates|
      invariant failed <==> SomeRequired(gates[..k], results[..k], FAIL)
      invariant blocked <==> SomeRequired(gates[..k], results[..k], BLOCKED)
      invariant unmeasured <==> SomeRequired(gates[..k], results[..k], NOT_MEASURED)
      invariant passed <==> forall i :: 0 <= i < k && gates[i].required ==> results[i].PASS?
    {
      SomeRequiredStep(gates, results, k, FAIL);
      SomeRequiredStep(gates, results, k, BLOCKED);
      SomeRequiredStep(gates, results, k, NOT_MEASURED);
      if gates[k].required {
        failed, blocked := failed || results[k].FAIL?, blocked || results[k].BLOCKED?;
        unmeasured, passed := unmeasured || results[k].NOT_MEASURED?, passed && results[k].PASS?;
      }
    }
    assert gates[..|gates|] == gates && results[..|results|] == results;
    release := if failed then FAIL else if blocked then BLOCKED else if unmeasured then NOT_MEASURED
               else if passed then PASS else BLOCKED;
  }

  lemma {:induction false} SomeRequiredStep(gates: seq<Gate>, results: seq<Status>, k: nat, status: Status)
    requires k < |gates| == |results|
    ensures SomeRequired(gates[..k + 1], results[..k + 1], status)
      <==> SomeRequired(gates[..k], results[..k], status) || (gates[k].required && results[k] == status)
  {
    var g, r := gates[..k + 1], results[..k + 1];
    assert g[k] == gates[k] && r[k] == results[k];
    if SomeRequired(gates[..k], results[..k], status) {
      var i :| 0 <= i < k && gates[..k][i].required && results[..k][i] == status;
      assert g[i].required && r[i] == status;
    }
    if i :| 0 <= i < k && g[i].required && r[i] == status {
      assert gates[..k][i].required && results[..k][i] == status;
    }
  }

  /** One result per gate, in the order of the gates, each meaning what it says.  The release
      passes exactly when every required gate has evidence in order in which every run passes, and
      fails exactly when some required gate has evidence in order in which some run does not. */
  method EvaluateGates(input: Input) returns (results: seq<Status>, release: Status, counts: map<Status, nat>)
    ensures |results| == |input.gates|
    ensures forall i :: 0 <= i < |results| ==> Decides(input, input.gates[i], results[i])
    ensures release.PASS? <==> forall i :: 0 <= i < |input.gates| && input.gates[i].required ==>
        HasPassed(input, input.gates[i])
    ensures release.FAIL? <==>
        exists i :: 0 <= i < |input.gates| && input.gates[i].required && HasFailed(input, input.gates[i])
    ensures counts == map status: Status | status in STATUSES :: CountOf(results, status)
  {
    hide Decides, CountOf;
    results := [];
    counts := map status | status in STATUSES :: 0;
    NothingCounted();
    for k := 0 to |input.gates|
      invariant |results| == k && forall i :: 0 <= i < k ==> Decides(input, input.gates[i], results[i])
      invariant counts == map status: Status | status in STATUSES :: CountOf(results, status)
    {
      var status := EvaluateGate(input, input.gates[k]);
      OneMoreCounted(results, status);
      assert status.PASS? || status.FAIL? || status.BLOCKED? || status.NOT_MEASURED? || status.NOT_APPLICABLE?;
      results, counts := results + [status], counts[status := counts[status] + 1];
    }
    release := ReleaseOf(input.gates, results);
    ResultsMean(input, results);
  }

  lemma {:induction false} NothingCounted()
    ensures forall status :: CountOf([], status) == 0
  {
  }

  lemma {:induction false} OneMoreCounted(results: seq<Status>, status: Status)
    ensures forall other ::
        CountOf(results + [status], other) == CountOf(results, other) + (if other == status then 1 else 0)
  {
    assert (results + [status])[..|results|] == results;
  }

  lemma {:induction false} ResultsMean(input: Input, results: seq<Status>)
    requires |results| == |input.gates|
    requires forall i :: 0 <= i < |results| ==> Decides(input, input.gates[i], results[i])
    ensures forall i :: 0 <= i < |results| ==>
        && (results[i].PASS? <==> HasPassed(input, input.gates[i]))
        && (results[i].FAIL? <==> HasFailed(input, input.gates[i]))
  {
    hide HasPassed, HasFailed, IsUnmeasured, IsExempt;
  }

  const STATUSES: set<Status> := {PASS, FAIL, BLOCKED, NOT_MEASURED, NOT_APPLICABLE}

  // ---------------------------------------------------------------- latency of failed arrivals

  datatype Observation = Observation(completionNs: nat, succeeded: bool, rejected: bool) {
    predicate Counts() { completionNs > 0 && succeeded && !rejected }
  }

  /** The latency in milliseconds of an arrival that succeeded; infinity for any other. */
  function Latency(o: Observation): Sample {
    if o.Counts() then Fin(o.completionNs as real / 1_000_000.0) else Inf
  }

  function Latencies(os: seq<Observation>): (r: seq<Sample>)
    ensures |r| == |os| && forall i :: 0 <= i < |r| ==> r[i] == Latency(os[i])
  {
    seq(|os|, i requires 0 <= i < |os| => Latency(os[i]))
  }

  function Unsuccessful(os: seq<Observation>): nat {
    if os == [] then 0
    else
      var o := os[0];
      (if o.completionNs == 0 || !o.succeeded || o.rejected then 1 else 0) + Unsuccessful(os[1..])
  }

  lemma {:induction false} UnsuccessfulAreInfinite(os: seq<Observation>)
    ensures CountWhere(Latencies(os), Infinite()) == Unsuccessful(os)
  {
    if os != [] {
      UnsuccessfulAreInfinite(os[1..]);
      assert Latencies(os)[1..] == Latencies(os[1..]);
    }
  }

  lemma {:induction false} LatencyIsValid(o: Observation)
    ensures ValidSample(Latency(o))
  {
    if o.Counts() { assert o.completionNs as real / 1_000_000.0 >= 0.0; }
  }

  /** Survivorship is impossible: the p95 of a run is infinite exactly when fewer than 95 % of its
      arrivals were successful, and such a run fails every upper-bound gate; otherwise it is the
      latency in milliseconds of one of the successful arrivals. */
  lemma {:induction false} FailuresFailTheGate(gate: Gate, os: seq<Observation>, percentile: real)
    requires os != [] && 0.0 < percentile <= 1.0
    ensures NearestRank(Latencies(os), percentile).Ok?
    ensures
      var r := NearestRank(Latencies(os), percentile).value.value;
      && (r.Inf? <==> (|os| - Unsuccessful(os)) as real < percentile * |os| as real)
      && (r.Fin? ==>
            exists o :: o in os && o.succeeded && !o.rejected && r.value * 1_000_000.0 == o.completionNs as real)
      && (r.Inf? && gate.operator.AtMostThreshold? ==> !Passes(gate, r))
  {
    forall i | 0 <= i < |os| ensures ValidSample(Latencies(os)[i]) { LatencyIsValid(os[i]); }
    NearestRankIsOrderStatistic(Latencies(os), percentile);
    RankInRange(|os|, percentile);
    UnsuccessfulAreInfinite(os);
    var r := NearestRank(Latencies(os), percentile).value.value;
    InfiniteExactlyWhen(Latencies(os), Rank(|os|, percentile), r);
    var i :| 0 <= i < |os| && Latencies(os)[i] == r;
    assert os[i] in os;
    hide NearestRank, Rank, Unsuccessful, CountWhere;
    if r.Fin? { MillisecondsOf(os[i]); }
  }

  lemma {:induction false} MillisecondsOf(o: Observation)
    ensures Latency(o).Fin? ==> o.succeeded && !o.rejected && Latency(o).value * 1_000_000.0 == o.completionNs as real
  {
  }

  /** So a gate on that percentile does not pass while any of its runs has that many failures. */
  lemma {:induction false} ManyFailuresNeverPass(
      input: Input, gate: Gate, runs: seq<Run>, k: nat, os: seq<Observation>, percentile: real)
    requires gate.id in input.measurements && input.measurements[gate.id] == Runs(runs)
        && gate.operator.AtMostThreshold?
    requires k < |runs| && os != [] && 0.0 < percentile <= 1.0
    requires runs[k].assessment.Assessed?
        && NearestRank(Latencies(os), percentile) == Ok(Estimate(runs[k].assessment.value, |os|))
    requires (|os| - Unsuccessful(os)) as real < percentile * |os| as real
    ensures !HasPassed(input, gate)
  {
    FailuresFailTheGate(gate, os, percentile);
    hide NearestRank, Unsuccessful;
    assert !RunPasses(gate, runs[k]);
  }
}
