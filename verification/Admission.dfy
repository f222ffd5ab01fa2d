/** The admission counters of an RPC: at most eight calls in progress, at most two of them bulk.

    The counters are atomics that a refused call raises for a moment and lowers again.  In every
    interleaving they bound the admitted calls, and bulk calls never take more than two of the
    eight counts, so six remain for queries.  A call can however be refused while fewer than
    eight calls are admitted: the calls that are being refused count too. */
module Admission {
  const MAX_CALLS: nat := 8
  const MAX_BULK: nat := 2

  datatype Phase = Arriving | BulkRefused | Holding | CallRefused | Admitted | Releasing | Left

  datatype Call = Call(bulk: bool, phase: Phase) {
    /** Whether the call has raised, and not yet lowered, each counter. */
    predicate CountsCall() { phase.CallRefused? || phase.Admitted? }
    predicate CountsBulk() { bulk && !phase.Arriving? && !phase.Left? }
    /** Whether it raised the bulk counter and was let through. */
    predicate HoldsBulk() { CountsBulk() && !phase.BulkRefused? }
  }

  /** All calls so far, and the two counters. */
  datatype State = State(threads: seq<Call>, calls: int, bulkCalls: int)

  function Count(threads: seq<Call>, f: Call -> bool): nat {
    if threads == [] then 0 else (if f(threads[0]) then 1 else 0) + Count(threads[1..], f)
  }

  function CountsCall(): Call -> bool { (c: Call) => c.CountsCall() }
  function CountsBulk(): Call -> bool { (c: Call) => c.CountsBulk() }
  function HoldsBulk(): Call -> bool { (c: Call) => c.HoldsBulk() }
  function IsAdmitted(): Call -> bool { (c: Call) => c.phase.Admitted? }
  function IsRefused(): Call -> bool { (c: Call) => c.phase.CallRefused? }

  function Bit(b: bool): int { if b then 1 else 0 }

  lemma {:induction false} CountUpdate(threads: seq<Call>, i: nat, c: Call, f: Call -> bool)
    requires i < |threads|
    ensures Count(threads[i := c], f) == Count(threads, f) - Bit(f(threads[i])) + Bit(f(c))
  {
    var after := threads[i := c];
    if i > 0 {
      CountUpdate(threads[1..], i - 1, c, f);
      assert after[1..] == threads[1..][i - 1 := c];
    } else {
      assert after[1..] == threads[1..];
    }
  }

  lemma {:induction false} CountAppend(threads: seq<Call>, c: Call, f: Call -> bool)
    ensures Count(threads + [c], f) == Count(threads, f) + Bit(f(c))
  {
    if threads != [] {
      CountAppend(threads[1..], c, f);
      assert (threads + [c])[1..] == threads[1..] + [c];
    } else {
      assert threads + [c] == [c];
    }
  }

  lemma {:induction false} CountSplit(threads: seq<Call>, f: Call -> bool, g: Call -> bool, h: Call -> bool)
    requires forall c :: Bit(f(c)) == Bit(g(c)) + Bit(h(c))
    ensures Count(threads, f) == Count(threads, g) + Count(threads, h)
  {
    if threads != [] {
      CountSplit(threads[1..], f, g, h);
    }
  }

  /** A call arrives, or call `i` performs its next atomic access. */
  datatype Step = Arrive(bulk: bool) | Advance(i: nat)

  function Next(s: State, c: Call): (Phase, int, int) {
    match c.phase
    case Arriving =>
      if !c.bulk then (Holding, 0, 0)
      else if s.bulkCalls >= MAX_BULK then (BulkRefused, 0, 1)
      else (Holding, 0, 1)
    case BulkRefused => (Left, 0, -1)
    case Holding => if s.calls >= MAX_CALLS then (CallRefused, 1, 0) else (Admitted, 1, 0)
    case CallRefused => (Releasing, -1, 0)
    case Admitted => (Releasing, -1, 0)
    case Releasing => (Left, 0, if c.bulk then -1 else 0)
    case Left => (Left, 0, 0)
  }

  function Apply(s: State, step: Step): State {
    match step
    case Arrive(bulk) => s.(threads := s.threads + [Call(bulk, Arriving)])
    case Advance(i) =>
      if i >= |s.threads| then s
      else
        var (phase, calls, bulkCalls) := Next(s, s.threads[i]);
        State(s.threads[i := s.threads[i].(phase := phase)], s.calls + calls, s.bulkCalls + bulkCalls)
  }

  function Run(s: State, steps: seq<Step>): State
    decreases |steps|
  {
    if steps == [] then s else Run(Apply(s, steps[0]), steps[1..])
  }

  const START: State := State([], 0, 0)

  ghost predicate Inv(s: State) {
    && s.calls == Count(s.threads, CountsCall())
    && s.bulkCalls == Count(s.threads, CountsBulk())
    && Count(s.threads, IsAdmitted()) <= MAX_CALLS
    && Count(s.threads, HoldsBulk()) <= MAX_BULK
    && (forall i :: 0 <= i < |s.threads| && s.threads[i].phase.BulkRefused? ==> s.threads[i].bulk)
  }

  lemma {:induction false} CountLess(threads: seq<Call>, f: Call -> bool, g: Call -> bool)
    requires forall c :: f(c) ==> g(c)
    ensures Count(threads, f) <= Count(threads, g)
  {
    if threads != [] { CountLess(threads[1..], f, g); }
  }

  lemma {:induction false} ArriveKeeps(s: State, bulk: bool)
    requires Inv(s)
    ensures Inv(Apply(s, Arrive(bulk)))
  {
    hide Count;
    var c := Call(bulk, Arriving);
    CountAppend(s.threads, c, CountsCall());
    CountAppend(s.threads, c, CountsBulk());
    CountAppend(s.threads, c, IsAdmitted());
    CountAppend(s.threads, c, HoldsBulk());
  }

  lemma {:induction false} AdvanceKeeps(s: State, i: nat)
    requires Inv(s) && i < |s.threads|
    ensures Inv(Apply(s, Advance(i)))
  {
    CountLess(s.threads, IsAdmitted(), CountsCall());
    CountLess(s.threads, HoldsBulk(), CountsBulk());
    hide Count;
    var c := s.threads[i].(phase := Next(s, s.threads[i]).0);
    CountUpdate(s.threads, i, c, CountsCall());
    CountUpdate(s.threads, i, c, CountsBulk());
    CountUpdate(s.threads, i, c, IsAdmitted());
    CountUpdate(s.threads, i, c, HoldsBulk());
  }

  lemma {:induction false} StepKeeps(s: State, step: Step)
    requires Inv(s)
    ensures Inv(Apply(s, step))
  {
    hide Inv;
    match step
    case Arrive(bulk) => ArriveKeeps(s, bulk);
    case Advance(i) => if i < |s.threads| { AdvanceKeeps(s, i); }
  }

  lemma {:induction false} RunKeeps(s: State, steps: seq<Step>)
    requires Inv(s)
    ensures Inv(Run(s, steps))
    decreases |steps|
  {
    if steps != [] {
      StepKeeps(s, steps[0]);
      RunKeeps(Apply(s, steps[0]), steps[1..]);
    }
  }

  function AdmittedBulk(): Call -> bool { (c: Call) => c.bulk && c.phase.Admitted? }

  /** In every interleaving at most eight calls are admitted and at most two of them are bulk;
      the counters are exact and return to zero when every call has left. */
  lemma {:induction false} AdmissionIsBounded(steps: seq<Step>)
    ensures
      var s := Run(START, steps);
      && Count(s.threads, IsAdmitted()) <= 8
      && Count(s.threads, AdmittedBulk()) <= 2
      && ((forall i :: 0 <= i < |s.threads| ==> s.threads[i].phase.Left?) ==> s.calls == 0 && s.bulkCalls == 0)
  {
    RunKeeps(START, steps);
    var s := Run(START, steps);
    CountLess(s.threads, AdmittedBulk(), HoldsBulk());
    if forall i :: 0 <= i < |s.threads| ==> s.threads[i].phase.Left? {
      AllLeft(s.threads, CountsCall());
      AllLeft(s.threads, CountsBulk());
    }
  }

  lemma {:induction false} AllLeft(threads: seq<Call>, f: Call -> bool)
    requires forall i :: 0 <= i < |threads| ==> threads[i].phase.Left?
    requires f == CountsCall() || f == CountsBulk()
    ensures Count(threads, f) == 0
  {
    if threads != [] {
      AllLeft(threads[1..], f);
    }
  }

  /** A waiting call is refused exactly when the admitted calls and the refused calls that have
      not lowered the counter yet are together eight or more. */
  lemma {:induction false} RefusedExactlyWhen(steps: seq<Step>, i: nat)
    requires
      var s := Run(START, steps);
      i < |s.threads| && s.threads[i].phase.Holding?
    ensures
      var s := Run(START, steps);
      Apply(s, Advance(i)).threads[i].phase.CallRefused?
      <==> Count(s.threads, IsAdmitted()) + Count(s.threads, IsRefused()) >= 8
  {
    RunKeeps(START, steps);
    CountSplit(Run(START, steps).threads, CountsCall(), IsAdmitted(), IsRefused());
  }

  function QueryCounts(): Call -> bool { (c: Call) => !c.bulk && c.CountsCall() }
  function BulkCounts(): Call -> bool { (c: Call) => c.bulk && c.CountsCall() }
  function AdmittedQuery(): Call -> bool { (c: Call) => !c.bulk && c.phase.Admitted? }

  /** Six of the eight slots are kept for queries: bulk calls never account for more than two
      counts, so a call that is refused finds at least six queries counted before it. */
  lemma {:induction false} SixSlotsForQueries(steps: seq<Step>, i: nat)
    ensures
      var s := Run(START, steps);
      && s.calls == Count(s.threads, QueryCounts()) + Count(s.threads, BulkCounts())
      && Count(s.threads, BulkCounts()) <= 2
      && (i < |s.threads| && s.threads[i].phase.Holding? && Apply(s, Advance(i)).threads[i].phase.CallRefused? ==>
            Count(s.threads, QueryCounts()) >= 6)
  {
    RunKeeps(START, steps);
    var s := Run(START, steps);
    CountSplit(s.threads, CountsCall(), QueryCounts(), BulkCounts());
    CountLess(s.threads, BulkCounts(), HoldsBulk());
  }

  /** While no call is being refused, a call is refused exactly when eight are admitted, and then
      at least six of those are queries. */
  lemma {:induction false} RefusedOnlyWhenFull(steps: seq<Step>, i: nat)
    requires
      var s := Run(START, steps);
      i < |s.threads| && s.threads[i].phase.Holding? && Count(s.threads, IsRefused()) == 0
    ensures
      var s := Run(START, steps);
      && (Apply(s, Advance(i)).threads[i].phase.CallRefused? <==> Count(s.threads, IsAdmitted()) == 8)
      && (Apply(s, Advance(i)).threads[i].phase.CallRefused? ==>
          Count(s.threads, AdmittedQuery()) >= 6)
  {
    RefusedExactlyWhen(steps, i);
    AdmissionIsBounded(steps);
    CountSplit(Run(START, steps).threads, IsAdmitted(), AdmittedQuery(), AdmittedBulk());
  }

  /** In general "refused only when eight calls are admitted" fails exactly while the admitted
      calls are fewer than eight and the calls being refused make up the difference. */
  lemma {:induction false} RefusedEarlyExactlyWhen(steps: seq<Step>, i: nat)
    requires
      var s := Run(START, steps);
      i < |s.threads| && s.threads[i].phase.Holding?
    ensures
      var s := Run(START, steps);
      var admitted, refusing := Count(s.threads, IsAdmitted()), Count(s.threads, IsRefused());
      (Apply(s, Advance(i)).threads[i].phase.CallRefused? && admitted < 8)
      <==> 8 - refusing <= admitted < 8
  {
    RefusedExactlyWhen(steps, i);
  }

  // ---------------------------------------------------------------- refused with nobody admitted

  lemma {:induction false} RunConcat(s: State, a: seq<Step>, b: seq<Step>)
    ensures Run(s, a + b) == Run(Run(s, a), b)
    decreases |a|
  {
    if a == [] {
      assert a + b == b;
    } else {
      assert (a + b)[1..] == a[1..] + b;
      RunConcat(Apply(s, a[0]), a[1..], b);
    }
  }

  /** `n` queries of which the first eight are admitted and the others are being refused; the
      first `freed` of them have released their slots. */
  function Line(n: nat, freed: nat): (r: seq<Call>)
    ensures |r| == n
    ensures forall i :: 0 <= i < n ==>
        r[i] == Call(false, if i < freed then Releasing else if i < 8 then Admitted else CallRefused)
  {
    seq(n, i requires 0 <= i < n =>
      Call(false, if i < freed then Releasing else if i < 8 then Admitted else CallRefused))
  }

  /** `n` queries arrive and ask for a slot, one after the other. */
  function Fill(n: nat): seq<Step> {
    if n == 0 then [] else Fill(n - 1) + [Arrive(false), Advance(n - 1), Advance(n - 1)]
  }

  /** The first `k` calls finish. */
  function Free(k: nat): seq<Step> { if k == 0 then [] else Free(k - 1) + [Advance(k - 1)] }

  /** Three steps of one query: it arrives, passes the bulk gate and takes a slot if it can. */
  lemma {:induction false} OneQuery(s: State, n: nat)
    requires n == |s.threads|
    ensures
      var phase := if s.calls >= 8 then CallRefused else Admitted;
      Run(s, [Arrive(false), Advance(n), Advance(n)])
        == State(s.threads + [Call(false, phase)], s.calls + 1, s.bulkCalls)
  {
    var steps := [Arrive(false), Advance(n), Advance(n)];
    var s1 := Apply(s, steps[0]);
    var s2 := Apply(s1, steps[1]);
    var s3 := Apply(s2, steps[2]);
    assert steps[1..][1..] == [Advance(n)] && [Advance(n)][1..] == [];
    assert Run(s2, [Advance(n)]) == s3;
    assert Run(s1, steps[1..]) == s3;
  }

  lemma {:induction false} FillFills(n: nat)
    ensures Run(START, Fill(n)) == State(Line(n, 0), n, 0)
  {
    if n > 0 {
      FillFills(n - 1);
      RunConcat(START, Fill(n - 1), [Arrive(false), Advance(n - 1), Advance(n - 1)]);
      OneQuery(Run(START, Fill(n - 1)), n - 1);
      hide Run;
      assert Line(n, 0) == Line(n - 1, 0) + [Call(false, if n <= 8 then Admitted else CallRefused)];
    }
  }

  lemma {:induction false} FreeFrees(n: nat, k: nat)
    requires k <= 8 <= n
    ensures Run(State(Line(n, 0), n, 0), Free(k)) == State(Line(n, k), n - k, 0)
  {
    if k > 0 {
      var s := State(Line(n, 0), n, 0);
      FreeFrees(n, k - 1);
      RunConcat(s, Free(k - 1), [Advance(k - 1)]);
      var t := State(Line(n, k - 1), n - (k - 1), 0);
      assert [Advance(k - 1)][1..] == [];
      assert Run(t, [Advance(k - 1)]) == Run(Apply(t, Advance(k - 1)), []);
      assert Line(n, k) == Line(n, k - 1)[k - 1 := Call(false, Releasing)];
    }
  }

  lemma {:induction false} CountNone(threads: seq<Call>, f: Call -> bool)
    requires forall i :: 0 <= i < |threads| ==> !f(threads[i])
    ensures Count(threads, f) == 0
  {
    if threads != [] { CountNone(threads[1..], f); }
  }

  /** The extreme of it, reachable: eight queries are admitted and eight more are being refused;
      the eight admitted ones finish, and a query is refused although no call is admitted. */
  lemma {:induction false} RefusedWithNobodyAdmitted() returns (steps: seq<Step>, i: nat)
    ensures
      var s := Run(START, steps);
      && i < |s.threads| && s.threads[i] == Call(false, CallRefused)
      && Count(s.threads, IsAdmitted()) == 0
  {
    var freed := State(Line(16, 8), 8, 0);
    var last := [Arrive(false), Advance(16), Advance(16)];
    CountNone(Line(16, 8) + [Call(false, CallRefused)], IsAdmitted());
    hide Run, Fill, Free, Apply, Count;
    FillFills(16);
    FreeFrees(16, 8);
    OneQuery(freed, 16);
    RunConcat(START, Fill(16), Free(8));
    RunConcat(START, Fill(16) + Free(8), last);
    steps, i := Fill(16) + Free(8) + last, 16;
  }
}
