/** Runs of the inference service: every interleaving of RPC threads, worker and shutdown.

    A step is one critical section, one promise or one atomic flag.  In every state a run can
    reach each promise has been set at most once, and exactly once when the worker has left and
    no caller is still preparing an item; the byte budget is exact; each lane's item map names
    exactly what its scheduler holds; and every execution passes the model's own checks. */
module ServiceRuns {
  import opened Scheduling
  import opened Service
  import Splitting
  import Decimals

  /** How an execution of the model ends: with a tensor, cancelled by the monitor, or by a fault. */
  datatype Ending = Completed | Interrupted | Broken

  datatype Step =
    // RPC threads
    | Submit(r: Ref, work: Work)
    | Reject(r: Ref)
    | Offer(r: Ref, l: nat, at: Time)
    | CancelCall(refs: set<Ref>)
    // the destructor
    | Shutdown
    // the worker
    | Wake
    | Scan(now: Time)
    | Wait
    | Cut(end: nat)
    | Fail
    | Filter(now: Time)
    | StartRun
    | FinishRun(ending: Ending, now: Time)
    | Collect(now: Time)
    | Join
    | Publish
    | EndSegment
    | EndBatch
  {
    predicate OfWorker() {
      Wake? || Scan? || Wait? || Cut? || Fail? || Filter? || StartRun? || FinishRun? || Collect? || Join?
        || Publish? || EndSegment? || EndBatch?
    }
  }

  /** The lane the worker looks at next. */
  ghost function LaneAt(s: State): nat
    requires s.worker.Scanning? && s.lanes != []
    ensures LaneAt(s) < |s.lanes|
  {
    (s.rotation + s.worker.n) % |s.lanes|
  }

  /** Expired: the caller has cancelled or the deadline is reached. */
  ghost predicate Late(s: State, r: Ref, now: Time) {
    r in s.cancelled || (r in s.works && s.works[r].deadline <= now)
  }

  /** What a completed execution has for an item at the moment its result is read. */
  ghost function Reading(s: State, r: Ref, now: Time): Outcome {
    if !Late(s, r, now) then Served(r) else if r in s.cancelled then Cancelled else DeadlineExceeded
  }

  /** The items of the segment the worker runs. */
  ghost function Segment(w: Worker): set<Ref>
    requires w.Running? || w.Collecting? || w.Publishing?
  {
    set k | 0 <= k < |w.active| && w.active[k] < |w.batch| :: w.batch[w.active[k]]
  }

  /** When a step can happen.  The monitor interrupts an execution only when the service stops or
      every item has expired.  The worker holds the mutex while it scans. */
  ghost predicate Enabled(s: State, step: Step) {
    match step
    case Submit(r, work) => r !in s.works
    case Reject(r) => r in s.preparing
    case Offer(r, l, at) =>
      && !s.worker.Scanning? && r in s.preparing && l < |s.lanes| && s.clock <= at && s.ticket < Decimals.UINT64_MAX
      && r in s.works && 0 < s.works[r].ids <= s.lanes[l].maxTokens
    case CancelCall(refs) => refs <= s.works.Keys
    case Shutdown => !s.worker.Scanning?
    case Wake => s.worker.Idle?
    case Scan(now) => s.worker.Scanning? && s.worker.n < |s.lanes| && s.clock <= now
    case Wait => s.worker.Scanning? && s.worker.n == |s.lanes|
    case Cut(end) =>
      && s.worker.Cutting? && s.worker.first < |s.worker.batch| && s.worker.lane < |s.lanes|
      && var lens := Lens(s.worker.batch, s.works);
         var budget := s.lanes[s.worker.lane].budget;
         Splitting.Fits(lens, budget, s.worker.first, end) && Splitting.Full(lens, budget, s.worker.first, end)
    case Fail => s.worker.Failing? && s.worker.i < s.worker.end <= |s.worker.batch|
    case Filter(now) => s.worker.Filtering? && s.worker.i < s.worker.end <= |s.worker.batch| && s.clock <= now
    case StartRun => s.worker.Filtering? && s.worker.i == s.worker.end && s.worker.active != []
    case FinishRun(ending, now) =>
      && s.worker.Running? && s.clock <= now
      && (ending.Interrupted? ==> s.stopping || forall r :: r in Segment(s.worker) ==> Late(s, r, now))
    case Collect(now) =>
      && s.worker.Collecting? && |s.worker.results| < |s.worker.active| && s.clock <= now
      && s.worker.active[|s.worker.results|] < |s.worker.batch|
    case Join => s.worker.Collecting? && |s.worker.results| == |s.worker.active|
    case Publish =>
      && s.worker.Publishing? && s.worker.k < |s.worker.active| && s.worker.k < |s.worker.results|
      && s.worker.active[s.worker.k] < |s.worker.batch|
    case EndSegment =>
      || (s.worker.Failing? && s.worker.i == s.worker.end)
      || (s.worker.Filtering? && s.worker.i == s.worker.end && s.worker.active == [])
      || (s.worker.Publishing? && s.worker.k == |s.worker.active|)
    case EndBatch => s.worker.Cutting? && s.worker.first == |s.worker.batch|
  }

  /** One pass over a lane: sweep the cancelled items, expire, pick a batch. */
  ghost function Prepared(s: State, l: nat, now: Time): State
    requires l < |s.lanes|
  {
    ExpireLane(SweepLane(s.(clock := now), l), l, now)
  }

  /** The worker's visit to one lane.  items.at throws on an unknown ticket, and the worker has
      no handler. */
  ghost function ScanLane(s: State, now: Time): State
    requires s.worker.Scanning? && s.lanes != []
  {
    var l := LaneAt(s);
    var mid := Prepared(s, l, now);
    if Names(Picked(mid.lanes[l], now)) <= mid.lanes[l].items.Keys then PickLane(mid, l, now) else s.(crashed := true)
  }

  /** After an execution: its results are read one by one, unless it was interrupted or failed. */
  ghost function Finished(w: Worker, ending: Ending): Worker
    requires w.Running?
  {
    match ending
    case Completed => Collecting(w.lane, w.batch, w.end, w.active, [])
    case Interrupted => Publishing(w.lane, w.batch, w.end, w.active, 0, seq(|w.active|, _ => Cancelled))
    case Broken => Publishing(w.lane, w.batch, w.end, w.active, 0, seq(|w.active|, _ => Faulted))
  }

  ghost function Perform(s: State, step: Step): State
    requires Enabled(s, step)
  {
    match step
    case Submit(r, work) =>
      s.(works := s.works[r := work], promises := s.promises[r := []], preparing := s.preparing + {r})
    case Reject(r) => Resolve(s.(preparing := s.preparing - {r}), {r}, Rejected)
    case Offer(r, l, at) => EnqueueWork(s, l, r, at)
    case CancelCall(refs) => s.(cancelled := s.cancelled + refs)
    case Shutdown => s.(stopping := true, cancelled := s.cancelled + Queued(s.lanes))
    case Wake =>
      if s.stopping then Resolve(s.(worker := Exited), Queued(s.lanes), Cancelled) else s.(worker := Scanning(0))
    case Scan(now) => ScanLane(s, now)
    case Wait => s.(worker := Idle)
    case Cut(end) =>
      var w := s.worker;
      if s.healthy then s.(worker := Filtering(w.lane, w.batch, w.first, end, w.first, []))
      else s.(worker := Failing(w.lane, w.batch, end, w.first))
    case Fail =>
      var w := s.worker;
      Resolve(s.(worker := Failing(w.lane, w.batch, w.end, w.i + 1)), {w.batch[w.i]}, Unavailable)
    case Filter(now) =>
      var w, t := s.worker, s.(clock := now);
      var r := w.batch[w.i];
      if Late(s, r, now) then
        Resolve(t.(worker := Filtering(w.lane, w.batch, w.first, w.end, w.i + 1, w.active)), {r},
                if r in s.cancelled then Cancelled else DeadlineExceeded)
      else t.(worker := Filtering(w.lane, w.batch, w.first, w.end, w.i + 1, w.active + [w.i]))
    case StartRun => s.(worker := Running(s.worker.lane, s.worker.batch, s.worker.first, s.worker.end, s.worker.active))
    case FinishRun(ending, now) =>
      s.(clock := now, healthy := s.healthy && !ending.Broken?, worker := Finished(s.worker, ending))
    case Collect(now) =>
      var w := s.worker;
      var results := w.results + [Reading(s, w.batch[w.active[|w.results|]], now)];
      s.(clock := now, worker := Collecting(w.lane, w.batch, w.end, w.active, results))
    case Join =>
      s.(worker := Publishing(s.worker.lane, s.worker.batch, s.worker.end, s.worker.active, 0, s.worker.results))
    case Publish =>
      var w := s.worker;
      Resolve(s.(worker := w.(k := w.k + 1)), {w.batch[w.active[w.k]]}, w.results[w.k])
    case EndSegment => s.(worker := Cutting(s.worker.lane, s.worker.batch, s.worker.end))
    case EndBatch => s.(worker := Idle)
  }

  // ---------------------------------------------------------------- scanning

  lemma {:induction false} SweepShape(s: State, l: nat)
    requires l < |s.lanes|
    ensures
      var s' := SweepLane(s, l);
      && s' == s.(lanes := s'.lanes, promises := s'.promises, pendingBytes := s'.pendingBytes)
      && SameModels(s.lanes, s'.lanes)
  {
  }

  /** After sweeping and expiring, the picked tickets are all in the item map: items.at finds
      every one of them. */
  lemma {:induction false} PreparedKeeps(s: State, l: nat, now: Time)
    requires Inv(s) && l < |s.lanes| && s.worker.Scanning? && s.clock <= now
    ensures
      var s' := Prepared(s, l, now);
      && Core(s')
      && s' == s.(lanes := s'.lanes, promises := s'.promises, pendingBytes := s'.pendingBytes, clock := now)
      && SameModels(s.lanes, s'.lanes)
      && Names(Picked(s'.lanes[l], now)) <= s'.lanes[l].items.Keys
  {
    hide Promised, Budgeted, LaneOk, SweepLane, ExpireLane, Picked, Names;
    var t := s.(clock := now);
    AdvanceKeeps(s, s.ticket, now);
    var u := SweepLane(t, l);
    SweepLaneKeeps(t, l);
    SweepShape(t, l);
    ExpireLaneKeeps(u, l, now);
    ExpireShape(u, l, now);
    var v := Prepared(s, l, now);
    PickedNames(v.lanes[l], v.works, v.clock, v.ticket, now);
  }

  /** All that picking a batch changes. */
  lemma {:induction false} PickShape(s: State, l: nat, now: Time)
    requires l < |s.lanes| && s.worker.Scanning?
    requires Names(Picked(s.lanes[l], now)) <= s.lanes[l].items.Keys
    ensures
      var s' := PickLane(s, l, now);
      && s' == s.(lanes := s'.lanes, pendingBytes := s'.pendingBytes, rotation := s'.rotation, worker := s'.worker)
      && SameModels(s.lanes, s'.lanes)
      && ((s'.worker.Cutting? && s'.rotation == (l + 1) % |s.lanes|)
          || (s'.worker == Scanning(s.worker.n + 1) && s'.rotation == s.rotation))
  {
    hide SortByLength, RefsOf, Picked, PickedQueues, Names, Sum;
  }

  /** A scan finds every picked ticket: it is a pick after sweeping and expiring. */
  lemma {:induction false} ScanPicks(s: State, now: Time)
    requires Inv(s) && s.worker.Scanning? && s.lanes != [] && s.clock <= now
    ensures
      var l := LaneAt(s);
      var mid := Prepared(s, l, now);
      && Names(Picked(mid.lanes[l], now)) <= mid.lanes[l].items.Keys
      && ScanLane(s, now) == PickLane(mid, l, now)
  {
    hide Inv, Core, Picked, Names, PickLane, Prepared;
    PreparedKeeps(s, LaneAt(s), now);
  }

  lemma {:induction false} ScanKeeps(s: State, now: Time)
    requires Inv(s) && s.worker.Scanning? && s.worker.n < |s.lanes| && s.clock <= now
    ensures Inv(ScanLane(s, now)) && WorkerOk(ScanLane(s, now))
  {
    hide Promised, Budgeted, LaneOk, Picked, Names, PickLane, Prepared, WorkerOk, ScanLane;
    var l := LaneAt(s);
    ScanPicks(s, now);
    PreparedKeeps(s, l, now);
    var mid := Prepared(s, l, now);
    PickLaneKeeps(mid, l, now);
    PickShape(mid, l, now);
  }

  /** All that a scan changes. */
  lemma {:induction false} ScanShape(s: State, now: Time)
    requires s.worker.Scanning? && s.lanes != []
    ensures
      var s', l := ScanLane(s, now), LaneAt(s);
      && SameModels(s.lanes, s'.lanes) && s'.works == s.works && s'.cancelled == s.cancelled
      && s'.stopping == s.stopping && s'.healthy == s.healthy
      && ((s'.worker.Cutting? && s'.rotation == (l + 1) % |s.lanes|)
          || (s'.worker == Scanning(s.worker.n + 1) && s'.rotation == s.rotation)
          || (s'.crashed && s'.worker == s.worker))
  {
    hide SweepLane, ExpireLane, PickLane, Picked, Names;
    var l, t := LaneAt(s), s.(clock := now);
    SweepShape(t, l);
    ExpireShape(SweepLane(t, l), l, now);
    var mid := Prepared(s, l, now);
    if Names(Picked(mid.lanes[l], now)) <= mid.lanes[l].items.Keys { PickShape(mid, l, now); }
  }

  // ---------------------------------------------------------------- what stays the same

  /** Nothing the worker relies on has changed. */
  lemma {:induction false} WorkerFrame(s: State, s': State)
    requires WorkerOk(s) && s'.worker == s.worker && s'.works == s.works
    requires SameModels(s.lanes, s'.lanes) && (s.stopping ==> s'.stopping)
    ensures WorkerOk(s')
  {
  }

  lemma {:induction false} LensFrame(batch: seq<Ref>, works: map<Ref, Work>, r: Ref, work: Work)
    requires r !in works && forall i :: 0 <= i < |batch| ==> batch[i] in works
    ensures Lens(batch, works[r := work]) == Lens(batch, works)
  {
  }

  lemma {:induction false} CoreFrame(s: State, s': State)
    requires Core(s) && s'.works == s.works && s'.promises == s.promises && s'.preparing == s.preparing
    requires s'.lanes == s.lanes && s'.worker == s.worker && s'.pendingBytes == s.pendingBytes
    requires s'.clock == s.clock && s'.ticket == s.ticket
    ensures Core(s')
  {
    hide Promised, Budgeted, LaneOk;
    PromisedFrame(s, s');
    BudgetedFrame(s, s');
  }

  /** The worker moves on with the same items. */
  lemma {:induction false} MoveKeeps(s: State, w: Worker)
    requires Core(s) && !s.worker.Exited? && !w.Exited? && InFlight(w) == InFlight(s.worker)
    ensures Core(s.(worker := w))
  {
    hide Promised, Budgeted, LaneOk, InFlight;
    Release(s, w, {});
    BudgetedFrame(s, s.(worker := w));
  }

  /** The worker answers some of its items. */
  lemma {:induction false} SettleKeeps(s: State, w: Worker, refs: set<Ref>, outcome: Outcome)
    requires Core(s) && !s.worker.Exited? && !w.Exited?
    requires InFlight(w) == InFlight(s.worker) - refs && refs <= InFlight(s.worker)
    ensures Core(Resolve(s.(worker := w), refs, outcome))
  {
    hide Promised, Budgeted, LaneOk, InFlight;
    Release(s, w, refs);
    ResolveExtra(s.(worker := w), refs, outcome);
    BudgetedFrame(s, Resolve(s.(worker := w), refs, outcome));
  }

  // ---------------------------------------------------------------- steps of the RPC threads

  lemma {:induction false} SubmitPromised(s: State, r: Ref, work: Work)
    requires Promised(s, {}) && r !in s.works
    ensures Promised(s.(works := s.works[r := work], promises := s.promises[r := []], preparing := s.preparing + {r}),
        {})
  {
    hide InFlight, Queued;
    var s' := s.(works := s.works[r := work], promises := s.promises[r := []], preparing := s.preparing + {r});
    assert forall x :: x in Unresolved(s', {}) <==> x in Unresolved(s, {}) || x == r;
  }

  lemma {:induction false} SubmitLanes(s: State, r: Ref, work: Work)
    requires LanesOk(s) && r !in s.works
    ensures LanesOk(s.(works := s.works[r := work]))
  {
    forall l | 0 <= l < |s.lanes| ensures LaneOk(s.lanes[l], s.works[r := work], s.clock, s.ticket) {
      assert LaneOk(s.lanes[l], s.works, s.clock, s.ticket);
      hide Sound, Clocked, Issued, Injective, AllNames;
    }
  }

  lemma {:induction false} SubmitWorker(s: State, r: Ref, work: Work)
    requires WorkerOk(s) && r !in s.works
    ensures WorkerOk(s.(works := s.works[r := work]))
  {
    hide Splitting.Fits, Splitting.Survivors, Splitting.Sorted, NoDup;
    if BatchOk(s.lanes, s.works,
        if s.worker.Idle? || s.worker.Scanning? || s.worker.Exited? then 0 else s.worker.lane, BatchOf(s.worker)) {
      LensFrame(BatchOf(s.worker), s.works, r, work);
    }
  }

  lemma {:induction false} SubmitKeeps(s: State, r: Ref, work: Work)
    requires Inv(s) && r !in s.works
    ensures Inv(s.(works := s.works[r := work], promises := s.promises[r := []], preparing := s.preparing + {r}))
  {
    var s' := s.(works := s.works[r := work], promises := s.promises[r := []], preparing := s.preparing + {r});
    assert r !in Queued(s.lanes);
    SumFrame(Queued(s.lanes), s.works, r, work);
    assert Budgeted(s');
    hide Promised, Budgeted, LaneOk, WorkerOk;
    SubmitPromised(s, r, work);
    SubmitLanes(s, r, work);
    SubmitWorker(s, r, work);
    WorkerFrame(s.(works := s'.works), s');
  }

  lemma {:induction false} OfferShape(s: State, l: nat, r: Ref, now: Time)
    requires l < |s.lanes| && r in s.works
    ensures
      var s' := EnqueueWork(s, l, r, now);
      && s'.worker == s.worker && s'.works == s.works && SameModels(s.lanes, s'.lanes)
      && s'.stopping == s.stopping && s'.rotation == s.rotation && s'.crashed == s.crashed && s'.healthy == s.healthy
  {
    hide ExpireQueues, GoneNames, Verdict, Admit, Sum;
  }

  lemma {:induction false} CallerKeeps(s: State, step: Step)
    requires Inv(s) && Enabled(s, step) && !step.OfWorker()
    ensures Inv(Perform(s, step))
  {
    hide Promised, Budgeted, LaneOk, WorkerOk, EnqueueWork;
    var s' := Perform(s, step);
    match step
    case Submit(r, work) => SubmitKeeps(s, r, work);
    case Reject(r) =>
      RefuseKeeps(s, r, Rejected);
      WorkerFrame(s, s');
    case Offer(r, l, at) =>
      assert s.worker.Exited? ==> s.stopping by { ExitedStops(s); }
      EnqueueWorkKeeps(s, l, r, at);
      OfferShape(s, l, r, at);
      WorkerFrame(s, s');
    case CancelCall(refs) =>
      CoreFrame(s, s');
      WorkerFrame(s, s');
    case Shutdown =>
      CoreFrame(s, s');
      WorkerFrame(s, s');
  }

  lemma {:induction false} ExitedStops(s: State)
    requires WorkerOk(s)
    ensures s.worker.Exited? ==> s.stopping
  {
  }

  // ---------------------------------------------------------------- steps of the worker

  lemma {:induction false} MoveInv(s: State, w: Worker)
    requires Inv(s) && !s.worker.Exited? && !w.Exited? && InFlight(w) == InFlight(s.worker)
    requires WorkerOk(s.(worker := w))
    ensures Inv(s.(worker := w))
  {
    hide Promised, Budgeted, LaneOk, InFlight, WorkerOk;
    MoveKeeps(s, w);
  }

  /** The worker answers the item at position `p` of its batch. */
  lemma {:induction false} SettleInv(s: State, w: Worker, p: nat, outcome: Outcome)
    requires Inv(s) && !s.worker.Exited? && !w.Exited?
    requires BatchOf(w) == BatchOf(s.worker) && p < |BatchOf(w)| && NoDup(BatchOf(w))
    requires p in Positions(s.worker) && Positions(w) == Positions(s.worker) - {p}
    requires WorkerOk(s.(worker := w))
    ensures Inv(Resolve(s.(worker := w), {BatchOf(w)[p]}, outcome))
  {
    hide Promised, Budgeted, LaneOk, WorkerOk, BatchOf, Positions;
    AtMinus(BatchOf(w), Positions(s.worker), p);
    hide At;
    SettleKeeps(s, w, {BatchOf(w)[p]}, outcome);
    WorkerFrame(s.(worker := w), Resolve(s.(worker := w), {BatchOf(w)[p]}, outcome));
  }

  lemma {:induction false} SameFlight(w: Worker, w': Worker)
    requires BatchOf(w) == BatchOf(w') && Positions(w) == Positions(w')
    ensures InFlight(w) == InFlight(w')
  {
  }

  lemma {:induction false} CutFits(w: Worker, lanes: seq<Lane>, works: map<Ref, Work>, stopping: bool, end: nat)
    requires w.Cutting? && WorkerFits(w, lanes, works, stopping)
    requires w.lane < |lanes| && Splitting.Fits(Lens(w.batch, works), lanes[w.lane].budget, w.first, end)
    ensures
      var healthy, sick := Filtering(w.lane, w.batch, w.first, end, w.first, []),
        Failing(w.lane, w.batch, end, w.first);
      && WorkerFits(healthy, lanes, works, stopping) && WorkerFits(sick, lanes, works, stopping)
      && Positions(healthy) == Positions(w) && Positions(sick) == Positions(w)
  {
    hide BatchOk, Lens;
  }

  lemma {:induction false} CutKeeps(s: State, end: nat)
    requires Inv(s) && s.worker.Cutting? && s.worker.lane < |s.lanes|
    requires Splitting.Fits(Lens(s.worker.batch, s.works), s.lanes[s.worker.lane].budget, s.worker.first, end)
    ensures
      var w := s.worker;
      && Inv(s.(worker := Filtering(w.lane, w.batch, w.first, end, w.first, [])))
      && Inv(s.(worker := Failing(w.lane, w.batch, end, w.first)))
  {
    hide WorkerFits, Inv, InFlight, Positions, Splitting.Fits, Lens;
    var w := s.worker;
    var healthy, sick := Filtering(w.lane, w.batch, w.first, end, w.first, []), Failing(w.lane, w.batch, end, w.first);
    InvWorker(s);
    CutFits(w, s.lanes, s.works, s.stopping, end);
    SameFlight(w, healthy);
    SameFlight(w, sick);
    MoveInv(s, healthy);
    MoveInv(s, sick);
  }

  lemma {:induction false} InvWorker(s: State)
    requires Inv(s)
    ensures WorkerFits(s.worker, s.lanes, s.works, s.stopping)
  {
  }

  lemma {:induction false} FailFits(w: Worker, lanes: seq<Lane>, works: map<Ref, Work>, stopping: bool)
    requires w.Failing? && w.i < w.end && WorkerFits(w, lanes, works, stopping)
    ensures
      var w' := Failing(w.lane, w.batch, w.end, w.i + 1);
      && WorkerFits(w', lanes, works, stopping) && NoDup(w.batch)
      && w.i in Positions(w) && Positions(w') == Positions(w) - {w.i}
  {
  }

  lemma {:induction false} FailKeeps(s: State)
    requires Inv(s) && s.worker.Failing? && s.worker.i < s.worker.end <= |s.worker.batch|
    ensures Inv(Resolve(s.(worker := Failing(s.worker.lane, s.worker.batch, s.worker.end, s.worker.i + 1)),
        {s.worker.batch[s.worker.i]}, Unavailable))
  {
    hide WorkerFits, Inv, Positions, NoDup;
    var w := s.worker;
    InvWorker(s);
    FailFits(w, s.lanes, s.works, s.stopping);
    SettleInv(s, Failing(w.lane, w.batch, w.end, w.i + 1), w.i, Unavailable);
  }

  lemma {:induction false} SpanStep(i: nat, n: nat)
    requires i < n
    ensures i in Span(i, n) && Span(i + 1, n) == Span(i, n) - {i}
  {
    forall p: nat ensures p in Span(i + 1, n) <==> p in Span(i, n) && p != i { }
  }

  lemma {:induction false} FilterPositions(batch: seq<Ref>, first: nat, i: nat, active: seq<nat>)
    requires i < |batch| && Splitting.Survivors(active, first, i)
    ensures Entries(active, 0) + Span(i + 1, |batch|) == Entries(active, 0) + Span(i, |batch|) - {i}
    ensures Entries(active + [i], 0) + Span(i + 1, |batch|) == Entries(active, 0) + Span(i, |batch|)
    ensures i in Span(i, |batch|)
  {
    assert i !in Entries(active, 0);
    hide Entries, Span;
    SpanStep(i, |batch|);
    EntriesGrow(active, i);
  }

  lemma {:induction false} FilterFits(w: Worker, lanes: seq<Lane>, works: map<Ref, Work>, stopping: bool)
    requires w.Filtering? && w.i < w.end <= |w.batch| && WorkerFits(w, lanes, works, stopping)
    ensures
      var dropped := Filtering(w.lane, w.batch, w.first, w.end, w.i + 1, w.active);
      var kept := Filtering(w.lane, w.batch, w.first, w.end, w.i + 1, w.active + [w.i]);
      && WorkerFits(dropped, lanes, works, stopping) && WorkerFits(kept, lanes, works, stopping)
      && NoDup(w.batch) && w.i in Positions(w)
      && Positions(dropped) == Positions(w) - {w.i} && Positions(kept) == Positions(w)
  {
    hide BatchOk, Lens, Splitting.Survivors, Splitting.Fits, Entries, Span, NoDup;
    BatchNoDup(lanes, works, w.lane, w.batch);
    FilterPositions(w.batch, w.first, w.i, w.active);
    SurvivorsGrow(w.active, w.first, w.i);
  }

  lemma {:induction false} SurvivorsGrow(active: seq<nat>, first: nat, i: nat)
    requires Splitting.Survivors(active, first, i) && first <= i
    ensures Splitting.Survivors(active + [i], first, i + 1) && Splitting.Survivors(active, first, i + 1)
  {
  }

  lemma {:induction false} EntriesGrow(active: seq<nat>, i: nat)
    ensures Entries(active + [i], 0) == Entries(active, 0) + {i}
  {
    var kept := active + [i];
    assert kept[|active|] == i;
    forall p | p in Entries(active, 0) ensures p in Entries(kept, 0) {
      var j :| 0 <= j < |active| && active[j] == p;
      assert kept[j] == p;
    }
  }

  lemma {:induction false} BatchNoDup(lanes: seq<Lane>, works: map<Ref, Work>, l: nat, batch: seq<Ref>)
    requires BatchOk(lanes, works, l, batch)
    ensures NoDup(batch) && l < |lanes|
  {
  }

  lemma {:induction false} AdvanceInv(s: State, now: Time)
    requires Inv(s) && s.clock <= now
    ensures Inv(s.(clock := now))
  {
    hide Promised, Budgeted, LaneOk, WorkerFits;
    AdvanceKeeps(s, s.ticket, now);
  }

  lemma {:induction false} DropOrKeepKeeps(s: State, now: Time, outcome: Outcome)
    requires Inv(s) && s.worker.Filtering? && s.worker.i < s.worker.end <= |s.worker.batch| && s.clock <= now
    ensures
      var w, t := s.worker, s.(clock := now);
      && Inv(t.(worker := Filtering(w.lane, w.batch, w.first, w.end, w.i + 1, w.active + [w.i])))
      && Inv(Resolve(t.(worker := Filtering(w.lane, w.batch, w.first, w.end, w.i + 1, w.active)), {w.batch[w.i]},
          outcome))
  {
    hide WorkerFits, Inv, Positions, NoDup, InFlight;
    var w, t := s.worker, s.(clock := now);
    InvWorker(s);
    FilterFits(w, s.lanes, s.works, s.stopping);
    AdvanceInv(s, now);
    var dropped := Filtering(w.lane, w.batch, w.first, w.end, w.i + 1, w.active);
    var kept := Filtering(w.lane, w.batch, w.first, w.end, w.i + 1, w.active + [w.i]);
    SameFlight(w, kept);
    MoveInv(t, kept);
    SettleInv(t, dropped, w.i, outcome);
  }

  lemma {:induction false} StartRunKeeps(s: State)
    requires Inv(s) && s.worker.Filtering? && s.worker.i == s.worker.end && s.worker.active != []
    ensures Inv(s.(worker := Running(s.worker.lane, s.worker.batch, s.worker.first, s.worker.end, s.worker.active)))
  {
    hide Inv, BatchOk, Lens, Splitting.Survivors, Splitting.Fits;
    var w := s.worker;
    var w' := Running(w.lane, w.batch, w.first, w.end, w.active);
    InvWorker(s);
    SameFlight(w, w');
    MoveInv(s, w');
  }

  lemma {:induction false} FinishedFits(
      w: Worker, lanes: seq<Lane>, works: map<Ref, Work>, stopping: bool, ending: Ending)
    requires w.Running? && WorkerFits(w, lanes, works, stopping)
    ensures WorkerFits(Finished(w, ending), lanes, works, stopping)
    ensures BatchOf(Finished(w, ending)) == w.batch && Positions(Finished(w, ending)) == Positions(w)
  {
    hide BatchOk, Lens;
  }

  lemma {:induction false} FinishRunKeeps(s: State, ending: Ending, healthy: bool)
    requires Inv(s) && s.worker.Running?
    ensures Inv(s.(worker := Finished(s.worker, ending), healthy := healthy))
  {
    hide Inv, WorkerFits, Positions, InFlight, Finished;
    var w' := Finished(s.worker, ending);
    var t := s.(worker := w');
    InvWorker(s);
    FinishedFits(s.worker, s.lanes, s.works, s.stopping, ending);
    SameFlight(s.worker, w');
    assert !w'.Exited? by { NotExited(s.worker, ending); }
    MoveInv(s, w');
    InvFrame(t, t.(healthy := healthy));
  }

  lemma {:induction false} NotExited(w: Worker, ending: Ending)
    requires w.Running?
    ensures !Finished(w, ending).Exited?
  {
  }

  lemma {:induction false} CollectKeeps(s: State, outcome: Outcome)
    requires Inv(s) && s.worker.Collecting? && |s.worker.results| < |s.worker.active|
    ensures
      var w := s.worker;
      Inv(s.(worker := Collecting(w.lane, w.batch, w.end, w.active, w.results + [outcome])))
  {
    hide Inv, BatchOk, Lens, Splitting.Survivors;
    var w := s.worker;
    var w' := Collecting(w.lane, w.batch, w.end, w.active, w.results + [outcome]);
    InvWorker(s);
    SameFlight(w, w');
    MoveInv(s, w');
  }

  lemma {:induction false} JoinKeeps(s: State)
    requires Inv(s) && s.worker.Collecting? && |s.worker.results| == |s.worker.active|
    ensures
      var w := s.worker;
      Inv(s.(worker := Publishing(w.lane, w.batch, w.end, w.active, 0, w.results)))
  {
    hide Inv, BatchOk, Lens, Splitting.Survivors;
    var w := s.worker;
    var w' := Publishing(w.lane, w.batch, w.end, w.active, 0, w.results);
    InvWorker(s);
    SameFlight(w, w');
    MoveInv(s, w');
  }

  lemma {:induction false} InvFrame(s: State, s': State)
    requires Inv(s) && s' == s.(healthy := s'.healthy)
    ensures Inv(s')
  {
    hide Promised, Budgeted, LaneOk, WorkerFits;
    CoreFrame(s, s');
  }

  lemma {:induction false} PublishFits(w: Worker, lanes: seq<Lane>, works: map<Ref, Work>, stopping: bool)
    requires w.Publishing? && w.k < |w.active| && WorkerFits(w, lanes, works, stopping)
    ensures
      var w' := Publishing(w.lane, w.batch, w.end, w.active, w.k + 1, w.results);
      && WorkerFits(w', lanes, works, stopping) && NoDup(w.batch)
      && w.active[w.k] in Positions(w) && Positions(w') == Positions(w) - {w.active[w.k]}
  {
    hide Lens;
    var p := w.active[w.k];
    forall j | w.k < j < |w.active| ensures w.active[j] != p { assert w.active[w.k] < w.active[j]; }
    assert Entries(w.active, w.k + 1) == Entries(w.active, w.k) - {p};
  }

  lemma {:induction false} PublishKeeps(s: State)
    requires Inv(s) && s.worker.Publishing? && s.worker.k < |s.worker.active|
    requires s.worker.k < |s.worker.results| && s.worker.active[s.worker.k] < |s.worker.batch|
    ensures
      var w := s.worker;
      Inv(Resolve(s.(worker := Publishing(w.lane, w.batch, w.end, w.active, w.k + 1, w.results)),
        {w.batch[w.active[w.k]]}, w.results[w.k]))
  {
    hide WorkerFits, Inv, Positions, NoDup;
    var w := s.worker;
    InvWorker(s);
    PublishFits(w, s.lanes, s.works, s.stopping);
    SettleInv(s, Publishing(w.lane, w.batch, w.end, w.active, w.k + 1, w.results), w.active[w.k], w.results[w.k]);
  }

  lemma {:induction false} EndSegmentFits(w: Worker, lanes: seq<Lane>, works: map<Ref, Work>, stopping: bool)
    requires WorkerFits(w, lanes, works, stopping)
    requires
      || (w.Failing? && w.i == w.end) || (w.Filtering? && w.i == w.end && w.active == [])
      || (w.Publishing? && w.k == |w.active|)
    ensures WorkerFits(Cutting(w.lane, w.batch, w.end), lanes, works, stopping)
    ensures Positions(Cutting(w.lane, w.batch, w.end)) == Positions(w)
  {
    hide BatchOk, Lens;
  }

  lemma {:induction false} EndSegmentKeeps(s: State)
    requires Inv(s)
    requires
      || (s.worker.Failing? && s.worker.i == s.worker.end)
      || (s.worker.Filtering? && s.worker.i == s.worker.end && s.worker.active == [])
      || (s.worker.Publishing? && s.worker.k == |s.worker.active|)
    ensures Inv(s.(worker := Cutting(s.worker.lane, s.worker.batch, s.worker.end)))
  {
    hide WorkerFits, Inv, Positions, InFlight;
    var w := s.worker;
    InvWorker(s);
    EndSegmentFits(w, s.lanes, s.works, s.stopping);
    SameFlight(w, Cutting(w.lane, w.batch, w.end));
    MoveInv(s, Cutting(w.lane, w.batch, w.end));
  }

  lemma {:induction false} BecomeIdle(s: State)
    requires Inv(s) && ((s.worker.Cutting? && s.worker.first == |s.worker.batch|) || s.worker.Scanning?)
    ensures Inv(s.(worker := Idle))
  {
    hide Inv;
    assert Positions(s.worker) == {};
    MoveInv(s, Idle);
  }

  lemma {:induction false} LeavePromised(s: State)
    requires Promised(s, {}) && s.worker.Idle?
    ensures Promised(Resolve(s.(worker := Exited), Queued(s.lanes), Cancelled), {})
  {
    IdleOwnsNothing(s.worker);
    IdleOwnsNothing(Exited);
    hide Queued, InFlight;
    var s' := Resolve(s.(worker := Exited), Queued(s.lanes), Cancelled);
    assert forall r :: r in Unresolved(s', {}) <==> r in Unresolved(s, {}) && r !in Queued(s.lanes);
  }

  lemma {:induction false} WakeKeeps(s: State)
    requires Inv(s) && s.worker.Idle?
    ensures Inv(s.(worker := Scanning(0)))
    ensures s.stopping ==> Inv(Resolve(s.(worker := Exited), Queued(s.lanes), Cancelled))
  {
    hide Promised, Budgeted, LaneOk, InFlight, Queued;
    IdleOwnsNothing(s.worker);
    IdleOwnsNothing(Scanning(0));
    MoveInv(s, Scanning(0));
    LeavePromised(s);
    BudgetedFrame(s, Resolve(s.(worker := Exited), Queued(s.lanes), Cancelled));
  }

  /** Every step of every thread keeps the invariant. */
  lemma {:induction false} StepKeeps(s: State, step: Step)
    requires Inv(s) && Enabled(s, step)
    ensures Inv(Perform(s, step))
  {
    hide Inv, ScanLane, Queued;
    match step
    case Wake => WakeKeeps(s);
    case Scan(now) => ScanKeeps(s, now);
    case Wait => BecomeIdle(s);
    case Cut(end) => CutKeeps(s, end);
    case Fail => FailKeeps(s);
    case Filter(now) =>
      DropOrKeepKeeps(s, now, if s.worker.batch[s.worker.i] in s.cancelled then Cancelled else DeadlineExceeded);
    case StartRun => StartRunKeeps(s);
    case FinishRun(ending, now) =>
      AdvanceInv(s, now);
      FinishRunKeeps(s.(clock := now), ending, s.healthy && !ending.Broken?);
    case Collect(now) =>
      AdvanceInv(s, now);
      CollectKeeps(s.(clock := now), Reading(s, s.worker.batch[s.worker.active[|s.worker.results|]], now));
    case Join => JoinKeeps(s);
    case Publish => PublishKeeps(s);
    case EndSegment => EndSegmentKeeps(s);
    case EndBatch => BecomeIdle(s);
    case _ => CallerKeeps(s, step);
  }

  // ---------------------------------------------------------------- runs

  /** A freshly constructed service: loaded models, nothing queued, the worker about to start. */
  ghost predicate Init(s: State) {
    && s.lanes != [] && s.works == map[] && s.promises == map[] && s.preparing == {} && s.cancelled == {}
    && (forall l :: 0 <= l < |s.lanes| ==>
          s.lanes[l].Loaded() && s.lanes[l].queues == Queues([], [], 0) && s.lanes[l].items == map[])
    && s.pendingBytes == 0 && s.rotation == 0 && !s.stopping && s.worker.Idle? && !s.crashed
  }

  lemma {:induction false} NothingQueued(lanes: seq<Lane>)
    requires forall l :: 0 <= l < |lanes| ==> lanes[l].items == map[]
    ensures Queued(lanes) == {}
  {
    if lanes != [] {
      NothingQueued(lanes[1..]);
    }
  }

  lemma {:induction false} InitHolds(s: State)
    requires Init(s)
    ensures Inv(s)
  {
    NothingQueued(s.lanes);
    IdleOwnsNothing(s.worker);
    forall l | 0 <= l < |s.lanes| ensures LaneOk(s.lanes[l], s.works, s.clock, s.ticket) {
      hide Disjoint, Promised, Sum;
      assert s.lanes[l].items.Keys == {};
    }
    hide LaneOk;
  }

  ghost predicate Possible(s: State, steps: seq<Step>)
    decreases |steps|
  {
    steps == [] || (Enabled(s, steps[0]) && Possible(Perform(s, steps[0]), steps[1..]))
  }

  ghost function After(s: State, steps: seq<Step>): State
    requires Possible(s, steps)
    decreases |steps|
  {
    if steps == [] then s else After(Perform(s, steps[0]), steps[1..])
  }

  lemma {:induction false} RunKeeps(s: State, steps: seq<Step>)
    requires Inv(s) && Possible(s, steps)
    ensures Inv(After(s, steps))
    decreases |steps|
  {
    hide Inv, Enabled, Perform;
    if steps != [] {
      StepKeeps(s, steps[0]);
      RunKeeps(Perform(s, steps[0]), steps[1..]);
    }
  }

  /** Exactly-once answers.  In every reachable state a promise has been set at most once; it
      is still unset exactly while a caller prepares the item, a lane of a live worker queues it
      or the worker holds it.  Once the worker has left and no caller prepares an item, every
      promise has been set exactly once. */
  lemma {:induction false} ExactlyOnce(s: State, steps: seq<Step>)
    requires Init(s) && Possible(s, steps)
    ensures
      var t := After(s, steps);
      && t.promises.Keys == t.works.Keys
      && (forall r :: r in t.works ==> |t.promises[r]| <= 1)
      && (forall r :: r in t.works ==> (|t.promises[r]| == 0 <==> r in Unresolved(t, {})))
      && (t.worker.Exited? && t.preparing == {} ==> forall r :: r in t.works ==> |t.promises[r]| == 1)
  {
    InitHolds(s);
    RunKeeps(s, steps);
    var t := After(s, steps);
    assert Promised(t, {}) by { hide Promised, Budgeted, LanesOk, WorkerOk; }
    if t.worker.Exited? { IdleOwnsNothing(t.worker); }
    hide InFlight, Queued, Init, Possible, After, Inv;
  }

  /** The byte account is exact, so QueueBytes - pending_bytes never wraps below zero. */
  lemma {:induction false} BudgetIsExact(s: State, steps: seq<Step>)
    requires Init(s) && Possible(s, steps)
    ensures
      var t := After(s, steps);
      t.pendingBytes == Sum(Queued(t.lanes), t.works) && 0 <= t.pendingBytes <= QUEUE_BYTES
  {
    InitHolds(s);
    RunKeeps(s, steps);
    hide Promised, LanesOk, WorkerOk, Sum, Queued, Init, Possible, After;
  }

  /** Each lane's item map has exactly the tickets its scheduler holds, every ticket its own
      item, no item in two lanes; and items.at never throws. */
  lemma {:induction false} MapsAgree(s: State, steps: seq<Step>, l: nat)
    requires Init(s) && Possible(s, steps) && l < |After(s, steps).lanes|
    ensures
      var t := After(s, steps);
      && !t.crashed
      && t.lanes[l].items.Keys == AllNames(t.lanes[l].queues)
      && Injective(t.lanes[l].items)
      && (forall m :: 0 <= m < |t.lanes| && m != l ==> t.lanes[m].Refs() !! t.lanes[l].Refs())
  {
    InitHolds(s);
    RunKeeps(s, steps);
    var t := After(s, steps);
    hide Init, Possible, After, Promised, WorkerOk, Sum, Queued;
    assert LaneOk(t.lanes[l], t.works, t.clock, t.ticket);
    hide LanesOk, Sound, Clocked, AllNames, Issued, Tokenized;
    assert Disjoint(t.lanes);
  }

  lemma {:induction false} RunningFits(w: Worker, lanes: seq<Lane>, works: map<Ref, Work>)
    requires w.Running? && WorkerFits(w, lanes, works, false)
    ensures
      var lens := Lens(w.batch, works);
      && w.lane < |lanes|
      && (forall k :: 0 <= k < |w.active| ==> w.active[k] < |lens|)
      && Splitting.RunAccepts(Splitting.Pick(lens, w.active), lanes[w.lane].maxTokens, lanes[w.lane].budget)
  {
    hide Splitting.RunAccepts, Splitting.Sorted, NoDup;
    var lens := Lens(w.batch, works);
    assert forall i :: 0 <= i < |lens| ==> lens[i] == works[w.batch[i]].ids;
    Splitting.RunNeverRejects(lens, lanes[w.lane].maxTokens, lanes[w.lane].budget, w.first, w.end, w.active);
  }

  /** Whenever the worker runs the model, the inputs pass every size check of ModelRuntime::Run. */
  lemma {:induction false} RunsAreAccepted(s: State, steps: seq<Step>)
    requires Init(s) && Possible(s, steps) && After(s, steps).worker.Running?
    ensures
      var t := After(s, steps);
      var w := t.worker;
      var lens := Lens(w.batch, t.works);
      && w.lane < |t.lanes|
      && (forall k :: 0 <= k < |w.active| ==> w.active[k] < |lens|)
      && Splitting.RunAccepts(Splitting.Pick(lens, w.active), t.lanes[w.lane].maxTokens, t.lanes[w.lane].budget)
  {
    InitHolds(s);
    RunKeeps(s, steps);
    var t := After(s, steps);
    hide Init, Possible, After, Splitting.RunAccepts, Lens, BatchOk, Inv;
    InvWorker(t);
    RunningFits(t.worker, t.lanes, t.works);
  }

  // ---------------------------------------------------------------- the lanes run the scheduler

  /** What the two critical sections do to a lane's queues is what the scheduler's Enqueue does,
      and a Cancel of every cancelled ticket followed by Next. */
  lemma {:induction false} OfferIsEnqueue(s: State, l: nat, r: Ref, now: Time)
    requires l < |s.lanes| && r in s.works && !s.stopping && s.works[r].Bytes() <= QUEUE_BYTES - s.pendingBytes
    ensures
      var lane, item := s.lanes[l], ItemFor(s.ticket + 1, s.works[r]);
      EnqueueWork(s, l, r, now).lanes[l].queues == EnqueueQueues(lane.Limits(), lane.queues, item, now)
  {
    hide Verdict, Admit, GoneNames, Behind, Sum, SetPromises;
  }

  lemma {:induction false} ScanIsNext(s: State, now: Time)
    requires Inv(s) && s.worker.Scanning? && s.lanes != [] && s.clock <= now
    ensures
      var l, s' := LaneAt(s), ScanLane(s, now);
      var limits, swept := s.lanes[l].Limits(), Swept(s, l);
      && |s'.lanes| == |s.lanes|
      && s'.lanes[l].queues == NextQueues(limits, swept, now)
      && (s'.worker.Cutting? <==> Selected(limits, swept, now) != [])
      && (s'.worker.Cutting? ==> s'.worker.lane == l && |s'.worker.batch| == |Selected(limits, swept, now)|)
  {
    hide Inv, Core, Picked, PickedQueues, NextQueues, Selected, Names, Sweep, PickLane, ScanLane;
    var l := LaneAt(s);
    PreparedKeeps(s, l, now);
    PreparedQueues(s, l, now);
    ScanPicks(s, now);
    hide Prepared;
    PickedSize(Prepared(s, l, now), l, now);
  }

  /** The queues of a lane without the items whose callers have cancelled. */
  ghost function Swept(s: State, l: nat): Queues
    requires l < |s.lanes|
  {
    Sweep(s.lanes[l].queues, CancelledTickets(s.lanes[l], s.cancelled))
  }

  lemma {:induction false} PreparedQueues(s: State, l: nat, now: Time)
    requires Inv(s) && l < |s.lanes|
    ensures
      var swept := Sweep(s.lanes[l].queues, CancelledTickets(s.lanes[l], s.cancelled));
      var lane := Prepared(s, l, now).lanes[l];
      && lane.Limits() == s.lanes[l].Limits()
      && PickedQueues(lane, now) == NextQueues(lane.Limits(), swept, now)
      && Picked(lane, now) == Selected(lane.Limits(), swept, now)
      && (Picked(lane, now) == [] ==> PickedQueues(lane, now) == lane.queues)
  {
    var gone := CancelledTickets(s.lanes[l], s.cancelled);
    var swept := Sweep(s.lanes[l].queues, gone);
    var lane := Prepared(s, l, now).lanes[l];
    assert lane.queues == ExpireQueues(swept, now) && lane.Limits() == s.lanes[l].Limits() by {
      hide Sweep, ExpireQueues, GoneNames, CancelledTickets, Sum, SetPromises, Behind, Inv;
    }
    assert Sound(s.lanes[l].Limits(), s.lanes[l].queues) by {
      assert LaneOk(s.lanes[l], s.works, s.clock, s.ticket);
    }
    FilterKeeps(s.lanes[l].Limits(), s.lanes[l].queues, Unnamed(gone));
    hide Inv, Prepared, Sound, ExpireQueues;
    PickedIsNext(lane, swept, now);
    SelectedIsMaximalPrefix(lane.Limits(), swept, now);
  }

  lemma {:induction false} PickedSize(s: State, l: nat, now: Time)
    requires l < |s.lanes| && s.worker.Scanning?
    requires Names(Picked(s.lanes[l], now)) <= s.lanes[l].items.Keys
    ensures
      var s', picked := PickLane(s, l, now), Picked(s.lanes[l], now);
      && (picked == [] ==> s' == s.(worker := Scanning(s.worker.n + 1)))
      && (picked != [] ==> s'.lanes[l].queues == PickedQueues(s.lanes[l], now))
      && (picked != [] ==> s'.worker.Cutting? && s'.worker.lane == l && |s'.worker.batch| == |picked|)
      && |s'.lanes| == |s.lanes|
  {
    var refs := RefsOf(s.lanes[l], Picked(s.lanes[l], now));
    SortSorts(refs, s.works);
    assert |multiset(SortByLength(refs, s.works))| == |multiset(refs)|;
    hide SortByLength, Sum, Names, Picked, PickedQueues;
  }

  // ---------------------------------------------------------------- answers are final

  /** Promises only ever gain answers. */
  ghost predicate Extends(a: map<Ref, seq<Outcome>>, b: map<Ref, seq<Outcome>>) {
    forall r :: r in a ==> r in b && a[r] <= b[r]
  }

  lemma {:induction false} SetExtends(s: State, refs: set<Ref>, outcome: Outcome)
    ensures Extends(s.promises, Resolve(s, refs, outcome).promises)
  {
  }

  lemma {:induction false} StepExtends(s: State, step: Step)
    requires Enabled(s, step) && s.promises.Keys == s.works.Keys
    ensures Extends(s.promises, Perform(s, step).promises)
  {
    hide Queued, ScanLane, EnqueueWork, SetPromises, Lens, Splitting.Fits, Splitting.Full;
    match step
    case Submit(_, _) =>
    case Reject(r) => SetExtends(s, {r}, Rejected);
    case Offer(r, l, at) => OfferExtends(s, l, r, at);
    case Wake => SetExtends(s, Queued(s.lanes), Cancelled);
    case Scan(now) => ScanExtends(s, now);
    case Fail => SetExtends(s, {s.worker.batch[s.worker.i]}, Unavailable);
    case Filter(now) =>
      var r := s.worker.batch[s.worker.i];
      SetExtends(s, {r}, if r in s.cancelled then Cancelled else DeadlineExceeded);
    case Publish =>
      var w := s.worker;
      SetExtends(s, {w.batch[w.active[w.k]]}, w.results[w.k]);
    case _ =>
  }

  lemma {:induction false} ExtendsTrans(a: map<Ref, seq<Outcome>>, b: map<Ref, seq<Outcome>>, c: map<Ref, seq<Outcome>>)
    requires Extends(a, b) && Extends(b, c)
    ensures Extends(a, c)
  {
  }

  lemma {:induction false} ExpireExtends(s: State, l: nat, now: Time)
    requires l < |s.lanes|
    ensures Extends(s.promises, ExpireLane(s, l, now).promises)
  {
    hide Sum, GoneNames, ExpireQueues, Behind, SetPromises, Shrunk;
    SetExtends(s, Behind(s.lanes[l], GoneNames(s.lanes[l].queues, now)), DeadlineExceeded);
  }

  lemma {:induction false} OfferExtends(s: State, l: nat, r: Ref, now: Time)
    requires l < |s.lanes| && r in s.works
    ensures Extends(s.promises, EnqueueWork(s, l, r, now).promises)
  {
    hide ExpireLane, Verdict, SetPromises, Extends, Admit;
    SetExtends(s, {r}, Exhausted);
    var mid := s.(ticket := s.ticket + 1, clock := now);
    var live := ExpireLane(mid, l, now);
    ExpireExtends(mid, l, now);
    SetExtends(live, {r}, Exhausted);
    SetExtends(live, {r}, DeadlineExceeded);
    ExtendsTrans(s.promises, live.promises, Resolve(live, {r}, Exhausted).promises);
    ExtendsTrans(s.promises, live.promises, Resolve(live, {r}, DeadlineExceeded).promises);
    ExpireShape(mid, l, now);
  }

  lemma {:induction false} ScanExtends(s: State, now: Time)
    requires s.worker.Scanning? && s.lanes != []
    ensures Extends(s.promises, ScanLane(s, now).promises)
  {
    hide ExpireLane, SetPromises, Extends, Sum, PickLane, Picked, Names, Sweep, CancelledTickets;
    var l, t := LaneAt(s), s.(clock := now);
    var u := SweepLane(t, l);
    SweepShape(t, l);
    SetExtends(t, Behind(t.lanes[l], CancelledTickets(t.lanes[l], t.cancelled)), Cancelled);
    assert Extends(t.promises, u.promises);
    hide SweepLane;
    ExpireExtends(u, l, now);
    ExpireShape(u, l, now);
    var mid := Prepared(s, l, now);
    ExtendsTrans(t.promises, u.promises, mid.promises);
    ExtendsSelf(s.promises);
    if Names(Picked(mid.lanes[l], now)) <= mid.lanes[l].items.Keys { PickShape(mid, l, now); }
  }

  lemma {:induction false} RunExtends(s: State, steps: seq<Step>)
    requires Inv(s) && Possible(s, steps)
    ensures Extends(s.promises, After(s, steps).promises)
    decreases |steps|
  {
    hide Enabled, Perform, Extends, Inv;
    if steps == [] {
      assert Extends(s.promises, s.promises) by { ExtendsSelf(s.promises); }
    } else {
      StepKeeps(s, steps[0]);
      InvKeys(s);
      StepExtends(s, steps[0]);
      RunExtends(Perform(s, steps[0]), steps[1..]);
      ExtendsTrans(s.promises, Perform(s, steps[0]).promises, After(s, steps).promises);
    }
  }

  lemma {:induction false} InvKeys(s: State)
    requires Inv(s)
    ensures s.promises.Keys == s.works.Keys
  {
    hide InFlight, Queued, Budgeted, LanesOk, WorkerOk;
  }

  lemma {:induction false} ExtendsSelf(a: map<Ref, seq<Outcome>>)
    ensures Extends(a, a)
  {
  }

  /** The answer a caller has been given is the answer for good. */
  lemma {:induction false} AnswersAreFinal(s: State, steps: seq<Step>, r: Ref, outcome: Outcome)
    requires Inv(s) && Possible(s, steps) && r in s.promises && s.promises[r] == [outcome]
    ensures r in After(s, steps).promises && After(s, steps).promises[r] == [outcome]
  {
    RunKeeps(s, steps);
    RunExtends(s, steps);
    hide Possible, After, Budgeted, LanesOk, WorkerOk, InFlight, Queued;
  }

  // ---------------------------------------------------------------- faults and shutdown

  /** An unhealthy runtime runs no model, and only an unhealthy one refuses a batch. */
  ghost predicate Contained(s: State) {
    && (!s.healthy ==> !s.worker.Filtering? && !s.worker.Running?)
    && (s.worker.Failing? ==> !s.healthy)
  }

  lemma {:induction false} StepContained(s: State, step: Step)
    requires Enabled(s, step) && Contained(s)
    ensures Contained(Perform(s, step))
  {
    hide Queued, ScanLane, EnqueueWork, SetPromises, Lens, Splitting.Fits, Splitting.Full;
    match step
    case Offer(r, l, at) => OfferShape(s, l, r, at);
    case Scan(now) => ScanShape(s, now);
    case _ =>
  }

  /** After an engine fault no model runs again on either lane, and the runtime stays unhealthy. */
  lemma {:induction false} FaultsAreContained(s: State, steps: seq<Step>)
    requires Contained(s) && Possible(s, steps)
    ensures Contained(After(s, steps))
    ensures !s.healthy ==> !After(s, steps).healthy
    decreases |steps|
  {
    hide Enabled, Contained;
    if steps != [] {
      StepContained(s, steps[0]);
      HealthOnlyFalls(s, steps[0]);
      hide Perform;
      FaultsAreContained(Perform(s, steps[0]), steps[1..]);
    }
  }

  lemma {:induction false} HealthOnlyFalls(s: State, step: Step)
    requires Enabled(s, step)
    ensures !s.healthy ==> !Perform(s, step).healthy
    ensures s.stopping ==> Perform(s, step).stopping
    ensures |Perform(s, step).lanes| == |s.lanes|
  {
    hide Queued, ScanLane, EnqueueWork, SetPromises, Lens, Splitting.Fits, Splitting.Full;
    match step
    case Offer(r, l, at) => OfferShape(s, l, r, at);
    case Scan(now) => ScanShape(s, now);
    case _ =>
  }

  /** How many steps the worker can still take once the service is stopping. */
  ghost function StepsLeft(w: Worker, lanes: nat): int {
    match w
    case Exited => 0
    case Idle => 1
    case Scanning(n) => 258 + lanes - n + 1
    case Cutting(_, batch, first) => 2 + 8 * (|batch| - first)
    case Filtering(_, batch, _, end, i, active) => 2 + 8 * (|batch| - end) + 3 * (end - i) + 2 * |active| + 4
    case Failing(_, batch, end, i) => 2 + 8 * (|batch| - end) + (end - i) + 1
    case Running(_, batch, _, end, active) => 2 + 8 * (|batch| - end) + 2 * |active| + 3
    case Collecting(_, batch, end, active, results) => 2 + 8 * (|batch| - end) + 2 * |active| - |results| + 2
    case Publishing(_, batch, end, active, k, _) => 2 + 8 * (|batch| - end) + (|active| - k) + 1
  }

  lemma {:induction false} ScanFalls(s: State, now: Time)
    requires Inv(s) && s.worker.Scanning? && s.worker.n < |s.lanes| && s.clock <= now
    ensures 0 <= StepsLeft(ScanLane(s, now).worker, |s.lanes|) < StepsLeft(s.worker, |s.lanes|)
  {
    hide Promised, Budgeted, LaneOk, ScanLane, Lens, NoDup;
    ScanKeeps(s, now);
    ScanShape(s, now);
  }

  lemma {:induction false} StepsLeftNatural(s: State)
    requires Inv(s)
    ensures StepsLeft(s.worker, |s.lanes|) >= 0
    ensures s.worker.Exited? <==> StepsLeft(s.worker, |s.lanes|) == 0
  {
    InvWorker(s);
    hide Inv, Lens, NoDup, Splitting.Survivors;
  }

  lemma {:induction false} WorkerFalls(s: State, step: Step)
    requires Inv(s) && Enabled(s, step) && s.stopping && step.OfWorker()
    ensures StepsLeft(Perform(s, step).worker, |s.lanes|) < StepsLeft(s.worker, |s.lanes|)
  {
    hide Inv, ScanLane, Queued, SetPromises, Lens, Splitting.Full, Segment, Reading, Late;
    if step.Scan? {
      ScanFalls(s, step.now);
    }
  }

  lemma {:induction false} CallerLeaves(s: State, step: Step)
    requires Enabled(s, step) && !step.OfWorker()
    ensures Perform(s, step).worker == s.worker
  {
    hide Sum, Queued, SetPromises, ExpireQueues, GoneNames, Behind, Shrunk, Verdict, Admit;
  }

  /** Until it has left, the worker can always take a step: it never waits on a promise or a
      caller. */
  lemma {:induction false} WorkerCanStep(s: State) returns (step: Step)
    requires Inv(s) && !s.worker.Exited?
    ensures step.OfWorker() && Enabled(s, step)
  {
    hide Inv, BatchOk, Lens, Splitting.Fits, Splitting.Full;
    InvWorker(s);
    match s.worker
    case Idle => step := Wake;
    case Scanning(n) => step := if n < |s.lanes| then Scan(s.clock) else Wait;
    case Cutting(l, batch, first) =>
      if first == |batch| {
        step := EndBatch;
      } else {
        FirstFits(s, l, batch, first);
        var end := GreedyEnd(Lens(batch, s.works), s.lanes[l].budget, first, first + 1);
        step := Cut(end);
      }
    case Filtering(_, _, _, _, _, _) => step := FilteringCanStep(s);
    case Failing(_, _, end, i) => step := if i < end then Fail else EndSegment;
    case Running(_, _, _, _, _) => step := FinishRun(Completed, s.clock);
    case Collecting(_, _, _, _, _) => step := CollectingCanStep(s);
    case Publishing(_, _, _, active, k, _) => step := if k < |active| then Publish else EndSegment;
  }

  lemma {:induction false} SegmentRange(w: Worker, lanes: seq<Lane>, works: map<Ref, Work>, stopping: bool)
    requires WorkerFits(w, lanes, works, stopping) && w.Filtering?
    ensures w.i <= w.end <= |w.batch|
    ensures forall k :: 0 <= k < |w.active| ==> w.active[k] < |w.batch|
  {
    hide BatchOk, Lens;
    BatchNoDup(lanes, works, w.lane, w.batch);
    FitsRange(Lens(w.batch, works), lanes[w.lane].budget, w.first, w.end);
  }

  lemma {:induction false} FilteringCanStep(s: State) returns (step: Step)
    requires Inv(s) && s.worker.Filtering?
    ensures step.OfWorker() && Enabled(s, step)
  {
    hide Inv, WorkerFits;
    InvWorker(s);
    var w := s.worker;
    SegmentRange(w, s.lanes, s.works, s.stopping);
    step := if w.i < w.end then Filter(s.clock) else if w.active == [] then EndSegment else StartRun;
  }

  lemma {:induction false} CollectingCanStep(s: State) returns (step: Step)
    requires Inv(s) && s.worker.Collecting?
    ensures step.OfWorker() && Enabled(s, step)
  {
    hide Inv, BatchOk, Lens;
    InvWorker(s);
    step := if |s.worker.results| < |s.worker.active| then Collect(s.clock) else Join;
  }

  lemma {:induction false} FirstFits(s: State, l: nat, batch: seq<Ref>, first: nat)
    requires Inv(s) && BatchOk(s.lanes, s.works, l, batch) && first < |batch|
    ensures l < |s.lanes| && Splitting.Fits(Lens(batch, s.works), s.lanes[l].budget, first, first + 1)
  {
    assert LaneOk(s.lanes[l], s.works, s.clock, s.ticket);
    assert s.lanes[l].Loaded();
    hide Inv, LaneOk, LanesOk;
  }

  lemma {:induction false} FitsRange(lens: seq<nat>, budget: nat, first: nat, end: nat)
    requires Splitting.Fits(lens, budget, first, end)
    ensures first < end <= |lens|
  {
  }

  lemma {:induction false} GreedyEnd(lens: seq<nat>, budget: nat, first: nat, from: nat) returns (end: nat)
    requires Splitting.Fits(lens, budget, first, from)
    ensures Splitting.Fits(lens, budget, first, end) && Splitting.Full(lens, budget, first, end)
    decreases |lens| - from
  {
    if from < |lens| && (from - first + 1) * lens[from] <= budget {
      end := GreedyEnd(lens, budget, first, from + 1);
    } else {
      end := from;
    }
  }

  ghost function WorkerSteps(steps: seq<Step>): nat {
    if steps == [] then 0 else (if steps[0].OfWorker() then 1 else 0) + WorkerSteps(steps[1..])
  }

  /** Shutdown terminates: whatever the callers do, a stopping worker takes at most StepsLeft
      more steps, at which point it has exited and answered everything that was queued. */
  lemma {:induction false} ShutdownIsBounded(s: State, steps: seq<Step>)
    requires Inv(s) && s.stopping && Possible(s, steps)
    ensures WorkerSteps(steps) <= StepsLeft(s.worker, |s.lanes|) - StepsLeft(After(s, steps).worker, |s.lanes|)
    ensures |After(s, steps).lanes| == |s.lanes|
    ensures WorkerSteps(steps) >= StepsLeft(s.worker, |s.lanes|) ==> After(s, steps).worker.Exited?
    decreases |steps|
  {
    hide Inv, Enabled, StepsLeft;
    StepsLeftNatural(s);
    if steps != [] {
      StepKeeps(s, steps[0]);
      HealthOnlyFalls(s, steps[0]);
      if steps[0].OfWorker() { WorkerFalls(s, steps[0]); } else { CallerLeaves(s, steps[0]); }
      hide Perform;
      ShutdownIsBounded(Perform(s, steps[0]), steps[1..]);
    }
  }

  // ---------------------------------------------------------------- lanes take turns

  /** How many lanes are looked at before lane `l` when a scan starts. */
  function Distance(rotation: nat, l: nat, lanes: nat): nat
    requires rotation < lanes && l < lanes
  {
    if l >= rotation then l - rotation else l + lanes - rotation
  }

  lemma {:induction false} Wrap(x: nat, n: nat)
    requires x < 2 * n
    ensures x % n == if x < n then x else x - n
  {
    var q, r := x / n, x % n;
    assert x == q * n + r && 0 <= r < n;
    assert q == 0 || q == 1;
    assert q == 0 ==> q * n == 0;
    assert q == 1 ==> q * n == n;
  }

  /** Where the next scan starts after a batch from the lane `n` places on. */
  ghost function NextStart(rotation: nat, n: nat, lanes: nat): nat
    requires lanes > 0
  {
    ((rotation + n) % lanes + 1) % lanes
  }

  lemma {:induction false} TurnsGoRound(rotation: nat, n: nat, l: nat, lanes: nat)
    requires rotation < lanes && n < lanes && l < lanes
    ensures n == Distance(rotation, l, lanes) <==> (rotation + n) % lanes == l
    ensures NextStart(rotation, n, lanes) < lanes
    ensures
      var d := Distance(rotation, l, lanes);
      n != d ==> Distance(NextStart(rotation, n, lanes), l, lanes) == (if n < d then d else d + lanes) - n - 1
  {
    Wrap(rotation + n, lanes);
    Wrap((rotation + n) % lanes + 1, lanes);
  }

  /** How many batches other lanes can still take before a scan reaches lane `l`. */
  ghost function Turns(s: State, l: nat): int
    requires s.rotation < |s.lanes| && l < |s.lanes|
  {
    var d := Distance(s.rotation, l, |s.lanes|);
    if s.worker.Scanning? && s.worker.n > d then |s.lanes| + d - s.worker.n else d
  }

  lemma {:induction false} InvRotation(s: State)
    requires Inv(s)
    ensures s.rotation < |s.lanes| && !s.crashed && (s.worker.Scanning? ==> s.worker.n <= |s.lanes|)
  {
    hide Promised, Budgeted, LanesOk;
  }

  lemma {:induction false} TurnsAreFew(s: State, l: nat)
    requires Inv(s) && l < |s.lanes|
    ensures s.rotation < |s.lanes| && 0 <= Turns(s, l) < |s.lanes|
  {
    hide Inv;
    InvRotation(s);
  }

  /** A scan of another lane: the next scan is nearer to `l`, by one at least if it took a batch. */
  lemma {:induction false} ScanTurns(s: State, now: Time, l: nat)
    requires Inv(s) && s.worker.Scanning? && s.worker.n < |s.lanes| && s.clock <= now && l < |s.lanes|
    requires s.rotation < |s.lanes| && LaneAt(s) != l
    ensures
      var s' := ScanLane(s, now);
      && s'.rotation < |s'.lanes| == |s.lanes|
      && Turns(s', l) + (if s'.worker.Cutting? then 1 else 0) <= Turns(s, l)
  {
    hide Inv, ScanLane, Distance;
    ScanKeeps(s, now);
    ScanShape(s, now);
    InvRotation(ScanLane(s, now));
    TurnsGoRound(s.rotation, s.worker.n, l, |s.lanes|);
    assert ScanLane(s, now).worker.Cutting? ==>
        ScanLane(s, now).rotation == NextStart(s.rotation, s.worker.n, |s.lanes|);
    hide NextStart, LaneAt;
  }

  lemma {:induction false} OtherTurns(s: State, step: Step, l: nat)
    requires Inv(s) && Enabled(s, step) && !step.Scan? && l < |s.lanes| && s.rotation < |s.lanes|
    ensures
      var s' := Perform(s, step);
      s'.rotation < |s'.lanes| == |s.lanes| && Turns(s', l) <= Turns(s, l)
  {
    hide Inv, Queued, ScanLane, EnqueueWork, SetPromises, Lens, Splitting.Fits, Splitting.Full;
    if step.Offer? { OfferShape(s, step.l, step.r, step.at); }
  }

  /** The batches taken in a run, from any lane. */
  ghost function Batches(s: State, steps: seq<Step>): nat
    requires Possible(s, steps)
    decreases |steps|
  {
    if steps == [] then 0
    else
      var t := Perform(s, steps[0]);
      (if steps[0].Scan? && t.worker.Cutting? then 1 else 0) + Batches(t, steps[1..])
  }

  /** No batch of the run is taken from lane `l`. */
  ghost predicate Unserved(s: State, steps: seq<Step>, l: nat)
    requires Possible(s, steps)
    decreases |steps|
  {
    steps == [] ||
    var t := Perform(s, steps[0]);
    !(steps[0].Scan? && t.worker.Cutting? && t.worker.lane == l) && Unserved(t, steps[1..], l)
  }

  /** Whenever the run scans lane `l`, the lane has a batch ready. */
  ghost predicate ReadyWhenScanned(s: State, steps: seq<Step>, l: nat)
    requires Possible(s, steps)
    decreases |steps|
  {
    steps == [] ||
    ((steps[0].Scan? && s.lanes != [] && LaneAt(s) == l ==>
        Selected(s.lanes[l].Limits(), Swept(s, l), steps[0].now) != [])
     && ReadyWhenScanned(Perform(s, steps[0]), steps[1..], l))
  }

  lemma {:induction false} StepTurns(s: State, step: Step, l: nat)
    requires Inv(s) && Enabled(s, step) && l < |s.lanes| && s.rotation < |s.lanes|
    requires step.Scan? && LaneAt(s) == l ==> Selected(s.lanes[l].Limits(), Swept(s, l), step.now) != []
    requires
      var t := Perform(s, step);
      !(step.Scan? && t.worker.Cutting? && t.worker.lane == l)
    ensures
      var t := Perform(s, step);
      && t.rotation < |t.lanes| == |s.lanes|
      && Turns(t, l) + (if step.Scan? && t.worker.Cutting? then 1 else 0) <= Turns(s, l)
  {
    hide Inv, ScanLane, Turns, Swept, Selected;
    if step.Scan? {
      ScanIsNext(s, step.now);
      ScanTurns(s, step.now, l);
    } else {
      OtherTurns(s, step, l);
    }
  }

  /** Lanes take turns: in any run in which lane `l` has a batch ready whenever it is scanned and
      yet none is taken from it, fewer batches than there are lanes are taken at all: with two
      lanes, a ready lane waits for one batch of the other at most. */
  lemma {:induction false} LanesTakeTurns(s: State, steps: seq<Step>, l: nat)
    requires Inv(s) && Possible(s, steps) && l < |s.lanes|
    requires ReadyWhenScanned(s, steps, l) && Unserved(s, steps, l)
    ensures s.rotation < |s.lanes| && Batches(s, steps) <= Turns(s, l) < |s.lanes|
    decreases |steps|
  {
    hide Inv, Enabled, Turns, Swept, Selected;
    TurnsAreFew(s, l);
    if steps != [] {
      StepKeeps(s, steps[0]);
      assert steps[0].Scan? ==> s.worker.Scanning? by { ScanEnabled(s, steps[0]); }
      StepTurns(s, steps[0], l);
      hide Perform;
      LanesTakeTurns(Perform(s, steps[0]), steps[1..], l);
    }
  }

  lemma {:induction false} ScanEnabled(s: State, step: Step)
    requires Enabled(s, step)
    ensures step.Scan? ==> s.worker.Scanning?
  {
  }
}
