/** What the inference service answers, and why.

    Every answer has exactly one cause, a step of the run: the very item is read from a completed
    execution, expires, is swept after its caller cancelled, does not fit into its queue, or the
    service stops or fails.  Conversely each such step decides the answer for good.  For this
    every queue entry has to carry the deadline, length and class of the work item its ticket
    stands for. */
module ServiceAnswers {
  import opened Scheduling
  import opened Service
  import opened ServiceRuns
  import Splitting

  // ---------------------------------------------------------------- entries and items

  ghost predicate Matches(works: map<Ref, Work>, items: map<string, Ref>, p: PendingItem) {
    && p.item.itemId in items && items[p.item.itemId] in works
    && var w := works[items[p.item.itemId]];
       p.item == BatchItem(p.item.itemId, w.kind, w.ids, w.deadline)
  }

  ghost function Test(works: map<Ref, Work>, items: map<string, Ref>): PendingItem -> bool {
    (p: PendingItem) => Matches(works, items, p)
  }

  /** Every entry describes the work item its ticket stands for. */
  ghost predicate LaneMatches(lane: Lane, works: map<Ref, Work>) {
    Every(lane.queues.query, Test(works, lane.items)) && Every(lane.queues.bulk, Test(works, lane.items))
  }

  ghost predicate AllMatch(s: State) {
    forall l :: 0 <= l < |s.lanes| ==> LaneMatches(s.lanes[l], s.works)
  }

  // ---------------------------------------------------------------- lanes give items up

  lemma {:induction false} NamedIn(q: seq<PendingItem>, i: nat)
    requires i < |q|
    ensures q[i].item.itemId in Names(q)
  {
  }

  lemma {:induction false} EveryShrinks(
      q: seq<PendingItem>, works: map<Ref, Work>, items: map<string, Ref>, gone: set<string>)
    requires Every(q, Test(works, items)) && Names(q) !! gone
    ensures Every(q, Test(works, items - gone))
  {
    forall i | 0 <= i < |q| ensures Matches(works, items - gone, q[i]) {
      assert Test(works, items)(q[i]);
      NamedIn(q, i);
    }
  }

  lemma {:induction false} ShrunkMatches(lane: Lane, works: map<Ref, Work>, queues: Queues, gone: set<string>)
    requires Every(queues.query, Test(works, lane.items)) && Every(queues.bulk, Test(works, lane.items))
    requires AllNames(queues) !! gone
    ensures LaneMatches(Shrunk(lane, queues, gone), works)
  {
    EveryShrinks(queues.query, works, lane.items, gone);
    EveryShrinks(queues.bulk, works, lane.items, gone);
  }

  lemma {:induction false} GiveUpMatches(s: State, l: nat, queues: Queues, gone: set<string>)
    requires l < |s.lanes| && AllMatch(s) && AllNames(queues) !! gone
    requires Every(queues.query, Test(s.works, s.lanes[l].items)) && Every(queues.bulk, Test(s.works, s.lanes[l].items))
    ensures AllMatch(GiveUp(s, l, queues, gone))
  {
    hide LaneMatches, Test, Every, AllNames, Behind, Sum;
    ShrunkMatches(s.lanes[l], s.works, queues, gone);
  }

  lemma {:induction false} ExpireMatches(s: State, l: nat, now: Time)
    requires l < |s.lanes| && Core(s) && AllMatch(s)
    ensures AllMatch(ExpireLane(s, l, now))
  {
    var lane := s.lanes[l];
    assert LaneOk(lane, s.works, s.clock, s.ticket) && LaneMatches(lane, s.works);
    ExpireNames(lane.Limits(), lane.queues, now);
    KeepEvery(lane.queues.query, Unexpired(now), Test(s.works, lane.items));
    KeepEvery(lane.queues.bulk, Unexpired(now), Test(s.works, lane.items));
    hide Core, LaneOk, Keep, Every, LaneMatches, GoneNames, Names;
    GiveUpMatches(s, l, ExpireQueues(lane.queues, now), GoneNames(lane.queues, now));
  }

  lemma {:induction false} SweepMatches(s: State, l: nat)
    requires l < |s.lanes| && AllMatch(s)
    ensures AllMatch(SweepLane(s, l))
  {
    var lane := s.lanes[l];
    var gone := CancelledTickets(lane, s.cancelled);
    assert LaneMatches(lane, s.works);
    UnnamedNames(lane.queues.query, gone);
    UnnamedNames(lane.queues.bulk, gone);
    KeepEvery(lane.queues.query, Unnamed(gone), Test(s.works, lane.items));
    KeepEvery(lane.queues.bulk, Unnamed(gone), Test(s.works, lane.items));
    hide Keep, Every, LaneMatches, CancelledTickets, Names;
    GiveUpMatches(s, l, Sweep(lane.queues, gone), gone);
  }

  lemma {:induction false} EverySuffix(q: seq<PendingItem>, n: nat, f: PendingItem -> bool)
    requires n <= |q| && Every(q, f)
    ensures Every(q[n..], f)
  {
  }

  lemma {:induction false} PickMatches(s: State, l: nat, now: Time)
    requires l < |s.lanes| && Core(s) && AllMatch(s) && s.worker.Scanning?
    requires Names(Picked(s.lanes[l], now)) <= s.lanes[l].items.Keys
    ensures AllMatch(PickLane(s, l, now))
  {
    var lane := s.lanes[l];
    assert LaneOk(lane, s.works, s.clock, s.ticket) && LaneMatches(lane, s.works);
    PickedNames(lane, s.works, s.clock, s.ticket, now);
    PickedMatches(lane, s.works, now);
    hide Core, LaneOk, Picked, PickedQueues, Names, Every, SortByLength, RefsOf, Sum, LaneMatches;
    PickedLanes(s, l, now);
  }

  lemma {:induction false} PickedMatches(lane: Lane, works: map<Ref, Work>, now: Time)
    requires LaneMatches(lane, works)
    ensures Every(PickedQueues(lane, now).query, Test(works, lane.items))
        && Every(PickedQueues(lane, now).bulk, Test(works, lane.items))
  {
    match Choose(lane.Limits(), lane.queues, now)
    case Nothing =>
    case Chosen(cls) =>
      EverySuffix(lane.queues.Of(cls), BatchSize(lane.Limits(), lane.queues.Of(cls)), Test(works, lane.items));
      hide Every;
  }

  lemma {:induction false} PickedLanes(s: State, l: nat, now: Time)
    requires l < |s.lanes| && AllMatch(s) && s.worker.Scanning?
        && Names(Picked(s.lanes[l], now)) <= s.lanes[l].items.Keys
    requires AllNames(PickedQueues(s.lanes[l], now)) == AllNames(s.lanes[l].queues) - Names(Picked(s.lanes[l], now))
    requires Every(PickedQueues(s.lanes[l], now).query, Test(s.works, s.lanes[l].items))
        && Every(PickedQueues(s.lanes[l], now).bulk, Test(s.works, s.lanes[l].items))
    ensures AllMatch(PickLane(s, l, now))
  {
    hide Picked, PickedQueues, Names, Every, SortByLength, RefsOf, Sum, LaneMatches, AllNames;
    ShrunkMatches(s.lanes[l], s.works, PickedQueues(s.lanes[l], now), Names(Picked(s.lanes[l], now)));
  }

  // ---------------------------------------------------------------- enqueueing

  lemma {:induction false} EveryGrows(
      q: seq<PendingItem>, works: map<Ref, Work>, items: map<string, Ref>, id: string, r: Ref)
    requires Every(q, Test(works, items)) && id !in items
    ensures Every(q, Test(works, items[id := r]))
  {
    forall i | 0 <= i < |q| ensures Matches(works, items[id := r], q[i]) { assert Test(works, items)(q[i]); }
  }

  lemma {:induction false} EveryAppend(q: seq<PendingItem>, p: PendingItem, f: PendingItem -> bool)
    requires Every(q, f) && f(p)
    ensures Every(q + [p], f)
  {
  }

  lemma {:induction false} AdmitMatches(lane: Lane, works: map<Ref, Work>, ticket: nat, r: Ref, now: Time)
    requires LaneMatches(lane, works) && Issued(lane.items, ticket) && r in works
    ensures
      var item := ItemFor(ticket + 1, works[r]);
      LaneMatches(lane.(queues := Admit(lane.queues, item, now), items := lane.items[item.itemId := r]), works)
  {
    var item := ItemFor(ticket + 1, works[r]);
    TicketIsNew(lane.items, ticket);
    EveryGrows(lane.queues.query, works, lane.items, item.itemId, r);
    EveryGrows(lane.queues.bulk, works, lane.items, item.itemId, r);
    var test := Test(works, lane.items[item.itemId := r]);
    assert test(PendingItem(item, now));
    EveryAppend(lane.queues.Of(item.workClass), PendingItem(item, now), test);
    hide Every, Test;
  }

  lemma {:induction false} LaneIssued(lane: Lane, works: map<Ref, Work>, clock: Time, ticket: nat)
    requires LaneOk(lane, works, clock, ticket)
    ensures Issued(lane.items, ticket)
  {
  }

  lemma {:induction false} AdmitLaneMatches(s: State, l: nat, r: Ref, now: Time)
    requires l < |s.lanes| && r in s.works && AllMatch(s) && s.ticket > 0 && Issued(s.lanes[l].items, s.ticket - 1)
    ensures AllMatch(AdmitLane(s, l, r, now))
  {
    AdmitMatches(s.lanes[l], s.works, s.ticket - 1, r, now);
    hide LaneMatches, Admit;
  }

  lemma {:induction false} OfferMatches(s: State, l: nat, r: Ref, now: Time)
    requires l < |s.lanes| && Core(s) && (s.worker.Exited? ==> s.stopping) && s.clock <= now && r in s.works
    requires AllMatch(s)
    ensures AllMatch(EnqueueWork(s, l, r, now))
  {
    hide Core, LaneOk, LaneMatches, Verdict, SetPromises, AdmitLane;
    if !s.stopping && s.works[r].Bytes() <= QUEUE_BYTES - s.pendingBytes {
      var mid := s.(ticket := s.ticket + 1, clock := now);
      EnqueueLive(s, l, now);
      AdvanceKeeps(s, s.ticket + 1, now);
      ExpireMatches(mid, l, now);
      var live := ExpireLane(mid, l, now);
      assert Issued(live.lanes[l].items, s.ticket) by { LaneIssued(live.lanes[l], live.works, now, s.ticket); }
      hide ExpireLane;
      AdmitLaneMatches(live, l, r, now);
    }
  }

  lemma {:induction false} SubmitMatches(s: State, r: Ref, work: Work)
    requires AllMatch(s) && r !in s.works
    ensures AllMatch(s.(works := s.works[r := work]))
  {
    forall l | 0 <= l < |s.lanes| ensures LaneMatches(s.lanes[l], s.works[r := work]) {
      assert LaneMatches(s.lanes[l], s.works);
      EveryMoreWork(s.lanes[l].queues.query, s.works, s.lanes[l].items, r, work);
      EveryMoreWork(s.lanes[l].queues.bulk, s.works, s.lanes[l].items, r, work);
    }
  }

  lemma {:induction false} EveryMoreWork(
      q: seq<PendingItem>, works: map<Ref, Work>, items: map<string, Ref>, r: Ref, work: Work)
    requires Every(q, Test(works, items)) && r !in works
    ensures Every(q, Test(works[r := work], items))
  {
    forall i | 0 <= i < |q| ensures Matches(works[r := work], items, q[i]) { assert Test(works, items)(q[i]); }
  }

  lemma {:induction false} ScanMatches(s: State, now: Time)
    requires Inv(s) && AllMatch(s) && s.worker.Scanning? && s.lanes != [] && s.clock <= now
    ensures AllMatch(ScanLane(s, now))
  {
    hide LaneMatches, Promised, Budgeted, LaneOk, WorkerFits, SweepLane, ExpireLane, Picked, Names, PickLane, ScanLane;
    var l, t := LaneAt(s), s.(clock := now);
    AdvanceKeeps(s, s.ticket, now);
    SweepMatches(t, l);
    SweepLaneKeeps(t, l);
    SweepShape(t, l);
    ExpireMatches(SweepLane(t, l), l, now);
    PreparedKeeps(s, l, now);
    ScanPicks(s, now);
    PickMatches(Prepared(s, l, now), l, now);
  }

  lemma {:induction false} MatchFrame(s: State, s': State)
    requires AllMatch(s) && s'.lanes == s.lanes && s'.works == s.works
    ensures AllMatch(s')
  {
  }

  /** Every step keeps every entry in step with its work item. */
  lemma {:induction false} StepMatches(s: State, step: Step)
    requires Inv(s) && AllMatch(s) && Enabled(s, step)
    ensures AllMatch(Perform(s, step))
  {
    hide AllMatch, EnqueueWork, SetPromises, ScanLane, Queued, Promised, Budgeted, LanesOk, WorkerFits, Lens,
      Splitting.Fits, Splitting.Full;
    match step
    case Submit(r, work) =>
      SubmitMatches(s, r, work);
      MatchFrame(s.(works := s.works[r := work]), Perform(s, step));
    case Offer(r, l, at) =>
      ExitedStops(s);
      OfferMatches(s, l, r, at);
    case Scan(now) => ScanMatches(s, now);
    case _ => MatchFrame(s, Perform(s, step));
  }

  // ---------------------------------------------------------------- answers and their causes

  /** The caller of `r` has been told `o`. */
  ghost predicate Told(s: State, r: Ref, o: Outcome) { r in s.promises && o in s.promises[r] }

  /** The worker holds `o` as the result of its item `j`. */
  ghost predicate Reports(w: Worker, j: nat, r: Ref, o: Outcome) {
    && (w.Collecting? || w.Publishing?)
    && j < |w.active| && j < |w.results| && w.active[j] < |w.batch|
    && w.batch[w.active[j]] == r && w.results[j] == o
  }

  /** The worker holds `o` for `r` and has yet to tell. */
  ghost predicate InHand(w: Worker, r: Ref, o: Outcome) {
    exists j: nat :: Reports(w, j, r, o) && (w.Publishing? ==> w.k <= j)
  }

  /** The answer to `r` is settled. */
  ghost predicate Assigned(s: State, r: Ref, o: Outcome) { Told(s, r, o) || InHand(s.worker, r, o) }

  ghost predicate Due(s: State, r: Ref, now: Time) { r in s.works && s.works[r].deadline <= now }

  /** The item whose result is read next. */
  ghost predicate Reads(w: Worker, r: Ref) {
    && w.Collecting? && |w.results| < |w.active| && w.active[|w.results|] < |w.batch|
    && w.batch[w.active[|w.results|]] == r
  }

  /** The item looked at next before an execution. */
  ghost predicate Looks(w: Worker, r: Ref) { w.Filtering? && w.i < |w.batch| && w.batch[w.i] == r }

  ghost predicate Refuses(w: Worker, r: Ref) { w.Failing? && w.i < |w.batch| && w.batch[w.i] == r }

  /** The service takes new items and these bytes fit under the limit of 64 MiB. */
  ghost predicate Fits(s: State, r: Ref) {
    !s.stopping && r in s.works && 8 * (s.works[r].ids + s.works[r].types) <= 67_108_864 - s.pendingBytes
  }

  /** The queue for `r` is full of unexpired items. */
  ghost predicate Full(s: State, r: Ref, l: nat, at: Time) {
    && l < |s.lanes| && r in s.works
    && |Live(s.lanes[l].queues.Of(s.works[r].kind), at)| >= if s.works[r].kind.Query? then 128 else 256
  }

  ghost predicate QueuedIn(s: State, l: nat, r: Ref) { l < |s.lanes| && r in s.lanes[l].Refs() }

  ghost predicate Scanned(s: State, r: Ref) { s.worker.Scanning? && s.lanes != [] && QueuedIn(s, LaneAt(s), r) }

  ghost predicate Runs(w: Worker, r: Ref) { w.Running? && r in Segment(w) }

  /** The step because of which `r` is answered `o`. */
  ghost predicate Causes(s: State, step: Step, r: Ref, o: Outcome) {
    match o
    case Served(x) => x == r && step.Collect? && Reads(s.worker, r) && r !in s.cancelled && !Due(s, r, step.now)
    case DeadlineExceeded =>
      || (step.Collect? && Reads(s.worker, r) && r !in s.cancelled && Due(s, r, step.now))
      || (step.Filter? && Looks(s.worker, r) && r !in s.cancelled && Due(s, r, step.now))
      || (step.Scan? && Scanned(s, r) && r !in s.cancelled && Due(s, r, step.now))
      || (step.Offer? && Fits(s, step.r) && (r == step.r || QueuedIn(s, step.l, r)) && Due(s, r, step.at))
    case Cancelled =>
      || (step.Collect? && Reads(s.worker, r) && r in s.cancelled)
      || (step.Filter? && Looks(s.worker, r) && r in s.cancelled)
      || (step.Scan? && Scanned(s, r) && r in s.cancelled)
      || (step.Wake? && s.stopping && exists l: nat :: QueuedIn(s, l, r))
      || (step.FinishRun? && step.ending.Interrupted? && Runs(s.worker, r)
          && (s.stopping || forall x :: Runs(s.worker, x) ==> x in s.cancelled || Due(s, x, step.now)))
    case Faulted => step.FinishRun? && step.ending.Broken? && Runs(s.worker, r)
    case Unavailable => step.Fail? && Refuses(s.worker, r) && !s.healthy
    case Exhausted =>
      step.Offer? && step.r == r && (!Fits(s, r) || (!Due(s, r, step.at) && Full(s, r, step.l, step.at)))
    case Rejected => step.Reject? && step.r == r
  }

  lemma {:induction false} ResolveTells(s: State, refs: set<Ref>, a: Outcome, r: Ref, o: Outcome)
    ensures Told(Resolve(s, refs, a), r, o) <==> Told(s, r, o) || (r in refs && r in s.promises && o == a)
  {
  }

  /** What expiry takes out has reached its deadline. */
  lemma {:induction false} GoneIsDue(lane: Lane, works: map<Ref, Work>, now: Time, r: Ref)
    requires LaneMatches(lane, works) && r in Behind(lane, GoneNames(lane.queues, now))
    ensures r in lane.Refs() && r in works && works[r].deadline <= now
  {
    var t :| t in GoneNames(lane.queues, now) && t in lane.items && lane.items[t] == r;
    var test := Test(works, lane.items);
    KeepEvery(lane.queues.query, Overdue(now), test);
    KeepEvery(lane.queues.bulk, Overdue(now), test);
    var q := if t in Names(Gone(lane.queues.query, now)) then Gone(lane.queues.query, now)
      else Gone(lane.queues.bulk, now);
    hide Keep;
    var i :| 0 <= i < |q| && q[i].item.itemId == t;
    assert test(q[i]) && Overdue(now)(q[i]);
  }

  /** ...and everything that has reached it is taken out. */
  lemma {:induction false} DueIsGone(lane: Lane, works: map<Ref, Work>, now: Time, r: Ref)
    requires LaneMatches(lane, works) && lane.items.Keys == AllNames(lane.queues)
    requires r in lane.Refs() && r in works && works[r].deadline <= now
    ensures r in Behind(lane, GoneNames(lane.queues, now))
  {
    var t :| t in lane.items && lane.items[t] == r;
    assert t in AllNames(lane.queues);
    var q := if t in Names(lane.queues.query) then lane.queues.query else lane.queues.bulk;
    var i :| 0 <= i < |q| && q[i].item.itemId == t;
    assert Test(works, lane.items)(q[i]);
    var j := KeepIndex(q, Overdue(now), i);
    hide Keep;
    assert t in Names(Gone(q, now));
  }

  lemma {:induction false} ExpireTells(s: State, l: nat, now: Time, r: Ref, o: Outcome)
    requires l < |s.lanes| && Core(s) && AllMatch(s)
    ensures Told(ExpireLane(s, l, now), r, o)
      <==> Told(s, r, o) || (o == DeadlineExceeded && QueuedIn(s, l, r) && Due(s, r, now))
  {
    hide Core, LaneMatches, GoneNames, Behind, SetPromises, Sum, Shrunk, AllNames, ExpireQueues, Told, Injective;
    var lane := s.lanes[l];
    var gone := GoneNames(lane.queues, now);
    LaneFacts(s, l);
    if r in Behind(lane, gone) { GoneIsDue(lane, s.works, now, r); }
    if QueuedIn(s, l, r) && Due(s, r, now) { DueIsGone(lane, s.works, now, r); }
    CoreKeys(s);
    ToldFrame(s, GiveUp(s, l, ExpireQueues(lane.queues, now), gone), r, o);
    ResolveTells(GiveUp(s, l, ExpireQueues(lane.queues, now), gone), Behind(lane, gone), DeadlineExceeded, r, o);
  }

  lemma {:induction false} LaneFacts(s: State, l: nat)
    requires Core(s) && l < |s.lanes|
    ensures s.lanes[l].items.Keys == AllNames(s.lanes[l].queues) && Injective(s.lanes[l].items)
  {
    assert LaneOk(s.lanes[l], s.works, s.clock, s.ticket);
    hide Core, Sound, Clocked, Issued, Tokenized, AllNames, Injective;
  }

  lemma {:induction false} ToldFrame(s: State, s': State, r: Ref, o: Outcome)
    requires s'.promises == s.promises
    ensures Told(s', r, o) <==> Told(s, r, o)
  {
  }

  lemma {:induction false} CoreKeys(s: State)
    requires Core(s)
    ensures s.promises.Keys == s.works.Keys && s.preparing <= s.works.Keys && Queued(s.lanes) <= s.works.Keys
    ensures s.preparing !! Queued(s.lanes)
  {
    hide InFlight, Queued, Budgeted, LanesOk;
  }

  lemma {:induction false} SweepTells(s: State, l: nat, r: Ref, o: Outcome)
    requires l < |s.lanes| && Core(s)
    ensures Told(SweepLane(s, l), r, o) <==> Told(s, r, o) || (o == Cancelled && QueuedIn(s, l, r) && r in s.cancelled)
    ensures QueuedIn(SweepLane(s, l), l, r) <==> QueuedIn(s, l, r) && r !in s.cancelled
  {
    hide Core, SetPromises, Sum, Queued, Shrunk, AllNames, Sweep, Told;
    var lane := s.lanes[l];
    var gone := CancelledTickets(lane, s.cancelled);
    LaneFacts(s, l);
    assert r in Behind(lane, gone) <==> r in lane.Refs() && r in s.cancelled;
    hide Behind, CancelledTickets;
    ShrunkRefs(lane, Sweep(lane.queues, gone), gone);
    hide Injective;
    QueuedOf(s.lanes, l);
    CoreKeys(s);
    ToldFrame(s, GiveUp(s, l, Sweep(lane.queues, gone), gone), r, o);
    ResolveTells(GiveUp(s, l, Sweep(lane.queues, gone), gone), Behind(lane, gone), Cancelled, r, o);
  }

  lemma {:induction false} ScanTells(s: State, now: Time, r: Ref, o: Outcome)
    requires Inv(s) && AllMatch(s) && s.worker.Scanning? && s.worker.n < |s.lanes| && s.clock <= now
    ensures Told(ScanLane(s, now), r, o) <==> Told(s, r, o) || Causes(s, Scan(now), r, o)
    ensures !ScanLane(s, now).worker.Collecting? && !ScanLane(s, now).worker.Publishing?
  {
    hide AllMatch, Promised, Budgeted, LanesOk, WorkerOk, SweepLane, ExpireLane, Picked, Names, PickLane, ScanLane,
      LaneAt, Told, QueuedIn, SameModels;
    var l, t := LaneAt(s), s.(clock := now);
    AdvanceKeeps(s, s.ticket, now);
    assert AllMatch(t) by { MatchFrame(s, t); }
    SweepMatches(t, l);
    SweepLaneKeeps(t, l);
    SweepShape(t, l);
    var u := SweepLane(t, l);
    SweepTells(t, l, r, o);
    assert |u.lanes| == |s.lanes| by { SameSize(t.lanes, u.lanes); }
    ExpireTells(u, l, now, r, o);
    PreparedKeeps(s, l, now);
    var mid := Prepared(s, l, now);
    ScanPicks(s, now);
    assert |mid.lanes| == |s.lanes| by { SameSize(s.lanes, mid.lanes); }
    PickShape(mid, l, now);
    ToldFrame(mid, PickLane(mid, l, now), r, o);
    ToldFrame(s, t, r, o);
    assert QueuedIn(t, l, r) <==> QueuedIn(s, l, r) by { QueuedFrame(s, t, l, r); }
  }

  lemma {:induction false} SameSize(a: seq<Lane>, b: seq<Lane>)
    requires SameModels(a, b)
    ensures |a| == |b|
  {
  }

  lemma {:induction false} QueuedFrame(s: State, s': State, l: nat, r: Ref)
    requires s'.lanes == s.lanes
    ensures QueuedIn(s', l, r) <==> QueuedIn(s, l, r)
  {
  }

  lemma {:induction false} OfferTells(s: State, l: nat, q: Ref, now: Time, r: Ref, o: Outcome)
    requires Inv(s) && AllMatch(s) && Enabled(s, Offer(q, l, now))
    ensures Told(EnqueueWork(s, l, q, now), r, o) <==> Told(s, r, o) || Causes(s, Offer(q, l, now), r, o)
  {
    hide AllMatch, Promised, Budgeted, LanesOk, WorkerFits, Verdict, SetPromises, ExpireLane, Told, QueuedIn, AdmitLane,
      Full, SameModels, Queued, LaneOk;
    ExitedStops(s);
    CoreKeys(s);
    assert q in s.preparing && q in s.promises;
    if !Fits(s, q) {
      ToldFrame(s, s.(preparing := s.preparing - {q}), r, o);
      ResolveTells(s.(preparing := s.preparing - {q}), {q}, Exhausted, r, o);
    } else {
      var mid := s.(ticket := s.ticket + 1, clock := now);
      EnqueueLive(s, l, now);
      AdvanceKeeps(s, s.ticket + 1, now);
      assert AllMatch(mid) by { MatchFrame(s, mid); }
      ExpireTells(mid, l, now, r, o);
      var live := ExpireLane(mid, l, now);
      var verdict := OfferVerdict(s, l, q, now);
      ToldFrame(s, mid, r, o);
      assert QueuedIn(mid, l, r) <==> QueuedIn(s, l, r) by { QueuedFrame(s, mid, l, r); }
      hide Inv, Core;
      assert |live.lanes| == |s.lanes| by { SameSize(s.lanes, live.lanes); }
      if verdict.Accepted? {
        assert EnqueueWork(s, l, q, now) == AdmitLane(live, l, q, now);
        AdmitTells(live, l, q, now);
        ToldFrame(live, AdmitLane(live, l, q, now), r, o);
      } else {
        var answer := if verdict.Expired? then DeadlineExceeded else Exhausted;
        ToldFrame(live, live.(preparing := live.preparing - {q}), r, o);
        assert live.promises.Keys == s.promises.Keys by { ExpireKeys(mid, l, now); }
        ResolveTells(live.(preparing := live.preparing - {q}), {q}, answer, r, o);
      }
    }
  }

  lemma {:induction false} AdmitTells(s: State, l: nat, r: Ref, now: Time)
    requires l < |s.lanes| && r in s.works
    ensures AdmitLane(s, l, r, now).promises == s.promises
  {
  }

  lemma {:induction false} ExpireKeys(s: State, l: nat, now: Time)
    requires l < |s.lanes|
    ensures ExpireLane(s, l, now).promises.Keys == s.promises.Keys
  {
  }

  /** The scheduler refuses a work item exactly when its deadline is reached or its queue full. */
  lemma {:induction false} OfferVerdict(s: State, l: nat, q: Ref, now: Time) returns (verdict: EnqueueStatus)
    requires Inv(s) && Enabled(s, Offer(q, l, now)) && !s.worker.Exited?
    ensures
      var live := ExpireLane(s.(ticket := s.ticket + 1, clock := now), l, now);
      verdict == Verdict(live.lanes[l].Limits(), live.lanes[l].queues, ItemFor(live.ticket, s.works[q]), now)
    ensures verdict.Expired? <==> Due(s, q, now)
    ensures !verdict.Accepted? && !verdict.Expired? <==> !Due(s, q, now) && Full(s, q, l, now)
  {
    hide Promised, Budgeted, LanesOk, WorkerOk, LaneOk, ExpireLane, Pending, ValidId, Keep, Verdict, SameModels;
    var live := ExpireLane(s.(ticket := s.ticket + 1, clock := now), l, now);
    EnqueueLive(s, l, now);
    hide Inv, Core;
    assert |live.lanes| == |s.lanes| by { SameSize(s.lanes, live.lanes); }
    var lane := live.lanes[l];
    LiveLane(s, l, now);
    VerdictIsCapacityOrDeadline(lane, s.works, now, s.ticket, s.works[q], now);
    verdict := Verdict(lane.Limits(), lane.queues, ItemFor(live.ticket, s.works[q]), now);
    VerdictMeans(lane, ItemFor(live.ticket, s.works[q]), now);
  }

  lemma {:induction false} LiveLane(s: State, l: nat, now: Time)
    requires l < |s.lanes|
    ensures
      var live := ExpireLane(s.(ticket := s.ticket + 1, clock := now), l, now);
      && |live.lanes| == |s.lanes| && live.ticket == s.ticket + 1
      && live.lanes[l].queues == ExpireQueues(s.lanes[l].queues, now)
      && live.lanes[l].maxTokens == s.lanes[l].maxTokens && live.lanes[l].budget == s.lanes[l].budget
  {
    hide ExpireQueues, GoneNames, Behind, Sum, SetPromises;
  }

  lemma {:induction false} VerdictMeans(lane: Lane, item: BatchItem, now: Time)
    ensures
      var verdict := Verdict(lane.Limits(), lane.queues, item, now);
      var full := |lane.queues.Of(item.workClass)| >= if item.workClass.Query? then 128 else 256;
      && (verdict.Expired? ==> item.deadline <= now)
      && (verdict.Overloaded? ==> item.deadline > now && full)
      && (verdict.Accepted? ==> item.deadline > now && !full)
  {
    hide Pending, ValidId;
  }

  lemma {:induction false} SubmitTells(s: State, q: Ref, work: Work, r: Ref, o: Outcome)
    requires Enabled(s, Submit(q, work)) && s.promises.Keys == s.works.Keys
    ensures Told(Perform(s, Submit(q, work)), r, o) <==> Told(s, r, o)
  {
  }

  lemma {:induction false} CallerAssigns(s: State, step: Step, r: Ref, o: Outcome)
    requires Inv(s) && AllMatch(s) && Enabled(s, step) && !step.OfWorker()
    ensures Assigned(Perform(s, step), r, o) <==> Assigned(s, r, o) || Causes(s, step, r, o)
  {
    hide InHand, EnqueueWork, SetPromises, Queued, Promised, Budgeted, LanesOk, WorkerOk, AllMatch, Told;
    CallerLeaves(s, step);
    CoreKeys(s);
    match step
    case Submit(q, work) => SubmitTells(s, q, work, r, o);
    case Reject(q) =>
      ToldFrame(s, s.(preparing := s.preparing - {q}), r, o);
      ResolveTells(s.(preparing := s.preparing - {q}), {q}, Rejected, r, o);
    case Offer(q, l, at) => OfferTells(s, l, q, at, r, o);
    case CancelCall(_) => ToldFrame(s, Perform(s, step), r, o);
    case Shutdown => ToldFrame(s, Perform(s, step), r, o);
    case _ =>
  }

  lemma {:induction false} QueuedMember(lanes: seq<Lane>, r: Ref)
    ensures r in Queued(lanes) <==> exists l :: 0 <= l < |lanes| && r in lanes[l].Refs()
  {
    if lanes != [] {
      QueuedMember(lanes[1..], r);
      if l :| 0 <= l < |lanes| && r in lanes[l].Refs() { assert l > 0 ==> r in lanes[1..][l - 1].Refs(); }
      if l :| 0 <= l < |lanes[1..]| && r in lanes[1..][l].Refs() { assert r in lanes[l + 1].Refs(); }
    }
  }

  lemma {:induction false} QueuedSomewhere(s: State, r: Ref)
    ensures r in Queued(s.lanes) <==> exists l: nat :: QueuedIn(s, l, r)
  {
    QueuedMember(s.lanes, r);
    hide Queued;
    if l: nat :| QueuedIn(s, l, r) { assert l < |s.lanes| && r in s.lanes[l].Refs(); }
    if l :| 0 <= l < |s.lanes| && r in s.lanes[l].Refs() { assert QueuedIn(s, l, r); }
  }

  lemma {:induction false} WakeAssigns(s: State, r: Ref, o: Outcome)
    requires Inv(s) && s.worker.Idle?
    ensures Assigned(Perform(s, Wake), r, o) <==> Assigned(s, r, o) || Causes(s, Wake, r, o)
  {
    hide Queued, SetPromises, Promised, Budgeted, LanesOk, WorkerOk, Told, QueuedIn;
    CoreKeys(s);
    hide Inv, Core;
    QueuedSomewhere(s, r);
    ToldFrame(s, s.(worker := Exited), r, o);
    ToldFrame(s, s.(worker := Scanning(0)), r, o);
    ResolveTells(s.(worker := Exited), Queued(s.lanes), Cancelled, r, o);
  }

  /** The worker answers one item at once and holds no results. */
  lemma {:induction false} SettleAssigns(s: State, w: Worker, q: Ref, a: Outcome, r: Ref, o: Outcome)
    requires q in s.promises && !s.worker.Collecting? && !s.worker.Publishing? && !w.Collecting? && !w.Publishing?
    ensures Assigned(Resolve(s.(worker := w), {q}, a), r, o) <==> Assigned(s, r, o) || (r == q && o == a)
  {
    hide Told, SetPromises;
    ToldFrame(s, s.(worker := w), r, o);
    ResolveTells(s.(worker := w), {q}, a, r, o);
  }

  /** The worker moves on without results. */
  lemma {:induction false} MoveAssigns(s: State, s': State, r: Ref, o: Outcome)
    requires !s.worker.Collecting? && !s.worker.Publishing? && !s'.worker.Collecting? && !s'.worker.Publishing?
    requires s'.promises == s.promises
    ensures Assigned(s', r, o) <==> Assigned(s, r, o)
  {
  }

  /** The items of a worker's batch have promises. */
  lemma {:induction false} BatchPromised(s: State, i: nat)
    requires Inv(s) && (s.worker.Filtering? || s.worker.Failing? || s.worker.Publishing?) && i < |s.worker.batch|
    ensures s.worker.batch[i] in s.promises && s.worker.batch[i] in s.works
  {
    InvKeys(s);
    InvWorker(s);
    hide Inv, Lens, NoDup, Splitting.Sorted, Splitting.Survivors, Splitting.Fits;
  }

  lemma {:induction false} FilterAssigns(s: State, now: Time, r: Ref, o: Outcome)
    requires Inv(s) && Enabled(s, Filter(now))
    ensures Assigned(Perform(s, Filter(now)), r, o) <==> Assigned(s, r, o) || Causes(s, Filter(now), r, o)
  {
    hide Inv, SetPromises, Assigned;
    var w, t := s.worker, s.(clock := now);
    var q := w.batch[w.i];
    BatchPromised(s, w.i);
    MoveAssigns(s, t, r, o);
    if !Late(s, q, now) {
      MoveAssigns(s, Perform(s, Filter(now)), r, o);
    } else {
      SettleAssigns(t, Filtering(w.lane, w.batch, w.first, w.end, w.i + 1, w.active), q,
        if q in s.cancelled then Cancelled else DeadlineExceeded, r, o);
    }
  }

  lemma {:induction false} FailAssigns(s: State, r: Ref, o: Outcome)
    requires Inv(s) && Contained(s) && Enabled(s, Fail)
    ensures Assigned(Perform(s, Fail), r, o) <==> Assigned(s, r, o) || Causes(s, Fail, r, o)
  {
    hide Inv, SetPromises, Assigned;
    var w := s.worker;
    BatchPromised(s, w.i);
    SettleAssigns(s, Failing(w.lane, w.batch, w.end, w.i + 1), w.batch[w.i], Unavailable, r, o);
  }

  lemma {:induction false} ActiveInBatch(s: State)
    requires Inv(s) && (s.worker.Running? || s.worker.Collecting? || s.worker.Publishing?)
    ensures forall j :: 0 <= j < |s.worker.active| ==> s.worker.active[j] < |s.worker.batch|
    ensures s.worker.Publishing? ==> |s.worker.results| == |s.worker.active|
  {
    InvWorker(s);
    hide Inv, BatchOk, Lens;
    if s.worker.Running? { RunningRange(s.worker, s.lanes, s.works, s.stopping); }
  }

  lemma {:induction false} RunningRange(w: Worker, lanes: seq<Lane>, works: map<Ref, Work>, stopping: bool)
    requires w.Running? && WorkerFits(w, lanes, works, stopping)
    ensures forall j :: 0 <= j < |w.active| ==> w.active[j] < |w.batch|
  {
    hide BatchOk, Lens;
    BatchNoDup(lanes, works, w.lane, w.batch);
    FitsRange(Lens(w.batch, works), lanes[w.lane].budget, w.first, w.end);
  }

  lemma {:induction false} FinishAssigns(s: State, ending: Ending, now: Time, r: Ref, o: Outcome)
    requires Inv(s) && Enabled(s, FinishRun(ending, now))
    ensures Assigned(Perform(s, FinishRun(ending, now)), r, o)
      <==> Assigned(s, r, o) || Causes(s, FinishRun(ending, now), r, o)
  {
    hide Inv, Told;
    ActiveInBatch(s);
    var w, w', s' := s.worker, Finished(s.worker, ending), Perform(s, FinishRun(ending, now));
    ToldFrame(s, s', r, o);
    assert !InHand(w, r, o);
    FinishedHolds(w, ending, r, o);
    assert ending.Interrupted? && !s.stopping ==> forall x :: Runs(w, x) ==> x in s.cancelled || Due(s, x, now);
    hide Segment, InHand, Finished, Runs;
  }

  lemma {:induction false} FinishedHolds(w: Worker, ending: Ending, r: Ref, o: Outcome)
    requires w.Running? && forall j :: 0 <= j < |w.active| ==> w.active[j] < |w.batch|
    ensures InHand(Finished(w, ending), r, o)
      <==> Runs(w, r) && ((ending.Interrupted? && o == Cancelled) || (ending.Broken? && o == Faulted))
  {
    var w' := Finished(w, ending);
    if Runs(w, r) && ((ending.Interrupted? && o == Cancelled) || (ending.Broken? && o == Faulted)) {
      var j: nat :| j < |w.active| && w.active[j] < |w.batch| && w.batch[w.active[j]] == r;
      assert Reports(w', j, r, o);
    }
  }

  lemma {:induction false} CollectAssigns(s: State, now: Time, r: Ref, o: Outcome)
    requires Inv(s) && Enabled(s, Collect(now))
    ensures Assigned(Perform(s, Collect(now)), r, o) <==> Assigned(s, r, o) || Causes(s, Collect(now), r, o)
  {
    hide Inv, Told;
    ToldFrame(s, Perform(s, Collect(now)), r, o);
    var w, w', n := s.worker, Perform(s, Collect(now)).worker, |s.worker.results|;
    var q := w.batch[w.active[n]];
    assert forall j: nat :: j < n ==> (Reports(w', j, r, o) <==> Reports(w, j, r, o));
    assert Reports(w', n, r, o) <==> r == q && o == Reading(s, q, now);
    assert InHand(w', r, o) <==> InHand(w, r, o) || Reports(w', n, r, o) by {
      if j: nat :| Reports(w, j, r, o) { assert Reports(w', j, r, o); }
      if j: nat :| Reports(w', j, r, o) { assert j < n ==> Reports(w, j, r, o); }
    }
    hide InHand, Reports;
  }

  lemma {:induction false} JoinAssigns(s: State, r: Ref, o: Outcome)
    requires Inv(s) && Enabled(s, Join)
    ensures Assigned(Perform(s, Join), r, o) <==> Assigned(s, r, o)
  {
    hide Inv, Told;
    ToldFrame(s, Perform(s, Join), r, o);
    var w, w' := s.worker, Perform(s, Join).worker;
    assert forall j: nat :: Reports(w', j, r, o) <==> Reports(w, j, r, o);
  }

  lemma {:induction false} PublishAssigns(s: State, r: Ref, o: Outcome)
    requires Inv(s) && Enabled(s, Publish)
    ensures Assigned(Perform(s, Publish), r, o) <==> Assigned(s, r, o)
  {
    hide Inv, SetPromises, Told;
    var w, w', q := s.worker, Perform(s, Publish).worker, s.worker.batch[s.worker.active[s.worker.k]];
    BatchPromised(s, w.active[w.k]);
    ToldFrame(s, s.(worker := w'), r, o);
    ResolveTells(s.(worker := w'), {q}, w.results[w.k], r, o);
    assert forall j: nat :: Reports(w', j, r, o) <==> Reports(w, j, r, o);
    assert Reports(w, w.k, r, o) <==> r == q && o == w.results[w.k];
    assert InHand(w, r, o) <==> InHand(w', r, o) || Reports(w, w.k, r, o) by {
      if j: nat :| Reports(w, j, r, o) && w.k <= j { assert j > w.k ==> Reports(w', j, r, o); }
      if j: nat :| Reports(w', j, r, o) && w.k < j { assert Reports(w, j, r, o); }
    }
    hide InHand, Reports;
  }

  lemma {:induction false} EndSegmentAssigns(s: State, r: Ref, o: Outcome)
    requires Inv(s) && Enabled(s, EndSegment)
    ensures Assigned(Perform(s, EndSegment), r, o) <==> Assigned(s, r, o)
  {
    hide Inv, Told;
    ToldFrame(s, Perform(s, EndSegment), r, o);
    if s.worker.Publishing? { ActiveInBatch(s); }
  }

  lemma {:induction false} ScanAssigns(s: State, now: Time, r: Ref, o: Outcome)
    requires Inv(s) && AllMatch(s) && s.worker.Scanning? && s.worker.n < |s.lanes| && s.clock <= now
    ensures Assigned(ScanLane(s, now), r, o) <==> Assigned(s, r, o) || Causes(s, Scan(now), r, o)
  {
    hide Inv, AllMatch, ScanLane, Told, Causes;
    ScanTells(s, now, r, o);
  }

  /** What each step of the worker settles. */
  lemma {:induction false} WorkerAssigns(s: State, step: Step, r: Ref, o: Outcome)
    requires Inv(s) && AllMatch(s) && Contained(s) && Enabled(s, step) && step.OfWorker()
    ensures Assigned(Perform(s, step), r, o) <==> Assigned(s, r, o) || Causes(s, step, r, o)
  {
    hide Inv, AllMatch, ScanLane, SetPromises, Queued, Lens, Splitting.Fits, Splitting.Full, Assigned;
    match step
    case Wake => WakeAssigns(s, r, o);
    case Scan(now) => ScanAssigns(s, now, r, o);
    case Fail => FailAssigns(s, r, o);
    case Filter(now) => FilterAssigns(s, now, r, o);
    case FinishRun(ending, now) => FinishAssigns(s, ending, now, r, o);
    case Collect(now) => CollectAssigns(s, now, r, o);
    case Join => JoinAssigns(s, r, o);
    case Publish => PublishAssigns(s, r, o);
    case EndSegment => EndSegmentAssigns(s, r, o);
    case Wait => MoveAssigns(s, Perform(s, step), r, o);
    case Cut(_) => MoveAssigns(s, Perform(s, step), r, o);
    case StartRun => MoveAssigns(s, Perform(s, step), r, o);
    case EndBatch => MoveAssigns(s, Perform(s, step), r, o);
    case _ =>
  }

  // ---------------------------------------------------------------- runs

  /** Some step of the run is a cause of answering `r` with `o`. */
  ghost predicate CausedIn(s: State, steps: seq<Step>, r: Ref, o: Outcome)
    requires Possible(s, steps)
    decreases |steps|
  {
    steps != [] && (Causes(s, steps[0], r, o) || CausedIn(Perform(s, steps[0]), steps[1..], r, o))
  }

  /** What holds in every reachable state. */
  ghost predicate Settled(s: State) { Inv(s) && AllMatch(s) && Contained(s) }

  lemma {:induction false} StepSettles(s: State, step: Step)
    requires Settled(s) && Enabled(s, step)
    ensures Settled(Perform(s, step))
  {
    hide Inv, AllMatch, Contained, Enabled, Perform;
    StepKeeps(s, step);
    StepMatches(s, step);
    StepContained(s, step);
  }

  lemma {:induction false} InitSettled(s: State)
    requires Init(s) && s.healthy
    ensures Settled(s)
  {
    InitHolds(s);
    hide Inv;
  }

  /** An answer is settled exactly by its causes: nothing else settles one, and no later step
      unsettles it. */
  lemma {:induction false} RunAssigns(s: State, steps: seq<Step>, r: Ref, o: Outcome)
    requires Settled(s) && Possible(s, steps)
    ensures Settled(After(s, steps))
    ensures Assigned(After(s, steps), r, o) <==> Assigned(s, r, o) || CausedIn(s, steps, r, o)
    decreases |steps|
  {
    if steps != [] {
      assert Inv(s) && AllMatch(s) && Contained(s);
      StepSettles(s, steps[0]);
      hide Inv, AllMatch, Contained, Enabled, Perform, Causes, Assigned;
      if steps[0].OfWorker() { WorkerAssigns(s, steps[0], r, o); } else { CallerAssigns(s, steps[0], r, o); }
      hide Settled;
      RunAssigns(Perform(s, steps[0]), steps[1..], r, o);
    }
  }

  /** The answer a caller gets is the one that a step of the run caused, and what a step of the
      run causes is the answer, as soon as the worker has published what it holds. */
  lemma {:induction false} AnswersAreCaused(s: State, steps: seq<Step>, r: Ref, o: Outcome)
    requires Init(s) && s.healthy && Possible(s, steps)
    ensures
      var t := After(s, steps);
      && (r in t.promises && t.promises[r] == [o] ==> CausedIn(s, steps, r, o))
      && (CausedIn(s, steps, r, o) ==>
            r in t.promises && (t.promises[r] == [o] || (t.promises[r] == [] && InHand(t.worker, r, o))))
  {
    hide Possible, After, CausedIn, AllMatch, Contained, Inv, InHand;
    InitSettled(s);
    assert !Assigned(s, r, o) by { NothingAssigned(s, r, o); }
    hide Init;
    RunAssigns(s, steps, r, o);
    var t := After(s, steps);
    if InHand(t.worker, r, o) { HeldIsUntold(t, r, o); }
    if Told(t, r, o) { ToldOnce(t, r); }
  }

  lemma {:induction false} NothingAssigned(s: State, r: Ref, o: Outcome)
    requires Init(s)
    ensures !Assigned(s, r, o)
  {
  }

  lemma {:induction false} ToldOnce(s: State, r: Ref)
    requires Inv(s) && r in s.promises
    ensures |s.promises[r]| <= 1
  {
    hide InFlight, Queued, Budgeted, LanesOk, WorkerOk;
  }

  /** Who waits for a result the worker holds has not been told anything. */
  lemma {:induction false} HeldIsUntold(s: State, r: Ref, o: Outcome)
    requires Inv(s) && InHand(s.worker, r, o)
    ensures r in s.promises && s.promises[r] == []
  {
    var w := s.worker;
    var j: nat :| Reports(w, j, r, o) && (w.Publishing? ==> w.k <= j);
    assert w.active[j] in Positions(w);
    assert r in InFlight(w);
    hide InFlight, Queued, Budgeted, LanesOk, WorkerOk, InHand;
  }

  /** An execution answers its items one by one: whatever happens later, the item read at `now`
      is answered with its own result if it is neither cancelled nor late at that moment, and
      otherwise told which of the two. */
  lemma {:induction false} ReadingIsAnswer(s: State, now: Time, more: seq<Step>, r: Ref)
    requires Settled(s) && Possible(s, [Collect(now)] + more) && Reads(s.worker, r)
    ensures
      var t := After(s, [Collect(now)] + more);
      var o := if r in s.cancelled then Cancelled else if Due(s, r, now) then DeadlineExceeded else Served(r);
      && r in t.promises
      && (t.promises[r] == [o] || (t.promises[r] == [] && InHand(t.worker, r, o)))
      && (!t.worker.Collecting? && !t.worker.Publishing? ==> t.promises[r] == [o])
  {
    hide Possible, After, CausedIn, AllMatch, Contained, Inv, Due;
    var steps := [Collect(now)] + more;
    var t := After(s, steps);
    var o := if r in s.cancelled then Cancelled else if Due(s, r, now) then DeadlineExceeded else Served(r);
    assert steps[0] == Collect(now) && Causes(s, steps[0], r, o);
    assert CausedIn(s, steps, r, o) by { FirstCauses(s, steps, r, o); }
    RunAssigns(s, steps, r, o);
    hide Causes;
    assert !t.worker.Collecting? && !t.worker.Publishing? ==> !InHand(t.worker, r, o);
    hide InHand;
    if InHand(t.worker, r, o) { HeldIsUntold(t, r, o); }
    if Told(t, r, o) { ToldOnce(t, r); }
  }

  lemma {:induction false} FirstCauses(s: State, steps: seq<Step>, r: Ref, o: Outcome)
    requires Possible(s, steps) && steps != [] && Causes(s, steps[0], r, o)
    ensures CausedIn(s, steps, r, o)
  {
    hide Causes;
  }

  // ---------------------------------------------------------------- offers and rejections

  ghost predicate Offered(steps: seq<Step>, r: Ref) {
    exists i :: 0 <= i < |steps| && steps[i].Offer? && steps[i].r == r
  }

  lemma {:induction false} OfferedRest(steps: seq<Step>, r: Ref)
    requires steps != []
    ensures Offered(steps, r) ==> (steps[0].Offer? && steps[0].r == r) || Offered(steps[1..], r)
  {
    if i :| 0 <= i < |steps| && steps[i].Offer? && steps[i].r == r {
      assert i > 0 ==> steps[1..][i - 1] == steps[i];
    }
  }

  lemma {:induction false} StepPrepares(s: State, step: Step, r: Ref)
    requires Enabled(s, step) && r in s.works && r !in s.preparing
    ensures r in Perform(s, step).works && r !in Perform(s, step).preparing
  {
    hide SetPromises, Queued, ScanLane, EnqueueWork, Lens, Splitting.Fits, Splitting.Full;
    match step
    case Offer(q, l, at) => OfferPrepares(s, l, q, at);
    case Scan(now) => ScanPrepares(s, now);
    case _ =>
  }

  lemma {:induction false} OfferPrepares(s: State, l: nat, r: Ref, now: Time)
    requires l < |s.lanes| && r in s.works
    ensures EnqueueWork(s, l, r, now).preparing == s.preparing - {r} && EnqueueWork(s, l, r, now).works == s.works
  {
    hide ExpireLane, Verdict, Admit, SetPromises;
    ExpireShape(s.(ticket := s.ticket + 1, clock := now), l, now);
  }

  lemma {:induction false} ScanPrepares(s: State, now: Time)
    requires s.worker.Scanning? && s.lanes != []
    ensures ScanLane(s, now).preparing == s.preparing && ScanLane(s, now).works == s.works
  {
    hide SweepLane, ExpireLane, PickLane, Picked, Names;
    var l, t := LaneAt(s), s.(clock := now);
    SweepShape(t, l);
    ExpireShape(SweepLane(t, l), l, now);
    var mid := Prepared(s, l, now);
    if Names(Picked(mid.lanes[l], now)) <= mid.lanes[l].items.Keys { PickShape(mid, l, now); }
  }

  /** An item that its caller no longer prepares is neither offered nor rejected again. */
  lemma {:induction false} PreparedOnce(s: State, steps: seq<Step>, r: Ref)
    requires Possible(s, steps) && r in s.works && r !in s.preparing
    ensures !Offered(steps, r) && !CausedIn(s, steps, r, Rejected)
    decreases |steps|
  {
    if steps != [] {
      StepPrepares(s, steps[0], r);
      assert !(steps[0].Offer? && steps[0].r == r) && !Causes(s, steps[0], r, Rejected);
      hide Perform, Enabled;
      PreparedOnce(Perform(s, steps[0]), steps[1..], r);
      OfferedRest(steps, r);
    }
  }

  lemma {:induction false} RejectedOrOffered(s: State, steps: seq<Step>, r: Ref)
    requires Inv(s) && Possible(s, steps) && CausedIn(s, steps, r, Rejected)
    ensures !Offered(steps, r)
    decreases |steps|
  {
    StepKeeps(s, steps[0]);
    if steps[0].Offer? && steps[0].r == r {
      OfferPrepares(s, steps[0].l, r, steps[0].at);
      PreparedOnce(Perform(s, steps[0]), steps[1..], r);
      assert false;
    } else if Causes(s, steps[0], r, Rejected) {
      CoreKeys(s);
      PreparedOnce(Perform(s, steps[0]), steps[1..], r);
    } else {
      hide Inv, Perform, Enabled;
      RejectedOrOffered(Perform(s, steps[0]), steps[1..], r);
    }
    OfferedRest(steps, r);
  }

  /** An item told that its text was rejected has never been offered to a queue. */
  lemma {:induction false} RejectedWasNeverOffered(s: State, steps: seq<Step>, r: Ref)
    requires Init(s) && s.healthy && Possible(s, steps)
    requires r in After(s, steps).promises && After(s, steps).promises[r] == [Rejected]
    ensures !Offered(steps, r)
  {
    AnswersAreCaused(s, steps, r, Rejected);
    InitHolds(s);
    hide Init, After, Inv, CausedIn, Possible;
    RejectedOrOffered(s, steps, r);
  }

  // ---------------------------------------------------------------- deserved answers

  /** What an answer says about the state it is read in. */
  ghost predicate Deserves(s: State, r: Ref, o: Outcome) {
    match o
    case Served(x) => x == r
    case DeadlineExceeded => Due(s, r, s.clock)
    case Cancelled => r in s.cancelled || s.stopping || Due(s, r, s.clock)
    case Unavailable => !s.healthy
    case Faulted => !s.healthy
    case _ => true
  }

  ghost predicate Deserved(s: State) {
    forall r, k :: r in s.promises && 0 <= k < |s.promises[r]| ==> Deserves(s, r, s.promises[r][k])
  }

  /** Nothing that justified an answer is taken back. */
  ghost predicate Later(s: State, s': State) {
    && (forall r :: r in s.works ==> r in s'.works && s'.works[r] == s.works[r])
    && s.clock <= s'.clock && s.cancelled <= s'.cancelled && (s.stopping ==> s'.stopping)
    && (!s.healthy ==> !s'.healthy)
  }

  lemma {:induction false} OfferLater(s: State, l: nat, r: Ref, now: Time)
    requires l < |s.lanes| && r in s.works && s.clock <= now
    ensures Later(s, EnqueueWork(s, l, r, now))
    ensures Fits(s, r) ==> EnqueueWork(s, l, r, now).clock == now
  {
    hide ExpireLane, Verdict, SetPromises, Admit;
    ExpireShape(s.(ticket := s.ticket + 1, clock := now), l, now);
  }

  lemma {:induction false} ScanLater(s: State, now: Time)
    requires Inv(s) && s.worker.Scanning? && s.lanes != [] && s.clock <= now
    ensures Later(s, ScanLane(s, now)) && ScanLane(s, now).clock == now
  {
    hide Inv, Core, ScanLane, Prepared, PickLane, Picked, Names;
    PreparedKeeps(s, LaneAt(s), now);
    ScanPicks(s, now);
    PickShape(Prepared(s, LaneAt(s), now), LaneAt(s), now);
  }

  lemma {:induction false} StepIsLater(s: State, step: Step)
    requires Inv(s) && Enabled(s, step)
    ensures Later(s, Perform(s, step))
    ensures step.Collect? || step.Filter? || step.Scan? || step.FinishRun? ==> Perform(s, step).clock == step.now
    ensures step.Offer? && Fits(s, step.r) ==> Perform(s, step).clock == step.at
    ensures step.FinishRun? && step.ending.Broken? ==> !Perform(s, step).healthy
  {
    hide Inv, SetPromises, Queued, ScanLane, EnqueueWork, Lens, Splitting.Fits, Splitting.Full, Finished, Segment;
    match step
    case Offer(q, l, at) => OfferLater(s, l, q, at);
    case Scan(now) => ScanLater(s, now);
    case _ =>
  }

  /** What a step causes is deserved when it is done. */
  lemma {:induction false} CauseIsDeserved(s: State, step: Step, r: Ref, o: Outcome)
    requires Inv(s) && Enabled(s, step)
    ensures Later(s, Perform(s, step))
    ensures Causes(s, step, r, o) ==> Deserves(Perform(s, step), r, o)
  {
    hide Inv, Enabled, Perform, Full, QueuedIn, Reads, Looks, Refuses, Scanned, Segment;
    StepIsLater(s, step);
  }

  lemma {:induction false} DeservesLater(s: State, s': State, r: Ref, o: Outcome)
    requires Later(s, s') && Deserves(s, r, o)
    ensures Deserves(s', r, o)
  {
  }

  lemma {:induction false} RunDeserves(s: State, steps: seq<Step>, r: Ref, o: Outcome)
    requires Inv(s) && Possible(s, steps) && (Deserves(s, r, o) || CausedIn(s, steps, r, o))
    ensures Deserves(After(s, steps), r, o)
    decreases |steps|
  {
    if steps != [] {
      StepKeeps(s, steps[0]);
      CauseIsDeserved(s, steps[0], r, o);
      hide Inv, Perform, Enabled, Causes;
      if Deserves(s, r, o) { DeservesLater(s, Perform(s, steps[0]), r, o); }
      hide Deserves, Later;
      RunDeserves(Perform(s, steps[0]), steps[1..], r, o);
    }
  }

  /** In every reachable state every answer given is deserved, and every queue entry describes
      the work item its ticket stands for. */
  lemma {:induction false} AnswersAreDeserved(s: State, steps: seq<Step>)
    requires Init(s) && s.healthy && Possible(s, steps)
    ensures Deserved(After(s, steps)) && AllMatch(After(s, steps))
  {
    hide Possible, After, CausedIn, AllMatch, Contained, Deserves, Inv, InHand;
    InitSettled(s);
    var t := After(s, steps);
    RunAssigns(s, steps, 0, Rejected);
    forall r, k | r in t.promises && 0 <= k < |t.promises[r]| ensures Deserves(t, r, t.promises[r][k]) {
      AnswerIsDeserved(s, steps, r, k);
    }
  }

  lemma {:induction false} AnswerIsDeserved(s: State, steps: seq<Step>, r: Ref, k: nat)
    requires Init(s) && s.healthy && Possible(s, steps)
    requires r in After(s, steps).promises && k < |After(s, steps).promises[r]|
    ensures Deserves(After(s, steps), r, After(s, steps).promises[r][k])
  {
    hide Possible, After, CausedIn, AllMatch, Contained, Deserves, Inv, InHand, Init;
    var t := After(s, steps);
    InitSettled(s);
    RunAssigns(s, steps, r, Rejected);
    ToldOnce(t, r);
    assert t.promises[r] == [t.promises[r][k]];
    AnswersAreCaused(s, steps, r, t.promises[r][k]);
    RunDeserves(s, steps, r, t.promises[r][k]);
  }
}
