/** The inference service as a state machine: many RPC threads, one compute worker.

    Each step is one critical section or one access to shared state outside the mutex, so a run
    is an arbitrary interleaving of submissions, caller cancellations, shutdown and the worker.
    The worker holds the mutex while it scans the lanes.  Every work item has a promise; a
    promise that is set twice throws, and one that is never set leaves its caller waiting. */
module Service {
  import opened Scheduling
  import Splitting
  import Decimals

  const QUEUE_BYTES: nat := 64 * 1024 * 1024

  /** A work item: what Encode produced for one row, and the caller's deadline. */
  datatype Work = Work(ids: nat, types: nat, kind: WorkClass, deadline: Time) {
    function Bytes(): nat { (ids + types) * 8 }
  }

  type Ref = nat

  /** An answer; a result names the item whose input it was computed from. */
  datatype Outcome = Served(of: Ref) | DeadlineExceeded | Exhausted | Cancelled | Unavailable | Rejected | Faulted

  /** One model session with its scheduler and the items it has queued, by ticket. */
  datatype Lane = Lane(maxTokens: nat, budget: nat, queues: Queues, items: map<string, Ref>) {
    function Limits(): SchedulerLimits { SchedulerLimits(32, budget, 128, 256, 2_000_000, 8) }

    function Refs(): set<Ref> { items.Values }

    /** What the model's construction guarantees of its limits. */
    predicate Loaded() { 0 < maxTokens <= 8192 && maxTokens <= budget <= 131072 }
  }

  /** Where the worker is.  A batch is kept in sorted order; `active` lists positions in it. */
  datatype Worker =
    | Idle
    | Scanning(n: nat)
    | Cutting(lane: nat, batch: seq<Ref>, first: nat)
    | Filtering(lane: nat, batch: seq<Ref>, first: nat, end: nat, i: nat, active: seq<nat>)
    | Failing(lane: nat, batch: seq<Ref>, end: nat, i: nat)
    | Running(lane: nat, batch: seq<Ref>, first: nat, end: nat, active: seq<nat>)
    | Collecting(lane: nat, batch: seq<Ref>, end: nat, active: seq<nat>, results: seq<Outcome>)
    | Publishing(lane: nat, batch: seq<Ref>, end: nat, active: seq<nat>, k: nat, results: seq<Outcome>)
    | Exited

  datatype State = State(
    lanes: seq<Lane>,
    works: map<Ref, Work>,
    promises: map<Ref, seq<Outcome>>,
    preparing: set<Ref>,
    cancelled: set<Ref>,
    pendingBytes: int,
    ticket: nat,
    rotation: nat,
    stopping: bool,
    healthy: bool,
    worker: Worker,
    clock: Time,
    crashed: bool)

  // ---------------------------------------------------------------- promises

  function SetPromises(promises: map<Ref, seq<Outcome>>, refs: set<Ref>, outcome: Outcome): map<Ref, seq<Outcome>> {
    map r | r in promises :: if r in refs then promises[r] + [outcome] else promises[r]
  }

  /** Sets one promise of each of these work items. */
  function Resolve(s: State, refs: set<Ref>, outcome: Outcome): State {
    s.(promises := SetPromises(s.promises, refs, outcome))
  }

  // ---------------------------------------------------------------- accounting

  ghost function Sum(refs: set<Ref>, works: map<Ref, Work>): nat {
    if refs == {} then 0
    else
      var r :| r in refs;
      (if r in works then works[r].Bytes() else 0) + Sum(refs - {r}, works)
  }

  lemma {:induction false} SumRemove(refs: set<Ref>, works: map<Ref, Work>, r: Ref)
    requires r in refs
    ensures Sum(refs, works) == (if r in works then works[r].Bytes() else 0) + Sum(refs - {r}, works)
  {
    var p :| p in refs
      && Sum(refs, works) == (if p in works then works[p].Bytes() else 0) + Sum(refs - {p}, works);
    if p != r {
      SumRemove(refs - {p}, works, r);
      SumRemove(refs - {r}, works, p);
      assert refs - {p} - {r} == refs - {r} - {p};
    }
  }

  lemma {:induction false} SumMinus(refs: set<Ref>, gone: set<Ref>, works: map<Ref, Work>)
    requires gone <= refs
    ensures Sum(refs - gone, works) == Sum(refs, works) - Sum(gone, works)
  {
    if gone == {} {
      assert refs - gone == refs;
    } else {
      var r :| r in gone;
      SumMinus(refs - {r}, gone - {r}, works);
      SumRemove(refs, works, r);
      SumRemove(gone, works, r);
      assert refs - {r} - (gone - {r}) == refs - gone;
    }
  }

  lemma {:induction false} SumFrame(refs: set<Ref>, works: map<Ref, Work>, r: Ref, w: Work)
    requires r !in refs
    ensures Sum(refs, works[r := w]) == Sum(refs, works)
  {
    if refs != {} {
      var p :| p in refs;
      SumFrame(refs - {p}, works, r, w);
      SumRemove(refs, works, p);
      SumRemove(refs, works[r := w], p);
    }
  }

  /** Everything queued in some lane. */
  function Queued(lanes: seq<Lane>): set<Ref> {
    if lanes == [] then {} else lanes[0].Refs() + Queued(lanes[1..])
  }

  lemma {:induction false} QueuedOf(lanes: seq<Lane>, l: nat)
    requires l < |lanes|
    ensures lanes[l].Refs() <= Queued(lanes)
  {
    if l > 0 {
      QueuedOf(lanes[1..], l - 1);
    }
  }

  ghost predicate Disjoint(lanes: seq<Lane>) {
    forall a, b :: 0 <= a < b < |lanes| ==> lanes[a].Refs() !! lanes[b].Refs()
  }

  lemma {:induction false} QueuedApart(lanes: seq<Lane>, refs: set<Ref>)
    requires forall a :: 0 <= a < |lanes| ==> refs !! lanes[a].Refs()
    ensures refs !! Queued(lanes)
  {
    if lanes != [] {
      QueuedApart(lanes[1..], refs);
    }
  }

  /** Replacing a lane by one that has given up some of its items. */
  lemma {:induction false} QueuedShrinks(lanes: seq<Lane>, l: nat, lane: Lane, gone: set<Ref>)
    requires l < |lanes| && Disjoint(lanes)
    requires lane.Refs() == lanes[l].Refs() - gone && gone <= lanes[l].Refs()
    ensures Queued(lanes[l := lane]) == Queued(lanes) - gone
    ensures Disjoint(lanes[l := lane])
  {
    var lanes' := lanes[l := lane];
    if l == 0 {
      QueuedApart(lanes[1..], gone);
      assert lanes'[1..] == lanes[1..];
    } else {
      assert lanes[0].Refs() !! lanes[l].Refs();
      QueuedShrinks(lanes[1..], l - 1, lane, gone);
      assert lanes'[1..] == lanes[1..][l - 1 := lane];
    }
  }

  /** Replacing a lane by one that has one more item. */
  lemma {:induction false} QueuedGrows(lanes: seq<Lane>, l: nat, lane: Lane, r: Ref)
    requires l < |lanes| && Disjoint(lanes) && r !in Queued(lanes)
    requires lane.Refs() == lanes[l].Refs() + {r}
    ensures Queued(lanes[l := lane]) == Queued(lanes) + {r}
    ensures Disjoint(lanes[l := lane])
  {
    var lanes' := lanes[l := lane];
    forall a, b | 0 <= a < b < |lanes'| ensures lanes'[a].Refs() !! lanes'[b].Refs() {
      QueuedOf(lanes, a);
      QueuedOf(lanes, b);
    }
    if l == 0 {
      assert lanes'[1..] == lanes[1..];
    } else {
      QueuedGrows(lanes[1..], l - 1, lane, r);
      assert lanes'[1..] == lanes[1..][l - 1 := lane];
    }
  }

  // ---------------------------------------------------------------- names

  function Names(q: seq<PendingItem>): set<string> {
    set i | 0 <= i < |q| :: q[i].item.itemId
  }

  function AllNames(s: Queues): set<string> { Names(s.query) + Names(s.bulk) }

  function Unnamed(gone: set<string>): PendingItem -> bool { (p: PendingItem) => p.item.itemId !in gone }

  lemma {:induction false} NamesCons(p: PendingItem, q: seq<PendingItem>)
    ensures Names([p] + q) == {p.item.itemId} + Names(q)
  {
    var all := [p] + q;
    assert all[0] == p;
    forall i | 0 <= i < |q| ensures q[i].item.itemId in Names(all) { assert all[i + 1] == q[i]; }
  }

  lemma {:induction false} UnnamedNames(q: seq<PendingItem>, gone: set<string>)
    ensures Names(Keep(q, Unnamed(gone))) == Names(q) - gone
  {
    if q != [] {
      UnnamedNames(q[1..], gone);
      assert q == [q[0]] + q[1..];
      NamesCons(q[0], q[1..]);
      NamesCons(q[0], Keep(q[1..], Unnamed(gone)));
    }
  }

  /** Two complementary filters split the names of a queue with distinct identities. */
  lemma {:induction false} SplitNames(q: seq<PendingItem>, f: PendingItem -> bool, g: PendingItem -> bool)
    requires Pairwise(q, OtherId()) && forall p :: f(p) <==> !g(p)
    ensures Names(Keep(q, f)) == Names(q) - Names(Keep(q, g))
    ensures Names(Keep(q, g)) <= Names(q)
  {
    if q != [] {
      var rest := q[1..];
      SplitNames(rest, f, g);
      assert q == [q[0]] + rest;
      NamesCons(q[0], rest);
      NamesCons(q[0], Keep(rest, f));
      NamesCons(q[0], Keep(rest, g));
      forall i | 0 <= i < |rest| ensures rest[i].item.itemId != q[0].item.itemId {
        assert OtherId()(q[0], q[i + 1]);
      }
      assert q[0].item.itemId !in Names(rest);
    }
  }

  lemma {:induction false} PrefixNames(q: seq<PendingItem>, n: nat)
    requires n <= |q| && Pairwise(q, OtherId())
    ensures Names(q[n..]) == Names(q) - Names(q[..n])
    ensures Names(q[..n]) <= Names(q)
  {
    var a, b := q[..n], q[n..];
    forall i, j | 0 <= i < n && n <= j < |q| ensures q[i].item.itemId != q[j].item.itemId {
      assert OtherId()(q[i], q[j]);
    }
    forall x | x in Names(q) ensures x in Names(a) || x in Names(b) {
      var i :| 0 <= i < |q| && q[i].item.itemId == x;
      if i < n { assert a[i] == q[i]; } else { assert b[i - n] == q[i]; }
    }
    assert forall i :: 0 <= i < |b| ==> b[i] == q[n + i];
  }

  lemma {:induction false} ApartNames(s: Queues)
    requires Apart(s.query, s.bulk)
    ensures Names(s.query) !! Names(s.bulk)
  {
  }

  // ---------------------------------------------------------------- lanes

  ghost predicate Injective(items: map<string, Ref>) {
    forall t, u :: t in items && u in items && t != u ==> items[t] != items[u]
  }

  ghost predicate Issued(items: map<string, Ref>, ticket: nat) {
    forall t :: t in items ==> exists k: nat :: 0 < k <= ticket && t == Decimals.Decimal(k)
  }

  ghost predicate Tokenized(items: map<string, Ref>, works: map<Ref, Work>, maxTokens: nat) {
    forall t :: t in items ==> items[t] in works && 0 < works[items[t]].ids <= maxTokens
  }

  /** A lane in step with its scheduler: the item map has exactly the scheduler's pending
      tickets, each ticket its own work item. */
  ghost predicate LaneOk(lane: Lane, works: map<Ref, Work>, clock: Time, ticket: nat) {
    && lane.Loaded()
    && Sound(lane.Limits(), lane.queues)
    && Clocked(lane.queues, clock)
    && lane.items.Keys == AllNames(lane.queues)
    && Injective(lane.items)
    && Issued(lane.items, ticket)
    && Tokenized(lane.items, works, lane.maxTokens)
  }

  /** The work items behind some of a lane's tickets. */
  function Behind(lane: Lane, tickets: set<string>): set<Ref> {
    set t | t in tickets && t in lane.items :: lane.items[t]
  }

  function Shrunk(lane: Lane, queues: Queues, gone: set<string>): Lane {
    lane.(queues := queues, items := lane.items - gone)
  }

  lemma {:induction false} ShrunkRefs(lane: Lane, queues: Queues, gone: set<string>)
    requires Injective(lane.items)
    ensures Behind(lane, gone) <= lane.Refs()
    ensures Shrunk(lane, queues, gone).Refs() == lane.Refs() - Behind(lane, gone)
  {
    var items' := lane.items - gone;
    forall r | r in lane.Refs() && r !in Behind(lane, gone) ensures r in items'.Values {
      var t :| t in lane.items && lane.items[t] == r;
      assert t in items' && items'[t] == r;
    }
    forall r | r in items'.Values ensures r in lane.Refs() && r !in Behind(lane, gone) {
      var t :| t in items' && items'[t] == r;
      assert t in lane.items && lane.items[t] == r;
    }
  }

  lemma {:induction false} ShrunkOk(
      lane: Lane, works: map<Ref, Work>, clock: Time, ticket: nat, queues: Queues, gone: set<string>, later: Time)
    requires LaneOk(lane, works, clock, ticket)
    requires Sound(lane.Limits(), queues) && Clocked(queues, later)
    requires AllNames(queues) == AllNames(lane.queues) - gone
    ensures LaneOk(Shrunk(lane, queues, gone), works, later, ticket)
  {
    hide Sound, Clocked, AllNames;
    var items' := lane.items - gone;
    assert items'.Keys == lane.items.Keys - gone;
    assert Issued(items', ticket) by {
      forall t | t in items' ensures exists k: nat :: 0 < k <= ticket && t == Decimals.Decimal(k) {
        assert t in lane.items;
      }
    }
  }

  lemma {:induction false} OrderedLater(q: seq<PendingItem>, clock: Time, later: Time)
    requires Ordered(q, clock) && clock <= later
    ensures Ordered(q, later)
  {
  }

  lemma {:induction false} LaneLater(
      lane: Lane, works: map<Ref, Work>, clock: Time, ticket: nat, later: Time, more: nat)
    requires LaneOk(lane, works, clock, ticket) && clock <= later && ticket <= more
    ensures LaneOk(lane, works, later, more)
  {
    OrderedLater(lane.queues.query, clock, later);
    OrderedLater(lane.queues.bulk, clock, later);
    hide Sound, Ordered;
    assert Issued(lane.items, more) by {
      forall t | t in lane.items ensures exists k: nat :: 0 < k <= more && t == Decimals.Decimal(k) {
        var k: nat :| 0 < k <= ticket && t == Decimals.Decimal(k);
      }
    }
  }

  // ---------------------------------------------------------------- the worker's items

  ghost predicate NoDup(batch: seq<Ref>) {
    forall i, j :: 0 <= i < j < |batch| ==> batch[i] != batch[j]
  }

  ghost function Span(a: nat, b: nat): set<nat> { Splitting.Below(b) - Splitting.Below(a) }

  ghost function Entries(active: seq<nat>, k: nat): set<nat> { set j | k <= j < |active| :: active[j] }

  /** The positions of its batch the worker has not resolved yet. */
  ghost function Positions(w: Worker): set<nat> {
    match w
    case Cutting(_, batch, first) => Span(first, |batch|)
    case Filtering(_, batch, _, _, i, active) => Entries(active, 0) + Span(i, |batch|)
    case Failing(_, batch, _, i) => Span(i, |batch|)
    case Running(_, batch, _, end, active) => Entries(active, 0) + Span(end, |batch|)
    case Collecting(_, batch, end, active, _) => Entries(active, 0) + Span(end, |batch|)
    case Publishing(_, batch, end, active, k, _) => Entries(active, k) + Span(end, |batch|)
    case _ => {}
  }

  ghost function BatchOf(w: Worker): seq<Ref> {
    match w
    case Cutting(_, batch, _) => batch
    case Filtering(_, batch, _, _, _, _) => batch
    case Failing(_, batch, _, _) => batch
    case Running(_, batch, _, _, _) => batch
    case Collecting(_, batch, _, _, _) => batch
    case Publishing(_, batch, _, _, _, _) => batch
    case _ => []
  }

  ghost function At(batch: seq<Ref>, positions: set<nat>): set<Ref> {
    set p | p in positions && p < |batch| :: batch[p]
  }

  /** The work items in the worker's hands. */
  ghost function InFlight(w: Worker): set<Ref> { At(BatchOf(w), Positions(w)) }

  lemma {:induction false} AtMinus(batch: seq<Ref>, positions: set<nat>, p: nat)
    requires NoDup(batch) && p in positions && p < |batch|
    ensures At(batch, positions - {p}) == At(batch, positions) - {batch[p]}
    ensures batch[p] in At(batch, positions)
  {
  }

  // ---------------------------------------------------------------- accounts

  /** Who still owes a promise: the callers that prepare an item, the queues until the worker
      has left, the worker, and `extra`, items in transit inside a step. */
  ghost function Unresolved(s: State, extra: set<Ref>): set<Ref> {
    s.preparing + InFlight(s.worker) + extra + (if s.worker.Exited? then {} else Queued(s.lanes))
  }

  /** Every work item is in one place, and its promise is set once it is in none. */
  ghost predicate Promised(s: State, extra: set<Ref>) {
    && s.promises.Keys == s.works.Keys
    && s.preparing + InFlight(s.worker) + extra + Queued(s.lanes) <= s.works.Keys
    && s.preparing !! InFlight(s.worker) !! extra !! Queued(s.lanes)
    && forall r :: r in s.works ==> |s.promises[r]| == if r in Unresolved(s, extra) then 0 else 1
  }

  ghost predicate Budgeted(s: State) {
    && Disjoint(s.lanes)
    && s.pendingBytes == Sum(Queued(s.lanes), s.works)
    && s.pendingBytes <= QUEUE_BYTES
  }

  ghost predicate LanesOk(s: State) {
    forall l :: 0 <= l < |s.lanes| ==> LaneOk(s.lanes[l], s.works, s.clock, s.ticket)
  }

  /** Setting the promises of the items in transit settles them. */
  lemma {:induction false} ResolveExtra(s: State, extra: set<Ref>, outcome: Outcome)
    requires Promised(s, extra)
    ensures Promised(Resolve(s, extra, outcome), {})
  {
    var s' := Resolve(s, extra, outcome);
    assert InFlight(s'.worker) == InFlight(s.worker) && Queued(s'.lanes) == Queued(s.lanes);
    hide InFlight, Queued;
    forall r | r in s.works ensures |s'.promises[r]| == if r in Unresolved(s', {}) then 0 else 1 {
      assert r in Unresolved(s', {}) <==> r in Unresolved(s, extra) && r !in extra;
    }
  }

  /** The worker hands items over. */
  lemma {:induction false} Release(s: State, w: Worker, extra: set<Ref>)
    requires Promised(s, {}) && !s.worker.Exited? && !w.Exited?
    requires InFlight(w) == InFlight(s.worker) - extra && extra <= InFlight(s.worker)
    ensures Promised(s.(worker := w), extra)
  {
    hide InFlight, Queued;
    var s' := s.(worker := w);
    assert forall r :: r in Unresolved(s', extra) <==> r in Unresolved(s, {});
  }

  /** The worker takes items in transit. */
  lemma {:induction false} Receive(s: State, w: Worker, extra: set<Ref>)
    requires Promised(s, extra) && !s.worker.Exited? && !w.Exited?
    requires InFlight(s.worker) == {} && InFlight(w) == extra
    ensures Promised(s.(worker := w), {})
  {
    hide InFlight, Queued;
    var s' := s.(worker := w);
    assert forall r :: r in Unresolved(s', {}) <==> r in Unresolved(s, extra);
  }

  // ---------------------------------------------------------------- taking items out of a lane

  /** The lane gives up some tickets; their bytes are no longer pending. */
  ghost function GiveUp(s: State, l: nat, queues: Queues, gone: set<string>): State
    requires l < |s.lanes|
  {
    s.(lanes := s.lanes[l := Shrunk(s.lanes[l], queues, gone)],
       pendingBytes := s.pendingBytes - Sum(Behind(s.lanes[l], gone), s.works))
  }

  lemma {:induction false} GiveUpAccounts(s: State, l: nat, queues: Queues, gone: set<string>)
    requires l < |s.lanes| && Promised(s, {}) && Budgeted(s) && !s.worker.Exited?
    requires Injective(s.lanes[l].items)
    ensures Promised(GiveUp(s, l, queues, gone), Behind(s.lanes[l], gone))
    ensures Budgeted(GiveUp(s, l, queues, gone))
  {
    var lane, s' := s.lanes[l], GiveUp(s, l, queues, gone);
    var taken := Behind(lane, gone);
    ShrunkRefs(lane, queues, gone);
    QueuedOf(s.lanes, l);
    QueuedShrinks(s.lanes, l, Shrunk(lane, queues, gone), taken);
    SumMinus(Queued(s.lanes), taken, s.works);
    hide Queued, InFlight, Sum, Disjoint, Behind, Shrunk;
    GiveUpPromised(s, s', taken);
  }

  lemma {:induction false} GiveUpPromised(s: State, s': State, taken: set<Ref>)
    requires Promised(s, {}) && !s.worker.Exited? && taken <= Queued(s.lanes)
    requires s' == s.(lanes := s'.lanes, pendingBytes := s'.pendingBytes) && Queued(s'.lanes) == Queued(s.lanes) - taken
    ensures Promised(s', taken)
  {
    hide Queued, InFlight;
    assert forall r :: r in Unresolved(s', taken) <==> r in Unresolved(s, {});
  }

  lemma {:induction false} GiveUpLanes(s: State, l: nat, queues: Queues, gone: set<string>)
    requires l < |s.lanes| && LanesOk(s)
    requires Sound(s.lanes[l].Limits(), queues) && Clocked(queues, s.clock)
    requires AllNames(queues) == AllNames(s.lanes[l].queues) - gone
    ensures LanesOk(GiveUp(s, l, queues, gone))
  {
    ShrunkOk(s.lanes[l], s.works, s.clock, s.ticket, queues, gone, s.clock);
    hide LaneOk;
  }

  // ---------------------------------------------------------------- what the worker holds

  ghost function Lens(batch: seq<Ref>, works: map<Ref, Work>): (r: seq<nat>)
    ensures |r| == |batch|
    ensures forall i :: 0 <= i < |batch| && batch[i] in works ==> r[i] == works[batch[i]].ids
  {
    seq(|batch|, i requires 0 <= i < |batch| => if batch[i] in works then works[batch[i]].ids else 0)
  }

  /** A batch as the worker keeps it: distinct items of one model, sorted by length. */
  ghost predicate BatchOk(lanes: seq<Lane>, works: map<Ref, Work>, l: nat, batch: seq<Ref>) {
    && l < |lanes|
    && 0 < |batch| <= 32
    && NoDup(batch)
    && (forall i :: 0 <= i < |batch| ==> batch[i] in works && 0 < works[batch[i]].ids <= lanes[l].maxTokens)
    && Splitting.Sorted(Lens(batch, works))
  }

  ghost predicate WorkerFits(w: Worker, lanes: seq<Lane>, works: map<Ref, Work>, stopping: bool) {
    match w
    case Idle => true
    case Exited => stopping
    case Scanning(n) => n <= |lanes|
    case Cutting(l, batch, first) => BatchOk(lanes, works, l, batch) && first <= |batch|
    case Filtering(l, batch, first, end, i, active) =>
      && BatchOk(lanes, works, l, batch)
      && Splitting.Fits(Lens(batch, works), lanes[l].budget, first, end)
      && first <= i <= end && Splitting.Survivors(active, first, i)
    case Failing(l, batch, end, i) => BatchOk(lanes, works, l, batch) && i <= end <= |batch|
    case Running(l, batch, first, end, active) =>
      && BatchOk(lanes, works, l, batch)
      && Splitting.Fits(Lens(batch, works), lanes[l].budget, first, end)
      && Splitting.Survivors(active, first, end) && active != []
    case Collecting(l, batch, end, active, results) =>
      && BatchOk(lanes, works, l, batch) && end <= |batch|
      && Splitting.Survivors(active, 0, end) && |results| <= |active|
    case Publishing(l, batch, end, active, k, results) =>
      && BatchOk(lanes, works, l, batch) && end <= |batch|
      && Splitting.Survivors(active, 0, end) && k <= |active| == |results|
  }

  ghost predicate WorkerOk(s: State) { WorkerFits(s.worker, s.lanes, s.works, s.stopping) }

  /** What holds in every reachable state. */
  ghost predicate Inv(s: State) {
    && !s.crashed && s.lanes != [] && s.rotation < |s.lanes|
    && Promised(s, {}) && Budgeted(s) && LanesOk(s) && WorkerOk(s)
  }

  ghost predicate Core(s: State) { Promised(s, {}) && Budgeted(s) && LanesOk(s) }

  // ---------------------------------------------------------------- lane operations

  /** A lane operation that takes tickets out and answers them at once. */
  ghost function Answer(s: State, l: nat, queues: Queues, gone: set<string>, outcome: Outcome): State
    requires l < |s.lanes|
  {
    Resolve(GiveUp(s, l, queues, gone), Behind(s.lanes[l], gone), outcome)
  }

  lemma {:induction false} AnswerKeeps(s: State, l: nat, queues: Queues, gone: set<string>, outcome: Outcome)
    requires l < |s.lanes| && Core(s) && !s.worker.Exited?
    requires Sound(s.lanes[l].Limits(), queues) && Clocked(queues, s.clock)
    requires AllNames(queues) == AllNames(s.lanes[l].queues) - gone
    ensures Core(Answer(s, l, queues, gone, outcome))
  {
    GiveUpLanes(s, l, queues, gone);
    assert LaneOk(s.lanes[l], s.works, s.clock, s.ticket);
    GiveUpAccounts(s, l, queues, gone);
    hide Promised, Budgeted, LaneOk, Behind;
    ResolveExtra(GiveUp(s, l, queues, gone), Behind(s.lanes[l], gone), outcome);
    assert Budgeted(Answer(s, l, queues, gone, outcome)) by {
      BudgetedFrame(GiveUp(s, l, queues, gone), Answer(s, l, queues, gone, outcome));
    }
  }

  lemma {:induction false} BudgetedFrame(s: State, s': State)
    requires Budgeted(s) && s'.lanes == s.lanes && s'.works == s.works && s'.pendingBytes == s.pendingBytes
    ensures Budgeted(s')
  {
  }

  function GoneNames(q: Queues, now: Time): set<string> {
    Names(Gone(q.query, now)) + Names(Gone(q.bulk, now))
  }

  /** Impl::Expire on what the scheduler reports as expired. */
  ghost function ExpireLane(s: State, l: nat, now: Time): State
    requires l < |s.lanes|
  {
    Answer(s, l, ExpireQueues(s.lanes[l].queues, now), GoneNames(s.lanes[l].queues, now), DeadlineExceeded)
  }

  lemma {:induction false} ExpireNames(limits: SchedulerLimits, q: Queues, now: Time)
    requires Sound(limits, q)
    ensures AllNames(ExpireQueues(q, now)) == AllNames(q) - GoneNames(q, now)
  {
    SplitNames(q.query, Unexpired(now), Overdue(now));
    SplitNames(q.bulk, Unexpired(now), Overdue(now));
    ApartNames(q);
    hide Names, Keep, Sound;
  }

  lemma {:induction false} ExpireLaneKeeps(s: State, l: nat, now: Time)
    requires l < |s.lanes| && Core(s) && !s.worker.Exited?
    ensures Core(ExpireLane(s, l, now))
  {
    var lane := s.lanes[l];
    assert LaneOk(lane, s.works, s.clock, s.ticket);
    ExpireNames(lane.Limits(), lane.queues, now);
    FilterKeeps(lane.Limits(), lane.queues, Unexpired(now));
    FilterKeepsClock(lane.queues, Unexpired(now), s.clock, s.clock);
    hide LaneOk, Core, Sound, Clocked, AllNames, Keep;
    AnswerKeeps(s, l, ExpireQueues(lane.queues, now), GoneNames(lane.queues, now), DeadlineExceeded);
  }

  /** The tickets of a lane whose caller has cancelled. */
  function CancelledTickets(lane: Lane, cancelled: set<Ref>): set<string> {
    set t | t in lane.items && lane.items[t] in cancelled
  }

  function Sweep(q: Queues, gone: set<string>): Queues {
    Queues(Keep(q.query, Unnamed(gone)), Keep(q.bulk, Unnamed(gone)), q.streak)
  }

  /** The worker removes cancelled items before batching. */
  ghost function SweepLane(s: State, l: nat): State
    requires l < |s.lanes|
  {
    var gone := CancelledTickets(s.lanes[l], s.cancelled);
    Answer(s, l, Sweep(s.lanes[l].queues, gone), gone, Cancelled)
  }

  /** Removing several tickets one Cancel after another, in any order, is one sweep. */
  lemma {:induction false} SweepIsCancels(q: Queues, id: string, gone: set<string>)
    ensures Sweep(CancelQueues(q, id), gone) == Sweep(q, gone + {id})
    ensures Sweep(q, {}) == q
  {
    KeepTwice(q.query, id, gone);
    KeepTwice(q.bulk, id, gone);
    KeepAll(q.query, Unnamed({}));
    KeepAll(q.bulk, Unnamed({}));
  }

  lemma {:induction false} KeepTwice(q: seq<PendingItem>, id: string, gone: set<string>)
    ensures Keep(Keep(q, NotNamed(id)), Unnamed(gone)) == Keep(q, Unnamed(gone + {id}))
  {
    if q != [] {
      KeepTwice(q[1..], id, gone);
      if q[0].item.itemId != id {
        assert Keep(q, NotNamed(id))[1..] == Keep(q[1..], NotNamed(id));
      }
    }
  }

  lemma {:induction false} SweepLaneKeeps(s: State, l: nat)
    requires l < |s.lanes| && Core(s) && !s.worker.Exited?
    ensures Core(SweepLane(s, l))
  {
    var lane := s.lanes[l];
    var gone := CancelledTickets(lane, s.cancelled);
    assert LaneOk(lane, s.works, s.clock, s.ticket);
    UnnamedNames(lane.queues.query, gone);
    UnnamedNames(lane.queues.bulk, gone);
    FilterKeeps(lane.Limits(), lane.queues, Unnamed(gone));
    FilterKeepsClock(lane.queues, Unnamed(gone), s.clock, s.clock);
    hide LaneOk, Core, Sound, Clocked, Names, Keep;
    AnswerKeeps(s, l, Sweep(lane.queues, gone), gone, Cancelled);
  }

  // ---------------------------------------------------------------- sorting a batch

  ghost function Length(r: Ref, works: map<Ref, Work>): nat { if r in works then works[r].ids else 0 }

  /** Stable insertion by length: after the items that are not longer. */
  ghost function InsertByLength(batch: seq<Ref>, r: Ref, works: map<Ref, Work>): seq<Ref> {
    if batch == [] || Length(batch[|batch| - 1], works) <= Length(r, works) then batch + [r]
    else InsertByLength(batch[..|batch| - 1], r, works) + [batch[|batch| - 1]]
  }

  ghost function SortByLength(batch: seq<Ref>, works: map<Ref, Work>): seq<Ref> {
    if batch == [] then []
    else InsertByLength(SortByLength(batch[..|batch| - 1], works), batch[|batch| - 1], works)
  }

  ghost predicate ByLength(batch: seq<Ref>, works: map<Ref, Work>) {
    forall i, j :: 0 <= i < j < |batch| ==> Length(batch[i], works) <= Length(batch[j], works)
  }

  lemma {:induction false} InsertSorts(batch: seq<Ref>, r: Ref, works: map<Ref, Work>)
    requires ByLength(batch, works)
    ensures ByLength(InsertByLength(batch, r, works), works)
    ensures multiset(InsertByLength(batch, r, works)) == multiset(batch) + multiset{r}
  {
    if batch != [] {
      var front, last := batch[..|batch| - 1], batch[|batch| - 1];
      assert batch == front + [last];
      if Length(last, works) > Length(r, works) {
        InsertSorts(front, r, works);
        var inner := InsertByLength(front, r, works);
        forall i | 0 <= i < |inner| ensures Length(inner[i], works) <= Length(last, works) {
          assert inner[i] in multiset(inner);
          assert inner[i] == r || inner[i] in front;
        }
      }
    }
  }

  /** Sorting permutes the batch and orders it by length. */
  lemma {:induction false} SortSorts(batch: seq<Ref>, works: map<Ref, Work>)
    ensures ByLength(SortByLength(batch, works), works)
    ensures multiset(SortByLength(batch, works)) == multiset(batch)
  {
    if batch != [] {
      var front, last := batch[..|batch| - 1], batch[|batch| - 1];
      assert batch == front + [last];
      SortSorts(front, works);
      InsertSorts(SortByLength(front, works), last, works);
    }
  }

  lemma {:induction false} NoDupCount(batch: seq<Ref>)
    requires NoDup(batch)
    ensures forall r :: multiset(batch)[r] <= 1
  {
    if batch != [] {
      var front, last := batch[..|batch| - 1], batch[|batch| - 1];
      assert batch == front + [last];
      NoDupCount(front);
      assert last !in front;
    }
  }

  lemma {:induction false} CountNoDup(batch: seq<Ref>)
    requires forall r :: multiset(batch)[r] <= 1
    ensures NoDup(batch)
  {
    forall i, j | 0 <= i < j < |batch| ensures batch[i] != batch[j] {
      assert batch == batch[..i] + [batch[i]] + batch[i + 1..];
      assert batch[i + 1..][j - i - 1] == batch[j];
      assert multiset(batch)[batch[i]] == multiset(batch[..i])[batch[i]] + 1 + multiset(batch[i + 1..])[batch[i]];
      assert batch[j] in multiset(batch[i + 1..]);
    }
  }

  lemma {:induction false} SortKeeps(batch: seq<Ref>, works: map<Ref, Work>)
    requires NoDup(batch)
    ensures
      var sorted := SortByLength(batch, works);
      && |sorted| == |batch| && NoDup(sorted) && ByLength(sorted, works)
      && (forall r :: r in sorted <==> r in batch)
  {
    var sorted := SortByLength(batch, works);
    SortSorts(batch, works);
    NoDupCount(batch);
    CountNoDup(sorted);
    assert |multiset(sorted)| == |multiset(batch)|;
    forall r ensures r in sorted <==> r in batch {
      assert r in multiset(sorted) <==> r in multiset(batch);
    }
  }

  // ---------------------------------------------------------------- picking a batch

  /** The work items of selected queue entries, in queue order. */
  ghost function RefsOf(lane: Lane, selected: seq<PendingItem>): (r: seq<Ref>)
    requires Names(selected) <= lane.items.Keys
    ensures |r| == |selected|
    ensures forall i :: 0 <= i < |r| ==>
                          selected[i].item.itemId in lane.items && r[i] == lane.items[selected[i].item.itemId]
  {
    assert forall i :: 0 <= i < |selected| ==> selected[i].item.itemId in Names(selected);
    seq(|selected|, i requires 0 <= i < |selected| => lane.items[selected[i].item.itemId])
  }

  /** What Next hands out of queues from which the expired entries are already gone. */
  ghost function Picked(lane: Lane, now: Time): seq<PendingItem> {
    match Choose(lane.Limits(), lane.queues, now)
    case Nothing => []
    case Chosen(cls) => lane.queues.Of(cls)[..BatchSize(lane.Limits(), lane.queues.Of(cls))]
  }

  ghost function PickedQueues(lane: Lane, now: Time): Queues {
    match Choose(lane.Limits(), lane.queues, now)
    case Nothing => lane.queues
    case Chosen(cls) => Dispatch(lane.Limits(), lane.queues, cls)
  }

  /** After expiry, picking is what the scheduler's Next does. */
  lemma {:induction false} PickedIsNext(lane: Lane, q: Queues, now: Time)
    requires lane.queues == ExpireQueues(q, now)
    ensures PickedQueues(lane, now) == NextQueues(lane.Limits(), q, now)
    ensures Picked(lane, now) == Selected(lane.Limits(), q, now)
  {
  }

  lemma {:induction false} PickedNames(lane: Lane, works: map<Ref, Work>, clock: Time, ticket: nat, now: Time)
    requires LaneOk(lane, works, clock, ticket)
    ensures Names(Picked(lane, now)) <= lane.items.Keys
    ensures AllNames(PickedQueues(lane, now)) == AllNames(lane.queues) - Names(Picked(lane, now))
  {
    var q := lane.queues;
    ApartNames(q);
    match Choose(lane.Limits(), q, now)
    case Nothing =>
    case Chosen(cls) =>
      PrefixNames(q.Of(cls), BatchSize(lane.Limits(), q.Of(cls)));
      hide Names, Sound;
  }

  lemma {:induction false} PickedQueuesSound(lane: Lane, works: map<Ref, Work>, clock: Time, ticket: nat, now: Time)
    requires LaneOk(lane, works, clock, ticket)
    ensures Sound(lane.Limits(), PickedQueues(lane, now)) && Clocked(PickedQueues(lane, now), clock)
    ensures |Picked(lane, now)| <= 32
    ensures Pairwise(Picked(lane, now), OtherId())
  {
    match Choose(lane.Limits(), lane.queues, now)
    case Nothing =>
    case Chosen(cls) =>
      DispatchKeeps(lane.Limits(), lane.queues, cls, clock);
      assert Pairwise(lane.queues.Of(cls), OtherId());
      hide Sound, Clocked, LaneOk;
  }

  /** The batch the worker takes: the picked items, sorted by length. */
  lemma {:induction false} PickedBatch(lane: Lane, works: map<Ref, Work>, clock: Time, ticket: nat, now: Time)
    requires LaneOk(lane, works, clock, ticket) && Names(Picked(lane, now)) <= lane.items.Keys
    requires Pairwise(Picked(lane, now), OtherId())
    ensures
      var batch := RefsOf(lane, Picked(lane, now));
      && NoDup(batch)
      && (forall i :: 0 <= i < |batch| ==> batch[i] in works && 0 < works[batch[i]].ids <= lane.maxTokens)
      && (forall r :: r in batch <==> r in Behind(lane, Names(Picked(lane, now))))
  {
    var picked := Picked(lane, now);
    var batch := RefsOf(lane, picked);
    forall i, j | 0 <= i < j < |batch| ensures batch[i] != batch[j] {
      assert OtherId()(picked[i], picked[j]);
    }
    forall r | r in Behind(lane, Names(picked)) ensures r in batch {
      var t :| t in Names(picked) && t in lane.items && lane.items[t] == r;
      var i :| 0 <= i < |picked| && picked[i].item.itemId == t;
      assert batch[i] == r;
    }
    forall r | r in batch ensures r in Behind(lane, Names(picked)) {
      var i :| 0 <= i < |batch| && batch[i] == r;
      assert picked[i].item.itemId in Names(picked);
    }
  }

  ghost function PickLane(s: State, l: nat, now: Time): State
    requires l < |s.lanes| && s.worker.Scanning? && Names(Picked(s.lanes[l], now)) <= s.lanes[l].items.Keys
  {
    var lane := s.lanes[l];
    var picked := Picked(lane, now);
    if picked == [] then s.(worker := Scanning(s.worker.n + 1))
    else
      GiveUp(s, l, PickedQueues(lane, now), Names(picked))
        .(rotation := (l + 1) % |s.lanes|, worker := Cutting(l, SortByLength(RefsOf(lane, picked), s.works), 0))
  }

  lemma {:induction false} InFlightCutting(l: nat, batch: seq<Ref>)
    ensures forall r :: r in InFlight(Cutting(l, batch, 0)) <==> r in batch
  {
    forall r | r in batch ensures r in InFlight(Cutting(l, batch, 0)) {
      var i :| 0 <= i < |batch| && batch[i] == r;
      assert i in Span(0, |batch|);
    }
  }

  lemma {:induction false} LensSorted(batch: seq<Ref>, works: map<Ref, Work>)
    requires ByLength(batch, works)
    ensures Splitting.Sorted(Lens(batch, works))
  {
    forall i, j | 0 <= i < j < |batch| ensures Lens(batch, works)[i] <= Lens(batch, works)[j] {
      assert Length(batch[i], works) <= Length(batch[j], works);
    }
  }

  lemma {:induction false} IdleOwnsNothing(w: Worker)
    requires w.Idle? || w.Scanning? || w.Exited?
    ensures InFlight(w) == {}
  {
  }

  lemma {:induction false} BatchIsOk(s: State, l: nat, now: Time)
    requires l < |s.lanes| && LanesOk(s) && Names(Picked(s.lanes[l], now)) <= s.lanes[l].items.Keys
    requires Picked(s.lanes[l], now) != []
    ensures
      var batch := SortByLength(RefsOf(s.lanes[l], Picked(s.lanes[l], now)), s.works);
      && BatchOk(s.lanes, s.works, l, batch)
      && InFlight(Cutting(l, batch, 0)) == Behind(s.lanes[l], Names(Picked(s.lanes[l], now)))
  {
    var lane := s.lanes[l];
    var picked := Picked(lane, now);
    var refs := RefsOf(lane, picked);
    var batch := SortByLength(refs, s.works);
    assert LaneOk(lane, s.works, s.clock, s.ticket);
    PickedQueuesSound(lane, s.works, s.clock, s.ticket, now);
    PickedBatch(lane, s.works, s.clock, s.ticket, now);
    hide LaneOk, Picked, SortByLength, Names, InFlight, Behind;
    SortKeeps(refs, s.works);
    LensSorted(batch, s.works);
    InFlightCutting(l, batch);
    forall i | 0 <= i < |batch| ensures batch[i] in s.works && 0 < s.works[batch[i]].ids <= lane.maxTokens {
      assert batch[i] in refs;
    }
  }

  lemma {:induction false} PickLaneKeeps(s: State, l: nat, now: Time)
    requires l < |s.lanes| && Core(s) && s.worker.Scanning? && s.worker.n < |s.lanes|
    requires Names(Picked(s.lanes[l], now)) <= s.lanes[l].items.Keys
    ensures Core(PickLane(s, l, now)) && WorkerOk(PickLane(s, l, now))
  {
    var lane := s.lanes[l];
    var picked := Picked(lane, now);
    IdleOwnsNothing(s.worker);
    if picked == [] {
      var s' := PickLane(s, l, now);
      IdleOwnsNothing(s'.worker);
      Release(s, s'.worker, {});
    } else {
      assert LaneOk(lane, s.works, s.clock, s.ticket);
      var q := PickedQueues(lane, now);
      var mid := GiveUp(s, l, q, Names(picked));
      PickedNames(lane, s.works, s.clock, s.ticket, now);
      PickedQueuesSound(lane, s.works, s.clock, s.ticket, now);
      BatchIsOk(s, l, now);
      GiveUpLanes(s, l, q, Names(picked));
      GiveUpAccounts(s, l, q, Names(picked));
      PickFinish(s, l, now, mid);
    }
  }

  lemma {:induction false} PickFinish(s: State, l: nat, now: Time, mid: State)
    requires l < |s.lanes| && s.worker.Scanning? && InFlight(s.worker) == {}
    requires Names(Picked(s.lanes[l], now)) <= s.lanes[l].items.Keys && Picked(s.lanes[l], now) != []
    requires mid == GiveUp(s, l, PickedQueues(s.lanes[l], now), Names(Picked(s.lanes[l], now)))
    requires Promised(mid, Behind(s.lanes[l], Names(Picked(s.lanes[l], now)))) && Budgeted(mid) && LanesOk(mid)
    requires
      var batch := SortByLength(RefsOf(s.lanes[l], Picked(s.lanes[l], now)), s.works);
      && BatchOk(s.lanes, s.works, l, batch)
      && InFlight(Cutting(l, batch, 0)) == Behind(s.lanes[l], Names(Picked(s.lanes[l], now)))
    ensures Core(PickLane(s, l, now)) && WorkerOk(PickLane(s, l, now))
  {
    var s' := PickLane(s, l, now);
    hide Picked, Names, Behind, PickedQueues, LaneOk, Promised, Budgeted, SortByLength, InFlight;
    Receive(mid, s'.worker, InFlight(s'.worker));
    PromisedFrame(mid.(worker := s'.worker), s');
    BudgetedFrame(mid, s');
  }

  lemma {:induction false} PromisedFrame(s: State, s': State)
    requires Promised(s, {})
    requires s'.works == s.works && s'.promises == s.promises && s'.preparing == s.preparing
    requires s'.lanes == s.lanes && s'.worker == s.worker
    ensures Promised(s', {})
  {
  }

  // ---------------------------------------------------------------- enqueueing

  /** The scheduler item for a work item under a ticket. */
  function ItemFor(ticket: nat, w: Work): BatchItem {
    BatchItem(Decimals.Decimal(ticket), w.kind, w.ids, w.deadline)
  }

  ghost function AdmitLane(s: State, l: nat, r: Ref, now: Time): State
    requires l < |s.lanes| && r in s.works
  {
    var lane := s.lanes[l];
    var item := ItemFor(s.ticket, s.works[r]);
    s.(lanes := s.lanes[l := lane.(queues := Admit(lane.queues, item, now), items := lane.items[item.itemId := r])],
       pendingBytes := s.pendingBytes + s.works[r].Bytes(),
       preparing := s.preparing - {r})
  }

  /** Impl::Enqueue, under the mutex. */
  ghost function EnqueueWork(s: State, l: nat, r: Ref, now: Time): State
    requires l < |s.lanes| && r in s.works
  {
    var refused := s.(preparing := s.preparing - {r});
    if s.stopping || s.works[r].Bytes() > QUEUE_BYTES - s.pendingBytes then Resolve(refused, {r}, Exhausted)
    else
      var live := ExpireLane(s.(ticket := s.ticket + 1, clock := now), l, now);
      var verdict := Verdict(live.lanes[l].Limits(), live.lanes[l].queues, ItemFor(live.ticket, s.works[r]), now);
      if verdict.Accepted? then AdmitLane(live, l, r, now)
      else
        var outcome := if verdict.Expired? then DeadlineExceeded else Exhausted;
        Resolve(live.(preparing := live.preparing - {r}), {r}, outcome)
  }

  lemma {:induction false} TicketIsNew(items: map<string, Ref>, ticket: nat)
    requires Issued(items, ticket)
    ensures Decimals.Decimal(ticket + 1) !in items
  {
    if Decimals.Decimal(ticket + 1) in items {
      var k: nat :| 0 < k <= ticket && Decimals.Decimal(ticket + 1) == Decimals.Decimal(k);
      Decimals.DecimalInjective(ticket + 1, k);
      assert false;
    }
  }

  lemma {:induction false} TicketIsValid(ticket: nat)
    requires ticket <= Decimals.UINT64_MAX
    ensures ValidId(Decimals.Decimal(ticket))
  {
    Decimals.DecimalLength64(ticket);
  }

  lemma {:induction false} NamesMember(q: seq<PendingItem>, id: string)
    ensures HasId(q, id) <==> id in Names(q)
  {
  }

  /** Only a full queue or a reached deadline makes the scheduler refuse a work item: its
      ticket is well formed and new, and its length within the batch limit. */
  lemma {:induction false} VerdictIsCapacityOrDeadline(
      lane: Lane, works: map<Ref, Work>, clock: Time, ticket: nat, w: Work, now: Time)
    requires LaneOk(lane, works, clock, ticket) && ticket < Decimals.UINT64_MAX
    requires 0 < w.ids <= lane.maxTokens
    ensures
      var verdict := Verdict(lane.Limits(), lane.queues, ItemFor(ticket + 1, w), now);
      verdict.Accepted? || verdict.Expired? || verdict.Overloaded?
  {
    TicketIsNew(lane.items, ticket);
    TicketIsValid(ticket + 1);
    NamesMember(lane.queues.query, Decimals.Decimal(ticket + 1));
    NamesMember(lane.queues.bulk, Decimals.Decimal(ticket + 1));
  }

  lemma {:induction false} AdmitNames(q: Queues, item: BatchItem, now: Time)
    ensures AllNames(Admit(q, item, now)) == AllNames(q) + {item.itemId}
  {
    var before, p := q.Of(item.workClass), PendingItem(item, now);
    var after := before + [p];
    assert after[|before|] == p;
    forall i | 0 <= i < |before| ensures before[i].item.itemId in Names(after) { assert after[i] == before[i]; }
    assert Names(after) == Names(before) + {item.itemId};
  }

  lemma {:induction false} AdmittedLaneOk(
      lane: Lane, works: map<Ref, Work>, clock: Time, ticket: nat, item: BatchItem, r: Ref)
    requires LaneOk(lane, works, clock, ticket) && r !in lane.Refs()
    requires r in works && 0 < works[r].ids <= lane.maxTokens
    requires Verdict(lane.Limits(), lane.queues, item, clock).Accepted?
    requires item.itemId == Decimals.Decimal(ticket + 1)
    ensures
      var lane' := lane.(queues := Admit(lane.queues, item, clock), items := lane.items[item.itemId := r]);
      LaneOk(lane', works, clock, ticket + 1) && lane'.Refs() == lane.Refs() + {r}
  {
    var items' := lane.items[item.itemId := r];
    TicketIsNew(lane.items, ticket);
    AdmitKeeps(lane.Limits(), lane.queues, item, clock);
    AdmitKeepsClock(lane.queues, item, clock);
    AdmitNames(lane.queues, item, clock);
    LaneLater(lane, works, clock, ticket, clock, ticket + 1);
    hide Sound, Clocked, AllNames, Admit, Verdict;
    assert items'.Values == lane.items.Values + {r} by {
      forall x | x in lane.items.Values ensures x in items'.Values {
        var t :| t in lane.items && lane.items[t] == x;
        assert items'[t] == x;
      }
      assert items'[item.itemId] == r;
    }
    assert Issued(items', ticket + 1);
    assert Injective(items');
  }

  lemma {:induction false} AdmitLanesOk(s: State, l: nat, lane': Lane)
    requires l < |s.lanes| && s.ticket > 0 && LaneOk(lane', s.works, s.clock, s.ticket)
    requires forall a :: 0 <= a < |s.lanes| ==> LaneOk(s.lanes[a], s.works, s.clock, s.ticket - 1)
    ensures LanesOk(s.(lanes := s.lanes[l := lane']))
  {
    forall a | 0 <= a < |s.lanes| ensures LaneOk(s.lanes[a], s.works, s.clock, s.ticket) {
      LaneLater(s.lanes[a], s.works, s.clock, s.ticket - 1, s.clock, s.ticket);
    }
    hide LaneOk;
  }

  lemma {:induction false} AdmitBudgeted(s: State, s': State, r: Ref)
    requires Budgeted(s) && r in s.works && r !in Queued(s.lanes)
    requires s'.works == s.works && Disjoint(s'.lanes) && Queued(s'.lanes) == Queued(s.lanes) + {r}
    requires s'.pendingBytes == s.pendingBytes + s.works[r].Bytes() <= QUEUE_BYTES
    ensures Budgeted(s')
  {
    SumRemove(Queued(s'.lanes), s.works, r);
    assert Queued(s'.lanes) - {r} == Queued(s.lanes);
  }

  /** Everything EnqueueWork relies on when it admits: `s` is the state after expiry. */
  lemma {:induction false} AdmitLaneKeeps(s: State, l: nat, r: Ref, now: Time)
    requires l < |s.lanes| && Core(s) && !s.worker.Exited? && r in s.preparing && now == s.clock && s.ticket > 0
    requires r in s.works && 0 < s.works[r].ids <= s.lanes[l].maxTokens
    requires forall a :: 0 <= a < |s.lanes| ==> LaneOk(s.lanes[a], s.works, s.clock, s.ticket - 1)
    requires Verdict(s.lanes[l].Limits(), s.lanes[l].queues, ItemFor(s.ticket, s.works[r]), now).Accepted?
    requires s.pendingBytes + s.works[r].Bytes() <= QUEUE_BYTES
    ensures Core(AdmitLane(s, l, r, now))
  {
    var lane, item := s.lanes[l], ItemFor(s.ticket, s.works[r]);
    var lane' := lane.(queues := Admit(lane.queues, item, now), items := lane.items[item.itemId := r]);
    var s' := AdmitLane(s, l, r, now);
    QueuedOf(s.lanes, l);
    assert r !in Queued(s.lanes) && Disjoint(s.lanes);
    hide LaneOk, Admit, Verdict, Queued, Promised, Budgeted, Disjoint;
    AdmittedLaneOk(lane, s.works, s.clock, s.ticket - 1, item, r);
    AdmitLanesOk(s, l, lane');
    QueuedGrows(s.lanes, l, lane', r);
    AdmitPromised(s, s', r);
    AdmitBudgeted(s, s', r);
  }

  lemma {:induction false} AdmitPromised(s: State, s': State, r: Ref)
    requires Promised(s, {}) && r in s.preparing && !s.worker.Exited?
    requires s'.works == s.works && s'.promises == s.promises && s'.preparing == s.preparing - {r}
    requires s'.worker == s.worker && Queued(s'.lanes) == Queued(s.lanes) + {r}
    ensures Promised(s', {})
  {
    hide Queued, InFlight;
    assert forall x :: x in Unresolved(s', {}) <==> x in Unresolved(s, {});
  }

  /** A caller gives its item up to be answered on the spot. */
  lemma {:induction false} RefusePromised(s: State, r: Ref)
    requires Promised(s, {}) && r in s.preparing
    ensures Promised(s.(preparing := s.preparing - {r}), {r})
  {
    hide Queued, InFlight;
    assert forall x :: x in Unresolved(s.(preparing := s.preparing - {r}), {r}) <==> x in Unresolved(s, {});
  }

  lemma {:induction false} RefuseKeeps(s: State, r: Ref, outcome: Outcome)
    requires Core(s) && r in s.preparing
    ensures Core(Resolve(s.(preparing := s.preparing - {r}), {r}, outcome))
  {
    var mid := s.(preparing := s.preparing - {r});
    RefusePromised(s, r);
    hide Promised, Budgeted, LaneOk;
    ResolveExtra(mid, {r}, outcome);
    BudgetedFrame(s, Resolve(mid, {r}, outcome));
  }

  /** A later clock reading and an issued ticket change no account. */
  lemma {:induction false} AdvanceKeeps(s: State, ticket: nat, now: Time)
    requires Core(s) && s.ticket <= ticket && s.clock <= now
    ensures Core(s.(ticket := ticket, clock := now))
    ensures forall l :: 0 <= l < |s.lanes| ==> LaneOk(s.lanes[l], s.works, now, s.ticket)
  {
    var s' := s.(ticket := ticket, clock := now);
    forall l | 0 <= l < |s.lanes|
      ensures LaneOk(s.lanes[l], s.works, now, ticket) && LaneOk(s.lanes[l], s.works, now, s.ticket)
    {
      LaneLater(s.lanes[l], s.works, s.clock, s.ticket, now, ticket);
      LaneLater(s.lanes[l], s.works, s.clock, s.ticket, now, s.ticket);
    }
    hide LaneOk, Promised, Budgeted;
    PromisedFrame(s, s');
    BudgetedFrame(s, s');
  }

  lemma {:induction false} ExpireShape(s: State, l: nat, now: Time)
    requires l < |s.lanes|
    ensures
      var s' := ExpireLane(s, l, now);
      && s'.pendingBytes <= s.pendingBytes
          && s' == s.(lanes := s'.lanes, promises := s'.promises, pendingBytes := s'.pendingBytes)
      && SameModels(s.lanes, s'.lanes)
  {
  }

  /** The models behind the lanes never change. */
  ghost predicate SameModels(a: seq<Lane>, b: seq<Lane>) {
    |a| == |b| && forall l :: 0 <= l < |a| ==> a[l].maxTokens == b[l].maxTokens && a[l].budget == b[l].budget
  }

  /** The state in which Enqueue asks for the verdict. */
  lemma {:induction false} EnqueueLive(s: State, l: nat, now: Time)
    requires l < |s.lanes| && Core(s) && !s.worker.Exited? && s.clock <= now
    ensures
      var live := ExpireLane(s.(ticket := s.ticket + 1, clock := now), l, now);
      && Core(live) && live.clock == now && live.ticket == s.ticket + 1 && live.preparing == s.preparing
      && live.works == s.works && live.worker == s.worker && live.pendingBytes <= s.pendingBytes
      && SameModels(s.lanes, live.lanes)
      && (forall a :: 0 <= a < |live.lanes| ==> LaneOk(live.lanes[a], live.works, now, s.ticket))
  {
    hide Core;
    var mid := s.(clock := now);
    AdvanceKeeps(s, s.ticket, now);
    ExpireLaneKeeps(mid, l, now);
    var past := ExpireLane(mid, l, now);
    AdvanceKeeps(past, s.ticket + 1, now);
    ExpireShape(mid, l, now);
    assert past.(ticket := s.ticket + 1) == ExpireLane(s.(ticket := s.ticket + 1, clock := now), l, now);
    hide ExpireLane, LaneOk;
  }

  lemma {:induction false} EnqueueWorkKeeps(s: State, l: nat, r: Ref, now: Time)
    requires l < |s.lanes| && Core(s) && (s.worker.Exited? ==> s.stopping) && r in s.preparing && s.clock <= now
    requires r in s.works && 0 < s.works[r].ids <= s.lanes[l].maxTokens
    ensures Core(EnqueueWork(s, l, r, now))
  {
    hide Core, ExpireLane, LaneOk, Verdict, SetPromises, AdmitLane;
    if s.stopping || s.works[r].Bytes() > QUEUE_BYTES - s.pendingBytes {
      RefuseKeeps(s, r, Exhausted);
    } else {
      EnqueueLive(s, l, now);
      var live := ExpireLane(s.(ticket := s.ticket + 1, clock := now), l, now);
      var verdict := Verdict(live.lanes[l].Limits(), live.lanes[l].queues, ItemFor(live.ticket, s.works[r]), now);
      if verdict.Accepted? {
        AdmitLaneKeeps(live, l, r, now);
      } else {
        RefuseKeeps(live, r, if verdict.Expired? then DeadlineExceeded else Exhausted);
      }
    }
  }
}
