/** What the native batch scheduler does, as functions on the two FIFO queues it represents.

    The linked structures of the C++ class (list nodes, deadline multimaps, locators) are in
    module Batching, whose methods are proved to compute these functions.  Here are the laws
    that span operations: what every step keeps, conservation of items over whole runs,
    exactness of the wakeup time, and the bound on how long bulk work can be passed over. */
module Scheduling {

  type Time = int

  datatype WorkClass = Query | Bulk

  datatype EnqueueStatus = Accepted | Invalid | Duplicate | Expired | Overloaded

  datatype BatchItem = BatchItem(itemId: string, workClass: WorkClass, estimatedTokens: nat, deadline: Time)

  datatype PendingItem = PendingItem(item: BatchItem, enqueuedAt: Time)

  datatype SchedulerLimits = SchedulerLimits(
    maximumBatchItems: nat,
    maximumBatchTokens: nat,
    maximumQueryPending: nat,
    maximumBulkPending: nat,
    maximumWait: Time,
    maximumConsecutiveQueryBatches: nat)
  {
    predicate Positive() {
      && maximumBatchItems > 0 && maximumBatchTokens > 0
      && maximumQueryPending > 0 && maximumBulkPending > 0
      && maximumWait > 0 && maximumConsecutiveQueryBatches > 0
    }

    function Capacity(cls: WorkClass): nat {
      if cls.Query? then maximumQueryPending else maximumBulkPending
    }
  }

  predicate Alphanumeric(c: char) {
    'A' <= c <= 'Z' || 'a' <= c <= 'z' || '0' <= c <= '9'
  }

  predicate ValidId(id: string) {
    && 0 < |id| <= 256
    && Alphanumeric(id[0])
    && forall i :: 1 <= i < |id| ==> Alphanumeric(id[i]) || id[i] in "._:-"
  }

  /** The two queues in FIFO order and the count of query batches since the last bulk batch. */
  datatype Queues = Queues(query: seq<PendingItem>, bulk: seq<PendingItem>, streak: nat) {
    function Of(cls: WorkClass): seq<PendingItem> {
      if cls.Query? then query else bulk
    }

    function With(cls: WorkClass, q: seq<PendingItem>): Queues {
      if cls.Query? then this.(query := q) else this.(bulk := q)
    }
  }

  // ---------------------------------------------------------------- queue functions

  /** The entries satisfying `f`, in order. */
  function Keep(q: seq<PendingItem>, f: PendingItem -> bool): (r: seq<PendingItem>)
    ensures |r| <= |q|
  {
    if q == [] then []
    else if f(q[0]) then [q[0]] + Keep(q[1..], f)
    else Keep(q[1..], f)
  }

  function Unexpired(now: Time): PendingItem -> bool { (p: PendingItem) => p.item.deadline > now }

  function Overdue(now: Time): PendingItem -> bool { (p: PendingItem) => p.item.deadline <= now }

  function Named(id: string): PendingItem -> bool { (p: PendingItem) => p.item.itemId == id }

  function NotNamed(id: string): PendingItem -> bool { (p: PendingItem) => p.item.itemId != id }

  /** The entries whose deadline lies after `now`, in order. */
  function Live(q: seq<PendingItem>, now: Time): seq<PendingItem> { Keep(q, Unexpired(now)) }

  /** The entries whose deadline has been reached, in order. */
  function Gone(q: seq<PendingItem>, now: Time): seq<PendingItem> { Keep(q, Overdue(now)) }

  function Items(q: seq<PendingItem>): (r: seq<BatchItem>)
    ensures |r| == |q|
    ensures forall i :: 0 <= i < |q| ==> r[i] == q[i].item
  {
    seq(|q|, i requires 0 <= i < |q| => q[i].item)
  }

  predicate HasId(q: seq<PendingItem>, id: string) {
    exists i :: 0 <= i < |q| && q[i].item.itemId == id
  }

  predicate Ready(limits: SchedulerLimits, q: seq<PendingItem>, now: Time) {
    && q != []
    && (|| |q| >= limits.maximumBatchItems
        || now - q[0].enqueuedAt >= limits.maximumWait
        || exists i :: 0 <= i < |q| && q[i].item.deadline - now <= limits.maximumWait)
  }

  function Tokens(q: seq<PendingItem>): nat {
    if q == [] then 0 else q[0].item.estimatedTokens + Tokens(q[1..])
  }

  /** How many entries a batch takes from the front under an item and a token budget. */
  function TakeCount(q: seq<PendingItem>, items: nat, tokens: nat): (n: nat)
    ensures n <= |q| && n <= items
    ensures Tokens(q[..n]) <= tokens
    ensures n < |q| && n < items ==> Tokens(q[..n]) + q[n].item.estimatedTokens > tokens
  {
    if q == [] || items == 0 || q[0].item.estimatedTokens > tokens then 0
    else
      var m := TakeCount(q[1..], items - 1, tokens - q[0].item.estimatedTokens);
      assert q[..m + 1] == [q[0]] + q[1..][..m];
      m + 1
  }

  // ---------------------------------------------------------------- operations

  function ExpireQueues(s: Queues, now: Time): Queues {
    Queues(Live(s.query, now), Live(s.bulk, now), s.streak)
  }

  function ExpiredItems(s: Queues, now: Time): multiset<BatchItem> {
    multiset(Items(Gone(s.query, now))) + multiset(Items(Gone(s.bulk, now)))
  }

  predicate Pending(s: Queues, id: string) {
    HasId(s.query, id) || HasId(s.bulk, id)
  }

  /** The verdict on a new item, given the queues after expiry at `now`. */
  function Verdict(limits: SchedulerLimits, s: Queues, item: BatchItem, now: Time): EnqueueStatus {
    if !ValidId(item.itemId) || item.estimatedTokens == 0
       || item.estimatedTokens > limits.maximumBatchTokens then Invalid
    else if item.deadline <= now then Expired
    else if Pending(s, item.itemId) then Duplicate
    else if |s.Of(item.workClass)| >= limits.Capacity(item.workClass) then Overloaded
    else Accepted
  }

  function Admit(s: Queues, item: BatchItem, now: Time): Queues {
    s.With(item.workClass, s.Of(item.workClass) + [PendingItem(item, now)])
  }

  function EnqueueQueues(limits: SchedulerLimits, s: Queues, item: BatchItem, now: Time): Queues {
    var live := ExpireQueues(s, now);
    if Verdict(limits, live, item, now).Accepted? then Admit(live, item, now) else live
  }

  function CancelQueues(s: Queues, id: string): Queues {
    Queues(Keep(s.query, NotNamed(id)), Keep(s.bulk, NotNamed(id)), s.streak)
  }

  datatype Choice = Nothing | Chosen(cls: WorkClass)

  /** Which queue is served, given the queues after expiry: query first, unless bulk is ready
      and query has already had its maximum run of consecutive batches. */
  function Choose(limits: SchedulerLimits, s: Queues, now: Time): Choice {
    var q := Ready(limits, s.query, now);
    var b := Ready(limits, s.bulk, now);
    if !q && !b then Nothing
    else if q && (!b || s.streak < limits.maximumConsecutiveQueryBatches) then Chosen(Query)
    else Chosen(Bulk)
  }

  function Streak(limits: SchedulerLimits, streak: nat, cls: WorkClass): nat {
    if cls.Bulk? then 0
    else if streak < limits.maximumConsecutiveQueryBatches then streak + 1
    else streak
  }

  function BatchSize(limits: SchedulerLimits, q: seq<PendingItem>): nat {
    TakeCount(q, limits.maximumBatchItems, limits.maximumBatchTokens)
  }

  function Dispatch(limits: SchedulerLimits, s: Queues, cls: WorkClass): Queues {
    s.With(cls, s.Of(cls)[BatchSize(limits, s.Of(cls))..]).(streak := Streak(limits, s.streak, cls))
  }

  function NextQueues(limits: SchedulerLimits, s: Queues, now: Time): Queues {
    var live := ExpireQueues(s, now);
    match Choose(limits, live, now)
    case Nothing => live
    case Chosen(cls) => Dispatch(limits, live, cls)
  }

  /** The batch a call of Next hands out. */
  function Selected(limits: SchedulerLimits, s: Queues, now: Time): seq<PendingItem> {
    var live := ExpireQueues(s, now);
    match Choose(limits, live, now)
    case Nothing => []
    case Chosen(cls) => live.Of(cls)[..BatchSize(limits, live.Of(cls))]
  }

  // ---------------------------------------------------------------- state invariant

  ghost predicate Pairwise(q: seq<PendingItem>, rel: (PendingItem, PendingItem) -> bool) {
    forall i, j :: 0 <= i < j < |q| ==> rel(q[i], q[j])
  }

  ghost predicate Every(q: seq<PendingItem>, f: PendingItem -> bool) {
    forall i :: 0 <= i < |q| ==> f(q[i])
  }

  ghost function OtherId(): (PendingItem, PendingItem) -> bool {
    (p: PendingItem, r: PendingItem) => p.item.itemId != r.item.itemId
  }

  ghost function NotLater(): (PendingItem, PendingItem) -> bool {
    (p: PendingItem, r: PendingItem) => p.enqueuedAt <= r.enqueuedAt
  }

  ghost function EnqueuedBy(clock: Time): PendingItem -> bool { (p: PendingItem) => p.enqueuedAt <= clock }

  ghost function Fits(limits: SchedulerLimits, cls: WorkClass): PendingItem -> bool {
    (p: PendingItem) => p.item.workClass == cls && ValidId(p.item.itemId)
         && 0 < p.item.estimatedTokens <= limits.maximumBatchTokens
  }

  ghost predicate Apart(a: seq<PendingItem>, b: seq<PendingItem>) {
    forall i, j :: 0 <= i < |a| && 0 <= j < |b| ==> a[i].item.itemId != b[j].item.itemId
  }

  /** One queue: distinct identities, within capacity, every item small enough for a batch. */
  ghost predicate SoundQueue(limits: SchedulerLimits, q: seq<PendingItem>, cls: WorkClass) {
    Pairwise(q, OtherId()) && |q| <= limits.Capacity(cls) && Every(q, Fits(limits, cls))
  }

  /** What every operation keeps, whatever the clock does. */
  ghost predicate Sound(limits: SchedulerLimits, s: Queues) {
    && limits.Positive()
    && SoundQueue(limits, s.query, Query)
    && SoundQueue(limits, s.bulk, Bulk)
    && Apart(s.query, s.bulk)
    && s.streak <= limits.maximumConsecutiveQueryBatches
  }

  /** Entries stand in the order they were enqueued, none after the last clock reading. */
  ghost predicate Ordered(q: seq<PendingItem>, clock: Time) {
    Pairwise(q, NotLater()) && Every(q, EnqueuedBy(clock))
  }

  ghost predicate Clocked(s: Queues, clock: Time) {
    Ordered(s.query, clock) && Ordered(s.bulk, clock)
  }

  // ---------------------------------------------------------------- laws of Keep

  lemma {:induction false} KeepEvery(q: seq<PendingItem>, f: PendingItem -> bool, g: PendingItem -> bool)
    ensures Every(Keep(q, f), f)
    ensures Every(q, g) ==> Every(Keep(q, f), g)
  {
    if q != [] {
      KeepEvery(q[1..], f, g);
    }
  }

  lemma {:induction false} KeepPairwise(
      q: seq<PendingItem>, f: PendingItem -> bool, rel: (PendingItem, PendingItem) -> bool)
    requires Pairwise(q, rel)
    ensures Pairwise(Keep(q, f), rel)
  {
    if q != [] {
      var g := p => rel(q[0], p);
      KeepPairwise(q[1..], f, rel);
      assert Every(q[1..], g);
      KeepEvery(q[1..], f, g);
    }
  }

  lemma {:induction false} KeepApart(a: seq<PendingItem>, b: seq<PendingItem>, f: PendingItem -> bool)
    requires Apart(a, b)
    ensures Apart(Keep(a, f), b) && Apart(a, Keep(b, f))
  {
    forall j | 0 <= j < |b| ensures Every(Keep(a, f), NotNamed(b[j].item.itemId)) {
      assert Every(a, NotNamed(b[j].item.itemId));
      KeepEvery(a, f, NotNamed(b[j].item.itemId));
    }
    forall i | 0 <= i < |a| ensures Every(Keep(b, f), NotNamed(a[i].item.itemId)) {
      assert Every(b, NotNamed(a[i].item.itemId));
      KeepEvery(b, f, NotNamed(a[i].item.itemId));
    }
  }

  lemma {:induction false} KeepIndex(q: seq<PendingItem>, f: PendingItem -> bool, i: nat) returns (j: nat)
    requires i < |q| && f(q[i])
    ensures j <= i && j < |Keep(q, f)| && Keep(q, f)[j] == q[i]
  {
    if i == 0 {
      j := 0;
    } else {
      j := KeepIndex(q[1..], f, i - 1);
      if f(q[0]) { j := j + 1; }
    }
  }

  lemma {:induction false} KeepConcat(a: seq<PendingItem>, b: seq<PendingItem>, f: PendingItem -> bool)
    ensures Keep(a + b, f) == Keep(a, f) + Keep(b, f)
  {
    if a == [] {
      assert a + b == b;
    } else {
      var tail := a[1..] + b;
      assert (a + b)[0] == a[0] && (a + b)[1..] == tail;
      KeepConcat(a[1..], b, f);
    }
  }

  lemma {:induction false} KeepAbsent(q: seq<PendingItem>, f: PendingItem -> bool, x: PendingItem)
    requires x !in q
    ensures x !in Keep(q, f)
  {
    if q != [] {
      KeepAbsent(q[1..], f, x);
    }
  }

  lemma {:induction false} KeepAll(q: seq<PendingItem>, f: PendingItem -> bool)
    requires Every(q, f)
    ensures Keep(q, f) == q
  {
    if q != [] {
      KeepAll(q[1..], f);
    }
  }

  lemma {:induction false} KeepNone(q: seq<PendingItem>, f: PendingItem -> bool)
    requires forall i :: 0 <= i < |q| ==> !f(q[i])
    ensures Keep(q, f) == []
  {
    if q != [] { KeepNone(q[1..], f); }
  }

  lemma {:induction false} ItemsConcat(a: seq<PendingItem>, b: seq<PendingItem>)
    ensures Items(a + b) == Items(a) + Items(b)
    ensures multiset(Items(a + b)) == multiset(Items(a)) + multiset(Items(b))
  {
    assert Items(a + b) == Items(a) + Items(b);
  }

  /** Two filters of which exactly one holds of each entry split a queue. */
  lemma {:induction false} KeepSplit(q: seq<PendingItem>, f: PendingItem -> bool, g: PendingItem -> bool)
    requires forall p :: f(p) <==> !g(p)
    ensures multiset(Items(q)) == multiset(Items(Keep(q, f))) + multiset(Items(Keep(q, g)))
  {
    if q != [] {
      KeepSplit(q[1..], f, g);
      assert q == [q[0]] + q[1..];
      ItemsConcat([q[0]], q[1..]);
      ItemsConcat([q[0]], Keep(q[1..], f));
      ItemsConcat([q[0]], Keep(q[1..], g));
    }
  }

  // ---------------------------------------------------------------- every step keeps Sound

  lemma {:induction false} KeepSound(
      limits: SchedulerLimits, q: seq<PendingItem>, cls: WorkClass, f: PendingItem -> bool)
    requires SoundQueue(limits, q, cls)
    ensures SoundQueue(limits, Keep(q, f), cls)
  {
    KeepPairwise(q, f, OtherId());
    KeepEvery(q, f, Fits(limits, cls));
  }

  lemma {:induction false} KeepOrdered(q: seq<PendingItem>, f: PendingItem -> bool, clock: Time, later: Time)
    requires Ordered(q, clock) && clock <= later
    ensures Ordered(Keep(q, f), later)
  {
    KeepPairwise(q, f, NotLater());
    KeepEvery(q, f, EnqueuedBy(clock));
  }

  lemma {:induction false} FilterKeeps(limits: SchedulerLimits, s: Queues, f: PendingItem -> bool)
    requires Sound(limits, s)
    ensures Sound(limits, Queues(Keep(s.query, f), Keep(s.bulk, f), s.streak))
  {
    KeepSound(limits, s.query, Query, f);
    KeepSound(limits, s.bulk, Bulk, f);
    KeepApart(s.query, s.bulk, f);
    KeepApart(Keep(s.query, f), s.bulk, f);
  }

  lemma {:induction false} FilterKeepsClock(s: Queues, f: PendingItem -> bool, clock: Time, later: Time)
    requires Clocked(s, clock) && clock <= later
    ensures Clocked(Queues(Keep(s.query, f), Keep(s.bulk, f), s.streak), later)
  {
    KeepOrdered(s.query, f, clock, later);
    KeepOrdered(s.bulk, f, clock, later);
  }

  lemma {:induction false} AdmitKeeps(limits: SchedulerLimits, s: Queues, item: BatchItem, now: Time)
    requires Sound(limits, s)
    requires Verdict(limits, s, item, now).Accepted?
    ensures Sound(limits, Admit(s, item, now))
  {
    var p := PendingItem(item, now);
    assert Fits(limits, item.workClass)(p);
    assert Every(s.query, NotNamed(item.itemId));
    assert Every(s.bulk, NotNamed(item.itemId));
    assert SoundQueue(limits, s.Of(item.workClass) + [p], item.workClass);
  }

  lemma {:induction false} AdmitKeepsClock(s: Queues, item: BatchItem, now: Time)
    requires Clocked(s, now)
    ensures Clocked(Admit(s, item, now), now)
  {
    assert Ordered(s.Of(item.workClass) + [PendingItem(item, now)], now);
  }

  lemma {:induction false} DispatchKeeps(limits: SchedulerLimits, s: Queues, cls: WorkClass, clock: Time)
    requires Sound(limits, s)
    ensures Sound(limits, Dispatch(limits, s, cls))
    ensures Clocked(s, clock) ==> Clocked(Dispatch(limits, s, cls), clock)
  {
    var q := s.Of(cls);
    var n := BatchSize(limits, q);
    assert SoundQueue(limits, q[n..], cls);
    assert Ordered(q, clock) ==> Ordered(q[n..], clock);
  }

  /** Every operation keeps identities distinct, both queues within capacity and every queued
      item small enough for a batch, and under a monotonic clock keeps the queues in order. */
  lemma {:induction false} ApplyKeeps(limits: SchedulerLimits, s: Queues, op: Op, clock: Time)
    requires Sound(limits, s)
    ensures Sound(limits, Apply(limits, s, op))
    ensures Clocked(s, clock) && clock <= ClockAfter(clock, op)
      ==> Clocked(Apply(limits, s, op), ClockAfter(clock, op))
  {
    var later := ClockAfter(clock, op);
    var f := match op
      case Enqueue(_, now) => Unexpired(now)
      case Cancel(id) => NotNamed(id)
      case Next(now) => Unexpired(now);
    FilterKeeps(limits, s, f);
    if Clocked(s, clock) && clock <= later {
      FilterKeepsClock(s, f, clock, later);
    }
    var live := Queues(Keep(s.query, f), Keep(s.bulk, f), s.streak);
    match op
    case Enqueue(item, now) =>
      if Verdict(limits, live, item, now).Accepted? {
        AdmitKeeps(limits, live, item, now);
        if Clocked(live, later) { AdmitKeepsClock(live, item, now); }
      }
    case Cancel(id) =>
    case Next(now) =>
      var choice := Choose(limits, live, now);
      if choice.Chosen? {
        DispatchKeeps(limits, live, choice.cls, later);
      }
  }

  // ---------------------------------------------------------------- runs

  datatype Op = Enqueue(item: BatchItem, now: Time) | Cancel(id: string) | Next(now: Time)

  function Apply(limits: SchedulerLimits, s: Queues, op: Op): Queues {
    match op
    case Enqueue(item, now) => EnqueueQueues(limits, s, item, now)
    case Cancel(id) => CancelQueues(s, id)
    case Next(now) => NextQueues(limits, s, now)
  }

  /** The clock after an operation; an operation without a clock reading leaves it alone. */
  function ClockAfter(clock: Time, op: Op): Time {
    match op
    case Enqueue(_, now) => now
    case Cancel(_) => clock
    case Next(now) => now
  }

  /** Readings of a monotonic clock, starting at `clock`. */
  predicate Monotone(ops: seq<Op>, clock: Time)
    decreases |ops|
  {
    ops == [] || (clock <= ClockAfter(clock, ops[0]) && Monotone(ops[1..], ClockAfter(clock, ops[0])))
  }

  function Run(limits: SchedulerLimits, s: Queues, ops: seq<Op>): Queues
    decreases |ops|
  {
    if ops == [] then s else Run(limits, Apply(limits, s, ops[0]), ops[1..])
  }

  function EndClock(clock: Time, ops: seq<Op>): Time
    decreases |ops|
  {
    if ops == [] then clock else EndClock(ClockAfter(clock, ops[0]), ops[1..])
  }

  lemma {:induction false} RunKeeps(limits: SchedulerLimits, s: Queues, ops: seq<Op>, clock: Time)
    requires Sound(limits, s)
    ensures Sound(limits, Run(limits, s, ops))
    ensures Clocked(s, clock) && Monotone(ops, clock)
      ==> Clocked(Run(limits, s, ops), EndClock(clock, ops))
    decreases |ops|
  {
    if ops != [] {
      ApplyKeeps(limits, s, ops[0], clock);
      RunKeeps(limits, Apply(limits, s, ops[0]), ops[1..], ClockAfter(clock, ops[0]));
    }
  }

  // ---------------------------------------------------------------- conservation

  /** What one operation lets in and lets out. */
  datatype Ledger = Ledger(
    accepted: multiset<BatchItem>,
    selected: multiset<BatchItem>,
    expired: multiset<BatchItem>,
    cancelled: multiset<BatchItem>)
  {
    function Plus(other: Ledger): Ledger {
      Ledger(accepted + other.accepted, selected + other.selected,
             expired + other.expired, cancelled + other.cancelled)
    }

    function Out(): multiset<BatchItem> { selected + expired + cancelled }
  }

  const EMPTY_LEDGER := Ledger(multiset{}, multiset{}, multiset{}, multiset{})

  function Moved(limits: SchedulerLimits, s: Queues, op: Op): Ledger {
    match op
    case Enqueue(item, now) =>
      var accepted := Verdict(limits, ExpireQueues(s, now), item, now).Accepted?;
      Ledger(if accepted then multiset{item} else multiset{}, multiset{}, ExpiredItems(s, now), multiset{})
    case Cancel(id) =>
      Ledger(multiset{}, multiset{}, multiset{},
             multiset(Items(Keep(s.query, Named(id)))) + multiset(Items(Keep(s.bulk, Named(id)))))
    case Next(now) =>
      Ledger(multiset{}, multiset(Items(Selected(limits, s, now))), ExpiredItems(s, now), multiset{})
  }

  function TotalMoved(limits: SchedulerLimits, s: Queues, ops: seq<Op>): Ledger
    decreases |ops|
  {
    if ops == [] then EMPTY_LEDGER
    else Moved(limits, s, ops[0]).Plus(TotalMoved(limits, Apply(limits, s, ops[0]), ops[1..]))
  }

  function Held(s: Queues): multiset<BatchItem> {
    multiset(Items(s.query)) + multiset(Items(s.bulk))
  }

  lemma {:induction false} ExpireConserves(s: Queues, now: Time)
    ensures Held(s) == Held(ExpireQueues(s, now)) + ExpiredItems(s, now)
  {
    KeepSplit(s.query, Unexpired(now), Overdue(now));
    KeepSplit(s.bulk, Unexpired(now), Overdue(now));
  }

  lemma {:induction false} AdmitConserves(s: Queues, item: BatchItem, now: Time)
    ensures Held(Admit(s, item, now)) == Held(s) + multiset{item}
  {
    var added := [PendingItem(item, now)];
    ItemsConcat(s.Of(item.workClass), added);
    assert Items(added) == [item];
  }

  lemma {:induction false} DispatchConserves(limits: SchedulerLimits, s: Queues, cls: WorkClass)
    ensures Held(s) == Held(Dispatch(limits, s, cls))
                       + multiset(Items(s.Of(cls)[..BatchSize(limits, s.Of(cls))]))
  {
    var q := s.Of(cls);
    var n := BatchSize(limits, q);
    assert q == q[..n] + q[n..];
    ItemsConcat(q[..n], q[n..]);
  }

  lemma {:induction false} EnqueueConserves(limits: SchedulerLimits, s: Queues, item: BatchItem, now: Time)
    ensures
      var m := Moved(limits, s, Enqueue(item, now));
      Held(s) + m.accepted == Held(EnqueueQueues(limits, s, item, now)) + m.expired
  {
    hide Keep, Held, ExpiredItems;
    ExpireConserves(s, now);
    AdmitConserves(ExpireQueues(s, now), item, now);
  }

  lemma {:induction false} NextConserves(limits: SchedulerLimits, s: Queues, now: Time)
    ensures
      var m := Moved(limits, s, Next(now));
      Held(s) == Held(NextQueues(limits, s, now)) + m.selected + m.expired
  {
    hide Keep, TakeCount, Ready, Held, ExpiredItems;
    ExpireConserves(s, now);
    var choice := Choose(limits, ExpireQueues(s, now), now);
    if choice.Chosen? {
      DispatchConserves(limits, ExpireQueues(s, now), choice.cls);
    } else {
      assert Items([]) == [];
    }
  }

  lemma {:induction false} ApplyConserves(limits: SchedulerLimits, s: Queues, op: Op)
    ensures Held(s) + Moved(limits, s, op).accepted == Held(Apply(limits, s, op)) + Moved(limits, s, op).Out()
  {
    hide Keep;
    match op
    case Enqueue(item, now) =>
      hide Held, ExpiredItems, EnqueueQueues;
      EnqueueConserves(limits, s, item, now);
    case Cancel(id) =>
      KeepSplit(s.query, NotNamed(id), Named(id));
      KeepSplit(s.bulk, NotNamed(id), Named(id));
    case Next(now) =>
      hide Held, ExpiredItems, NextQueues, Selected;
      NextConserves(limits, s, now);
  }

  lemma {:induction false} Balance(
      h0: multiset<BatchItem>, h1: multiset<BatchItem>, h2: multiset<BatchItem>, one: Ledger, more: Ledger)
    requires h0 + one.accepted == h1 + one.Out()
    requires h1 + more.accepted == h2 + more.Out()
    ensures h0 + one.Plus(more).accepted == h2 + one.Plus(more).Out()
  {
    assert one.Plus(more).Out() == one.Out() + more.Out();
    assert h0 + one.Plus(more).accepted == h1 + one.Out() + more.accepted;
    assert h1 + one.Out() + more.accepted == (h1 + more.accepted) + one.Out();
    assert (h2 + more.Out()) + one.Out() == h2 + one.Plus(more).Out();
  }

  /** Over any run, the items accepted are exactly those still pending plus those selected,
      expired and cancelled: none is lost, none comes out twice. */
  lemma {:induction false} RunConserves(limits: SchedulerLimits, s: Queues, ops: seq<Op>)
    ensures
      var m := TotalMoved(limits, s, ops);
      Held(s) + m.accepted == Held(Run(limits, s, ops)) + (m.selected + m.expired + m.cancelled)
    decreases |ops|
  {
    if ops != [] {
      var next := Apply(limits, s, ops[0]);
      ApplyConserves(limits, s, ops[0]);
      RunConserves(limits, next, ops[1..]);
      Balance(Held(s), Held(next), Held(Run(limits, next, ops[1..])),
              Moved(limits, s, ops[0]), TotalMoved(limits, next, ops[1..]));
    }
  }

  // ---------------------------------------------------------------- what a batch is

  /** A batch is a non-empty FIFO prefix of one ready queue, all of one class, none expired,
      within the item and token limits, and as long as those limits allow; there is one
      whenever some queue is ready after expiry. */
  lemma {:induction false} SelectedIsMaximalPrefix(limits: SchedulerLimits, s: Queues, now: Time)
    requires Sound(limits, s)
    ensures Choose(limits, ExpireQueues(s, now), now).Nothing? <==> Selected(limits, s, now) == []
    ensures
      var batch := Selected(limits, s, now);
      match Choose(limits, ExpireQueues(s, now), now)
      case Nothing => true
      case Chosen(cls) =>
        var q := Live(s.Of(cls), now);
        && Ready(limits, q, now)
        && batch <= q
        && 0 < |batch| <= limits.maximumBatchItems
        && Tokens(batch) <= limits.maximumBatchTokens
        && (forall i :: 0 <= i < |batch| ==> batch[i].item.workClass == cls && batch[i].item.deadline > now)
        && (|batch| == limits.maximumBatchItems || batch == q
            || Tokens(batch) + q[|batch|].item.estimatedTokens > limits.maximumBatchTokens)
  {
    FilterKeeps(limits, s, Unexpired(now));
    var live := ExpireQueues(s, now);
    match Choose(limits, live, now)
    case Nothing =>
    case Chosen(cls) =>
      var q := live.Of(cls);
      KeepEvery(s.Of(cls), Unexpired(now), Unexpired(now));
      assert Every(q, Unexpired(now)) && Every(q, Fits(limits, cls));
      assert Fits(limits, cls)(q[0]);
      assert BatchSize(limits, q) > 0;
  }

  // ---------------------------------------------------------------- what is accepted

  ghost predicate WellFormed(limits: SchedulerLimits, item: BatchItem) {
    ValidId(item.itemId) && 0 < item.estimatedTokens <= limits.maximumBatchTokens
  }

  /** An unexpired entry with this identity is queued. */
  ghost predicate Occupied(s: Queues, id: string, now: Time) {
    exists p :: (p in s.query || p in s.bulk) && p.item.itemId == id && p.item.deadline > now
  }

  lemma {:induction false} LiveMember(q: seq<PendingItem>, now: Time, p: PendingItem)
    ensures p in Live(q, now) <==> p in q && p.item.deadline > now
  {
    if p in q && p.item.deadline > now {
      var i :| 0 <= i < |q| && q[i] == p;
      var j := KeepIndex(q, Unexpired(now), i);
    } else if p !in q {
      KeepAbsent(q, Unexpired(now), p);
    } else {
      KeepEvery(q, Unexpired(now), Unexpired(now));
    }
  }

  lemma {:induction false} PendingIsOccupied(s: Queues, id: string, now: Time)
    ensures Pending(ExpireQueues(s, now), id) <==> Occupied(s, id, now)
  {
    var live := ExpireQueues(s, now);
    if HasId(live.query, id) {
      var i :| 0 <= i < |live.query| && live.query[i].item.itemId == id;
      LiveMember(s.query, now, live.query[i]);
    }
    if HasId(live.bulk, id) {
      var i :| 0 <= i < |live.bulk| && live.bulk[i].item.itemId == id;
      LiveMember(s.bulk, now, live.bulk[i]);
    }
    if p :| (p in s.query || p in s.bulk) && p.item.itemId == id && p.item.deadline > now {
      LiveMember(s.query, now, p);
      LiveMember(s.bulk, now, p);
      hide Keep;
    }
  }

  /** An item enters its queue, at the end and stamped with the time, exactly when it is well
      formed, not late, not already queued, and its queue has room once the expired entries are
      gone; nothing else about the queues changes.  The status names the first condition broken. */
  lemma {:induction false} EnqueueDecides(limits: SchedulerLimits, s: Queues, item: BatchItem, now: Time)
    ensures
      var cls, s' := item.workClass, EnqueueQueues(limits, s, item, now);
      var other := if cls.Query? then Bulk else Query;
      var q := Live(s.Of(cls), now);
      var room := |q| < if cls.Query? then limits.maximumQueryPending else limits.maximumBulkPending;
      var status := Verdict(limits, ExpireQueues(s, now), item, now);
      var enters := WellFormed(limits, item) && item.deadline > now && !Occupied(s, item.itemId, now) && room;
      && s'.Of(cls) == (if enters then q + [PendingItem(item, now)] else q)
      && s'.Of(other) == Live(s.Of(other), now) && s'.streak == s.streak
      && (status.Accepted? <==> enters)
      && (status.Invalid? <==> !WellFormed(limits, item))
      && (status.Expired? <==> WellFormed(limits, item) && item.deadline <= now)
      && (status.Duplicate? <==> WellFormed(limits, item) && item.deadline > now && Occupied(s, item.itemId, now))
  {
    PendingIsOccupied(s, item.itemId, now);
    hide Keep, Pending, Occupied, ValidId;
  }

  // ---------------------------------------------------------------- query first, bulk in turn

  /** When a batch may leave a queue: it fills a batch, or some unexpired entry has waited its
      time or is about to expire. */
  ghost predicate Pressing(limits: SchedulerLimits, q: seq<PendingItem>, now: Time) {
    || (q != [] && |q| >= limits.maximumBatchItems)
    || exists p :: p in q && (now - p.enqueuedAt >= limits.maximumWait || p.item.deadline - now <= limits.maximumWait)
  }

  lemma {:induction false} ReadyIsPressing(limits: SchedulerLimits, q: seq<PendingItem>, now: Time)
    requires Ordered(q, now)
    ensures Ready(limits, q, now) <==> Pressing(limits, q, now)
  {
    if p :| p in q && (now - p.enqueuedAt >= limits.maximumWait || p.item.deadline - now <= limits.maximumWait) {
      var i :| 0 <= i < |q| && q[i] == p;
      assert i > 0 ==> NotLater()(q[0], q[i]);
      assert q[i].item.deadline - now <= limits.maximumWait || now - q[0].enqueuedAt >= limits.maximumWait;
    }
    if Ready(limits, q, now) {
      if i :| 0 <= i < |q| && q[i].item.deadline - now <= limits.maximumWait {
        assert q[i] in q;
      }
      assert q[0] in q;
    }
  }

  /** What Next hands out: the front of the query queue whenever query work presses, unless bulk
      work presses too and query has had its full run of batches; the front of the bulk queue
      whenever it presses and query does not go first; and otherwise nothing.  The run of query
      batches is counted up to its maximum and ends with a bulk batch. */
  lemma {:induction false} QueryGoesFirst(limits: SchedulerLimits, s: Queues, now: Time)
    requires Sound(limits, s) && Clocked(s, now)
    ensures
      var query, bulk, batch := Live(s.query, now), Live(s.bulk, now), Selected(limits, s, now);
      var s', most := NextQueues(limits, s, now), limits.maximumConsecutiveQueryBatches;
      var choice := Choose(limits, ExpireQueues(s, now), now);
      if Pressing(limits, query, now) && (s.streak < most || !Pressing(limits, bulk, now)) then
        && choice == Chosen(Query) && batch != [] && query == batch + s'.query && s'.bulk == bulk
        && s'.streak == (if s.streak < most then s.streak + 1 else most)
      else if Pressing(limits, bulk, now) then
        choice == Chosen(Bulk) && batch != [] && bulk == batch + s'.bulk && s'.query == query && s'.streak == 0
      else choice == Nothing && batch == [] && s' == Queues(query, bulk, s.streak)
  {
    hide Keep, Ready, Pressing, TakeCount, SoundQueue, Apart, Ordered;
    FilterKeepsClock(s, Unexpired(now), now, now);
    ReadyIsPressing(limits, Live(s.query, now), now);
    ReadyIsPressing(limits, Live(s.bulk, now), now);
    SelectedIsMaximalPrefix(limits, s, now);
  }

  /** How many batches of this class a run hands out. */
  function BatchesOf(limits: SchedulerLimits, s: Queues, ops: seq<Op>, cls: WorkClass): nat
    decreases |ops|
  {
    if ops == [] then 0
    else (if Takes(limits, s, ops[0], cls) then 1 else 0) + BatchesOf(limits, Apply(limits, s, ops[0]), ops[1..], cls)
  }

  predicate Takes(limits: SchedulerLimits, s: Queues, op: Op, cls: WorkClass) {
    op.Next? && var batch := Selected(limits, s, op.now); batch != [] && batch[0].item.workClass == cls
  }

  /** Work of this class presses at every call of Next. */
  ghost predicate AlwaysPressing(limits: SchedulerLimits, s: Queues, ops: seq<Op>, cls: WorkClass)
    decreases |ops|
  {
    ops == []
    || ((ops[0].Next? ==> Pressing(limits, Live(s.Of(cls), ops[0].now), ops[0].now))
        && AlwaysPressing(limits, Apply(limits, s, ops[0]), ops[1..], cls))
  }

  lemma {:induction false} FrontClass(
      limits: SchedulerLimits, s: Queues, now: Time, cls: WorkClass, batch: seq<PendingItem>)
    requires Sound(limits, s) && batch != [] && batch <= Live(s.Of(cls), now)
    ensures batch[0].item.workClass == cls
  {
    KeepEvery(s.Of(cls), Unexpired(now), Fits(limits, cls));
    assert Fits(limits, cls)(Live(s.Of(cls), now)[0]);
  }

  /** While query work presses, a call of Next that takes no bulk batch takes a query batch and
      counts it; bulk work that presses lets it pass only below the maximum. */
  lemma {:induction false} StreakStep(limits: SchedulerLimits, s: Queues, op: Op, clock: Time)
    requires Sound(limits, s) && Clocked(s, clock) && clock <= ClockAfter(clock, op)
    requires op.Next? ==> Pressing(limits, Live(s.query, op.now), op.now)
    ensures
      var s', most := Apply(limits, s, op), limits.maximumConsecutiveQueryBatches;
      && (!op.Next? ==> s'.streak == s.streak && !Takes(limits, s, op, Query))
      && (op.Next? && !Takes(limits, s, op, Bulk) ==>
            && Takes(limits, s, op, Query)
            && s'.streak == (if s.streak < most then s.streak + 1 else most)
            && (Pressing(limits, Live(s.bulk, op.now), op.now) ==> s.streak < most))
      && (op.Next? && Takes(limits, s, op, Bulk) ==> s.streak == most && s'.streak == 0)
  {
    if op.Next? {
      ClockedLater(s, clock, op.now);
      QueryGoesFirst(limits, s, op.now);
      var batch := Selected(limits, s, op.now);
      hide Keep, Pressing, Selected, NextQueues, Clocked;
      if s.streak < limits.maximumConsecutiveQueryBatches || !Pressing(limits, Live(s.bulk, op.now), op.now) {
        FrontClass(limits, s, op.now, Query, batch);
      } else {
        FrontClass(limits, s, op.now, Bulk, batch);
      }
    }
  }

  lemma {:induction false} ClockedLater(s: Queues, clock: Time, later: Time)
    requires Clocked(s, clock) && clock <= later
    ensures Clocked(s, later)
  {
  }

  lemma {:induction false} StreakCounts(limits: SchedulerLimits, s: Queues, ops: seq<Op>, clock: Time)
    requires Sound(limits, s) && Clocked(s, clock) && Monotone(ops, clock)
    requires AlwaysPressing(limits, s, ops, Query) && BatchesOf(limits, s, ops, Bulk) == 0
    ensures
      var n, most := s.streak + BatchesOf(limits, s, ops, Query), limits.maximumConsecutiveQueryBatches;
      && Run(limits, s, ops).streak == (if n < most then n else most)
      && (AlwaysPressing(limits, s, ops, Bulk) ==> n <= most)
    decreases |ops|
  {
    if ops != [] {
      ApplyKeeps(limits, s, ops[0], clock);
      StreakStep(limits, s, ops[0], clock);
      hide Clocked, Pressing, Takes, Apply, Live;
      StreakCounts(limits, Apply(limits, s, ops[0]), ops[1..], ClockAfter(clock, ops[0]));
      hide Sound;
    }
  }

  /** Bulk work takes its turn.  Let a run start after a bulk batch and hand out no other, while
      query work presses at every call of Next; if the next call hands out bulk although query
      work presses, then at least the maximum number of query batches has gone before, and exactly
      that many if bulk work pressed all along. */
  lemma {:induction false} BulkTakesItsTurn(limits: SchedulerLimits, s: Queues, ops: seq<Op>, now: Time, clock: Time)
    requires Sound(limits, s) && Clocked(s, clock) && s.streak == 0
    requires Monotone(ops, clock) && EndClock(clock, ops) <= now
    requires AlwaysPressing(limits, s, ops, Query) && BatchesOf(limits, s, ops, Bulk) == 0
    requires
      var t := Run(limits, s, ops);
      Pressing(limits, Live(t.query, now), now) && Takes(limits, t, Next(now), Bulk)
    ensures BatchesOf(limits, s, ops, Query) >= limits.maximumConsecutiveQueryBatches
    ensures AlwaysPressing(limits, s, ops, Bulk) ==>
        BatchesOf(limits, s, ops, Query) == limits.maximumConsecutiveQueryBatches
  {
    RunKeeps(limits, s, ops, clock);
    StreakCounts(limits, s, ops, clock);
    StreakStep(limits, Run(limits, s, ops), Next(now), EndClock(clock, ops));
  }

  // ---------------------------------------------------------------- wakeup

  ghost predicate SomeReady(limits: SchedulerLimits, s: Queues, t: Time) {
    Ready(limits, s.query, t) || Ready(limits, s.bulk, t)
  }

  lemma {:induction false} ReadyBeforeExpiry(limits: SchedulerLimits, q: seq<PendingItem>, t: Time)
    requires Ordered(q, t) && limits.Positive()
    ensures Gone(q, t) == [] ==> Live(q, t) == q
    ensures Gone(q, t) != [] ==> Ready(limits, q, t)
  {
    if i :| 0 <= i < |q| && Overdue(t)(q[i]) {
      var _ := KeepIndex(q, Overdue(t), i);
      assert q[i].item.deadline - t <= limits.maximumWait;
    } else {
      assert Every(q, Unexpired(t));
      KeepAll(q, Unexpired(t));
      KeepNone(q, Overdue(t));
    }
  }

  /** Calling Next at `t` selects or expires something exactly when some queue is ready at `t`.
      With an exact wakeup this says: a worker that sleeps until the wakeup misses nothing, and
      one that calls Next at the wakeup never calls it in vain. */
  lemma {:induction false} NextProgressesIffReady(limits: SchedulerLimits, s: Queues, t: Time)
    requires Sound(limits, s) && Clocked(s, t)
    ensures SomeReady(limits, s, t)
      <==> Selected(limits, s, t) != [] || Gone(s.query, t) != [] || Gone(s.bulk, t) != []
  {
    SelectedIsMaximalPrefix(limits, s, t);
    ReadyBeforeExpiry(limits, s.query, t);
    ReadyBeforeExpiry(limits, s.bulk, t);
  }

  // ---------------------------------------------------------------- no starvation

  function CountNext(ops: seq<Op>): nat {
    if ops == [] then 0 else (if ops[0].Next? then 1 else 0) + CountNext(ops[1..])
  }

  /** How many calls of Next can still pass over the entry at position `p` of the bulk queue. */
  function Patience(limits: SchedulerLimits, streak: nat, p: nat): int {
    p * (limits.maximumConsecutiveQueryBatches + 1) + limits.maximumConsecutiveQueryBatches - streak
  }

  lemma {:induction false} PatienceFalls(limits: SchedulerLimits, streak: nat, streak': nat, p: nat, p': nat)
    requires streak <= limits.maximumConsecutiveQueryBatches
    requires p' < p || (p' == p && streak' >= streak)
    ensures Patience(limits, streak', p') <= Patience(limits, streak, p)
    ensures p' < p || streak' > streak ==> Patience(limits, streak', p') < Patience(limits, streak, p)
  {
    var k := limits.maximumConsecutiveQueryBatches + 1;
    if p' < p {
      assert p' * k <= (p - 1) * k == p * k - k;
    }
  }

  /** An entry that once left the bulk queue stays out: entries are stamped with their enqueue
      time, and later enqueues bear later times. */
  lemma {:induction false} StaysOut(limits: SchedulerLimits, s: Queues, op: Op, x: PendingItem, clock: Time)
    requires x !in s.bulk && x.enqueuedAt < ClockAfter(clock, op)
    ensures x !in Apply(limits, s, op).bulk
  {
    match op
    case Enqueue(item, now) =>
      KeepAbsent(s.bulk, Unexpired(now), x);
    case Cancel(id) =>
      KeepAbsent(s.bulk, NotNamed(id), x);
    case Next(now) =>
      KeepAbsent(s.bulk, Unexpired(now), x);
  }

  lemma {:induction false} StaysOutForever(
      limits: SchedulerLimits, s: Queues, ops: seq<Op>, x: PendingItem, clock: Time)
    requires x !in s.bulk && x.enqueuedAt < clock && Monotone(ops, clock)
    ensures x !in Run(limits, s, ops).bulk
    decreases |ops|
  {
    if ops != [] {
      StaysOut(limits, s, ops[0], x, clock);
      StaysOutForever(limits, Apply(limits, s, ops[0]), ops[1..], x, ClockAfter(clock, ops[0]));
    }
  }

  /** Dispatching from a queue moves the entries that stay up by the size of the batch. */
  lemma {:induction false} DispatchMovesUp(limits: SchedulerLimits, s: Queues, p: nat)
    requires Sound(limits, s) && p < |s.bulk| && s.bulk[p] in Dispatch(limits, s, Bulk).bulk
    ensures
      var n := BatchSize(limits, s.bulk);
      n <= p && Dispatch(limits, s, Bulk).bulk[p - n] == s.bulk[p]
  {
    hide TakeCount;
    var n := BatchSize(limits, s.bulk);
    forall k | p < k < |s.bulk| ensures s.bulk[k] != s.bulk[p] {
      assert OtherId()(s.bulk[p], s.bulk[k]);
    }
  }

  /** An entry that has waited its time and is not expired makes the bulk queue ready: the
      front entry has waited at least as long. */
  lemma {:induction false} WaitedIsReady(limits: SchedulerLimits, q: seq<PendingItem>, p: nat, now: Time)
    requires Ordered(q, now) && p < |q| && now - q[p].enqueuedAt >= limits.maximumWait
    ensures Ready(limits, q, now)
  {
    assert p > 0 ==> NotLater()(q[0], q[p]);
  }

  /** A call of Next, with an entry in the bulk queue that has waited its time and stays: either
      the entry moves up, or one more of the allowed consecutive query batches is used. */
  lemma {:induction false} NextOvertakes(limits: SchedulerLimits, s: Queues, now: Time, p: nat, clock: Time)
      returns (p': nat)
    requires Sound(limits, s) && Clocked(s, clock) && clock <= now
    requires p < |s.bulk| && now - s.bulk[p].enqueuedAt >= limits.maximumWait
    requires s.bulk[p] in NextQueues(limits, s, now).bulk
    ensures
      var s' := NextQueues(limits, s, now);
      && p' < |s'.bulk| && s'.bulk[p'] == s.bulk[p]
      && Patience(limits, s'.streak, p') < Patience(limits, s.streak, p)
  {
    var s', live := NextQueues(limits, s, now), ExpireQueues(s, now);
    FilterKeeps(limits, s, Unexpired(now));
    FilterKeepsClock(s, Unexpired(now), clock, now);
    SelectedIsMaximalPrefix(limits, s, now);
    assert s.bulk[p] in live.bulk;
    KeepEvery(s.bulk, Unexpired(now), Unexpired(now));
    assert Unexpired(now)(s.bulk[p]);
    p' := KeepIndex(s.bulk, Unexpired(now), p);
    hide Keep, TakeCount, Sound, Ready;
    WaitedIsReady(limits, live.bulk, p', now);
    if Choose(limits, live, now) == Chosen(Bulk) {
      DispatchMovesUp(limits, live, p');
      p' := p' - BatchSize(limits, live.bulk);
    }
    PatienceFalls(limits, s.streak, s'.streak, p, p');
  }

  /** The other operations do not move the entry back. */
  lemma {:induction false} OtherOvertakes(limits: SchedulerLimits, s: Queues, op: Op, p: nat)
      returns (p': nat)
    requires !op.Next? && s.streak <= limits.maximumConsecutiveQueryBatches
    requires p < |s.bulk| && s.bulk[p] in Apply(limits, s, op).bulk
    requires op.Enqueue? ==> s.bulk[p].enqueuedAt < op.now
    ensures
      var s' := Apply(limits, s, op);
      && p' < |s'.bulk| && s'.bulk[p'] == s.bulk[p]
      && Patience(limits, s'.streak, p') <= Patience(limits, s.streak, p)
  {
    var f := if op.Enqueue? then Unexpired(op.now) else NotNamed(op.id);
    KeepEvery(s.bulk, f, f);
    assert f(s.bulk[p]);
    p' := KeepIndex(s.bulk, f, p);
    PatienceFalls(limits, s.streak, s.streak, p, p');
  }

  /** No starvation.  Take a bulk entry with `p` entries ahead of it that has waited
      `maximumWait` by the time a run starts.  Whatever the run enqueues and cancels, if the
      entry is still queued at the end, the run called Next fewer than
      (p + 1) * (maximumConsecutiveQueryBatches + 1) times. */
  lemma {:induction false} BulkIsNotStarved(limits: SchedulerLimits, s: Queues, ops: seq<Op>, p: nat, clock: Time)
    requires Sound(limits, s) && Clocked(s, clock) && Monotone(ops, clock)
    requires p < |s.bulk| && clock - s.bulk[p].enqueuedAt >= limits.maximumWait
    requires s.bulk[p] in Run(limits, s, ops).bulk
    ensures CountNext(ops) <= Patience(limits, s.streak, p)
    ensures CountNext(ops) < (p + 1) * (limits.maximumConsecutiveQueryBatches + 1)
    decreases |ops|
  {
    if ops == [] {
      assert p * (limits.maximumConsecutiveQueryBatches + 1) >= 0;
    } else {
      var x, op, rest := s.bulk[p], ops[0], ops[1..];
      var next, later := Apply(limits, s, op), ClockAfter(clock, op);
      ApplyKeeps(limits, s, op, clock);
      if x !in next.bulk {
        StaysOutForever(limits, next, rest, x, later);
        assert false;
      }
      var p';
      if op.Next? {
        p' := NextOvertakes(limits, s, op.now, p, clock);
      } else {
        p' := OtherOvertakes(limits, s, op, p);
      }
      BulkIsNotStarved(limits, next, rest, p', later);
    }
    assert (p + 1) * (limits.maximumConsecutiveQueryBatches + 1)
        == Patience(limits, s.streak, p) + 1 + s.streak;
  }
}
