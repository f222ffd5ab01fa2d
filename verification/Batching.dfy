/** The native batch scheduler itself: two lists, two deadline multimaps and the table of
    locators that ties them together, all updated in place.

    A list or multimap iterator is modelled as the handle of its node.  Every method is proved
    to compute the corresponding function of module Scheduling, and to keep the three
    structures in bijection, so that the lookups the C++ code aborts on never fail. */
module Batching {
  import opened Scheduling

  /** A node of a linked container; its handle is what an iterator to it holds. */
  datatype Node<T> = Node(handle: nat, value: T)

  datatype Deadline = Deadline(time: Time, itemId: string)

  datatype Locator = Locator(workClass: WorkClass, queued: nat, deadline: nat)

  type Queue = seq<Node<PendingItem>>
  type Deadlines = seq<Node<Deadline>>

  // ---------------------------------------------------------------- containers

  /** Erases the node an iterator points to. */
  function Erase<T>(s: seq<Node<T>>, handle: nat): seq<Node<T>> {
    if s == [] then []
    else if s[0].handle == handle then s[1..]
    else [s[0]] + Erase(s[1..], handle)
  }

  /** The sequence without its element at `i`. */
  function Omit<T>(s: seq<T>, i: nat): (r: seq<T>)
    requires i < |s|
    ensures |r| == |s| - 1
    ensures forall k :: 0 <= k < |r| ==> r[k] == s[if k < i then k else k + 1]
  {
    s[..i] + s[i + 1..]
  }

  predicate Dereferenceable<T>(s: seq<Node<T>>, handle: nat) {
    exists k :: 0 <= k < |s| && s[k].handle == handle
  }

  /** The node an iterator points to. */
  function Deref<T>(s: seq<Node<T>>, handle: nat): (i: nat)
    requires Dereferenceable(s, handle)
    ensures i < |s| && s[i].handle == handle
  {
    if s[0].handle == handle then 0
    else
      assert Dereferenceable(s[1..], handle) by {
        var k :| 0 <= k < |s| && s[k].handle == handle;
        assert s[1..][k - 1].handle == handle;
      }
      1 + Deref(s[1..], handle)
  }

  /** Multimap insertion: after the entries with the same key. */
  function Emplace(d: Deadlines, n: Node<Deadline>): Deadlines {
    if d == [] || d[0].value.time > n.value.time then [n] + d
    else [d[0]] + Emplace(d[1..], n)
  }

  ghost predicate Sorted(d: Deadlines) {
    forall i, j :: 0 <= i < j < |d| ==> d[i].value.time <= d[j].value.time
  }

  ghost predicate Handles<T>(s: seq<Node<T>>, bound: nat) {
    && (forall i :: 0 <= i < |s| ==> s[i].handle < bound)
    && (forall i, j :: 0 <= i < j < |s| ==> s[i].handle != s[j].handle)
  }

  lemma {:induction false} EraseAt<T>(s: seq<Node<T>>, i: nat, bound: nat)
    requires Handles(s, bound) && i < |s|
    ensures Erase(s, s[i].handle) == Omit(s, i)
  {
    if i == 0 {
      assert Omit(s, 0) == s[1..];
    } else {
      var tail := s[1..];
      assert tail[i - 1] == s[i] && s[0].handle != s[i].handle;
      EraseAt(tail, i - 1, bound);
      assert Omit(s, i) == [s[0]] + Omit(tail, i - 1);
    }
  }

  lemma {:induction false} DerefAt<T>(s: seq<Node<T>>, i: nat, bound: nat)
    requires Handles(s, bound) && i < |s|
    ensures Deref(s, s[i].handle) == i
  {
  }

  lemma {:induction false} OmitHandles<T>(s: seq<Node<T>>, i: nat, bound: nat)
    requires Handles(s, bound) && i < |s|
    ensures Handles(Omit(s, i), bound)
  {
  }

  lemma {:induction false} EmplaceAt(d: Deadlines, n: Node<Deadline>) returns (k: nat)
    requires Sorted(d)
    ensures k <= |d| && Emplace(d, n) == d[..k] + [n] + d[k..]
    ensures forall i :: 0 <= i < k ==> d[i].value.time <= n.value.time
    ensures forall i :: k <= i < |d| ==> n.value.time < d[i].value.time
  {
    if d == [] || d[0].value.time > n.value.time {
      k := 0;
    } else {
      k := EmplaceAt(d[1..], n);
      k := k + 1;
      assert d[..k] + [n] + d[k..] == [d[0]] + (d[1..][..k - 1] + [n] + d[1..][k - 1..]);
    }
  }

  function Values(q: Queue): (r: seq<PendingItem>)
    ensures |r| == |q|
    ensures forall i :: 0 <= i < |q| ==> r[i] == q[i].value
  {
    seq(|q|, i requires 0 <= i < |q| => q[i].value)
  }

  // ---------------------------------------------------------------- the links

  ghost predicate Located(q: Queue, pending: map<string, Locator>, cls: WorkClass) {
    forall i :: 0 <= i < |q| ==>
      && q[i].value.item.itemId in pending
      && pending[q[i].value.item.itemId].workClass == cls
      && pending[q[i].value.item.itemId].queued == q[i].handle
  }

  ghost predicate Timed(d: Deadlines, pending: map<string, Locator>, cls: WorkClass) {
    && Sorted(d)
    && (forall j :: 0 <= j < |d| ==>
        && d[j].value.itemId in pending
        && pending[d[j].value.itemId].workClass == cls
        && pending[d[j].value.itemId].deadline == d[j].handle)
  }

  ghost predicate InQueue(q: Queue, id: string, handle: nat, deadline: Time) {
    exists i :: 0 <= i < |q| && q[i].handle == handle
      && q[i].value.item.itemId == id && q[i].value.item.deadline == deadline
  }

  ghost predicate InDeadlines(d: Deadlines, id: string, handle: nat, deadline: Time) {
    exists j :: 0 <= j < |d| && d[j].handle == handle && d[j].value == Deadline(deadline, id)
  }

  /** A locator points to a list node and a deadline node of its own item, with one deadline. */
  ghost predicate Resolves(q: Queue, d: Deadlines, id: string, loc: Locator) {
    exists t :: InQueue(q, id, loc.queued, t) && InDeadlines(d, id, loc.deadline, t)
  }

  ghost predicate Resolved(q: Queue, d: Deadlines, pending: map<string, Locator>, cls: WorkClass) {
    forall id :: id in pending && pending[id].workClass == cls ==> Resolves(q, d, id, pending[id])
  }

  /** List, deadline multimap and locators of one class are in bijection. */
  ghost predicate Linked(q: Queue, d: Deadlines, pending: map<string, Locator>, cls: WorkClass, bound: nat) {
    && Handles(q, bound) && Handles(d, bound)
    && Located(q, pending, cls) && Timed(d, pending, cls)
    && Resolved(q, d, pending, cls)
  }

  lemma {:induction false} Follow(
      q: Queue, d: Deadlines, pending: map<string, Locator>, cls: WorkClass, bound: nat, id: string)
      returns (i: nat, j: nat)
    requires Linked(q, d, pending, cls, bound) && id in pending && pending[id].workClass == cls
    ensures i < |q| && q[i].handle == pending[id].queued && q[i].value.item.itemId == id
    ensures j < |d| && d[j].handle == pending[id].deadline
    ensures d[j].value == Deadline(q[i].value.item.deadline, id)
  {
    assert Resolves(q, d, id, pending[id]);
    var t :| InQueue(q, id, pending[id].queued, t) && InDeadlines(d, id, pending[id].deadline, t);
    i :| 0 <= i < |q| && q[i].handle == pending[id].queued
      && q[i].value.item.itemId == id && q[i].value.item.deadline == t;
    j :| 0 <= j < |d| && d[j].handle == pending[id].deadline && d[j].value == Deadline(t, id);
  }

  lemma {:induction false} OmitLocated(q: Queue, pending: map<string, Locator>, cls: WorkClass, i: nat, bound: nat)
    requires Located(q, pending, cls) && Handles(q, bound) && i < |q|
    ensures Located(Omit(q, i), pending - {q[i].value.item.itemId}, cls)
  {
    var q', id := Omit(q, i), q[i].value.item.itemId;
    forall k | 0 <= k < |q'| ensures q'[k].value.item.itemId != id {
      var m := if k < i then k else k + 1;
      assert q'[k] == q[m] && q[m].handle != q[i].handle;
    }
  }

  lemma {:induction false} OmitTimed(d: Deadlines, pending: map<string, Locator>, cls: WorkClass, j: nat, bound: nat)
    requires Timed(d, pending, cls) && Handles(d, bound) && j < |d|
    ensures Timed(Omit(d, j), pending - {d[j].value.itemId}, cls)
  {
    var d', id := Omit(d, j), d[j].value.itemId;
    forall k | 0 <= k < |d'| ensures d'[k].value.itemId != id {
      var m := if k < j then k else k + 1;
      assert d'[k] == d[m] && d[m].handle != d[j].handle;
    }
  }

  lemma {:induction false} OmitResolved(
      q: Queue, d: Deadlines, pending: map<string, Locator>, cls: WorkClass, bound: nat, id: string, i: nat, j: nat)
    requires Linked(q, d, pending, cls, bound)
    requires i < |q| && q[i].value.item.itemId == id
    requires j < |d| && d[j].value.itemId == id
    ensures Resolved(Omit(q, i), Omit(d, j), pending - {id}, cls)
  {
    var q', d', pending' := Omit(q, i), Omit(d, j), pending - {id};
    forall other | other in pending' && pending'[other].workClass == cls
      ensures Resolves(q', d', other, pending'[other])
    {
      var a, b := Follow(q, d, pending, cls, bound, other);
      var t := q[a].value.item.deadline;
      assert q'[if a < i then a else a - 1] == q[a];
      assert d'[if b < j then b else b - 1] == d[b];
      assert InQueue(q', other, pending[other].queued, t);
      assert InDeadlines(d', other, pending[other].deadline, t);
    }
  }

  /** Erasing an item through its locator keeps its class linked and takes out its entry. */
  lemma {:induction false} UnlinkKeeps(
      q: Queue, d: Deadlines, pending: map<string, Locator>, cls: WorkClass, bound: nat, id: string)
      returns (i: nat)
    requires Linked(q, d, pending, cls, bound) && id in pending && pending[id].workClass == cls
    ensures i < |q| && q[i].handle == pending[id].queued && q[i].value.item.itemId == id
    ensures Linked(Erase(q, pending[id].queued), Erase(d, pending[id].deadline), pending - {id}, cls, bound)
    ensures Values(Erase(q, pending[id].queued)) == Omit(Values(q), i)
  {
    var j;
    i, j := Follow(q, d, pending, cls, bound, id);
    EraseAt(q, i, bound);
    EraseAt(d, j, bound);
    OmitHandles(q, i, bound);
    OmitHandles(d, j, bound);
    OmitLocated(q, pending, cls, i, bound);
    OmitTimed(d, pending, cls, j, bound);
    OmitResolved(q, d, pending, cls, bound, id, i, j);
    assert Values(Omit(q, i)) == Omit(Values(q), i);
  }

  lemma {:induction false} UnlinkKeepsOther(
      q: Queue, d: Deadlines, pending: map<string, Locator>, cls: WorkClass, bound: nat, id: string)
    requires Linked(q, d, pending, cls, bound)
    requires id in pending && pending[id].workClass != cls
    ensures Linked(q, d, pending - {id}, cls, bound)
  {
    var pending' := pending - {id};
    forall other | other in pending' && pending'[other].workClass == cls
      ensures Resolves(q, d, other, pending'[other])
    {
      assert Resolves(q, d, other, pending[other]);
    }
  }

  lemma {:induction false} LinkKeepsOther(
      q: Queue, d: Deadlines, pending: map<string, Locator>, cls: WorkClass, bound: nat, id: string, loc: Locator)
    requires Linked(q, d, pending, cls, bound)
    requires id !in pending && loc.workClass != cls
    ensures Linked(q, d, pending[id := loc], cls, bound + 1)
  {
    var pending' := pending[id := loc];
    forall other | other in pending' && pending'[other].workClass == cls
      ensures Resolves(q, d, other, pending'[other])
    {
      assert Resolves(q, d, other, pending[other]);
    }
  }

  lemma {:induction false} EmplaceHandles(d: Deadlines, n: Node<Deadline>, k: nat)
    requires Handles(d, n.handle) && k <= |d|
    ensures Handles(d[..k] + [n] + d[k..], n.handle + 1)
  {
  }

  lemma {:induction false} EmplaceContains(d: Deadlines, n: Node<Deadline>, k: nat)
    requires k <= |d|
    ensures (d[..k] + [n] + d[k..])[k] == n
    ensures forall j :: 0 <= j < |d| ==> d[j] in d[..k] + [n] + d[k..]
  {
    forall j | 0 <= j < |d| ensures d[j] in d[..k] + [n] + d[k..] {
      assert (d[..k] + [n] + d[k..])[if j < k then j else j + 1] == d[j];
    }
  }

  lemma {:induction false} EmplaceTimed(
      d: Deadlines, pending: map<string, Locator>, cls: WorkClass, n: Node<Deadline>, loc: Locator, k: nat)
    requires Timed(d, pending, cls) && n.value.itemId !in pending
    requires loc.workClass == cls && loc.deadline == n.handle
    requires k <= |d|
    requires forall i :: 0 <= i < k ==> d[i].value.time <= n.value.time
    requires forall i :: k <= i < |d| ==> n.value.time < d[i].value.time
    ensures Timed(d[..k] + [n] + d[k..], pending[n.value.itemId := loc], cls)
  {
    var d', pending' := d[..k] + [n] + d[k..], pending[n.value.itemId := loc];
    assert forall a :: 0 <= a < |d'| ==> d'[a] == if a < k then d[a] else if a == k then n else d[a - 1];
  }

  lemma {:induction false} AppendLocated(
      q: Queue, pending: map<string, Locator>, cls: WorkClass, bound: nat, p: PendingItem)
    requires Located(q, pending, cls) && Handles(q, bound) && p.item.itemId !in pending
    ensures Located(q + [Node(bound, p)], pending[p.item.itemId := Locator(cls, bound, bound)], cls)
    ensures Handles(q + [Node(bound, p)], bound + 1)
  {
  }

  lemma {:induction false} LinkResolves(
      q: Queue, d: Deadlines, pending: map<string, Locator>, cls: WorkClass, bound: nat, q': Queue, d': Deadlines,
      id: string)
    requires Linked(q, d, pending, cls, bound) && id in pending && pending[id].workClass == cls
    requires forall i :: 0 <= i < |q| ==> q[i] in q'
    requires forall j :: 0 <= j < |d| ==> d[j] in d'
    ensures Resolves(q', d', id, pending[id])
  {
    var a, b := Follow(q, d, pending, cls, bound, id);
    assert InQueue(q', id, pending[id].queued, q[a].value.item.deadline);
    assert InDeadlines(d', id, pending[id].deadline, q[a].value.item.deadline);
  }

  lemma {:induction false} LinkResolved(
      q: Queue, d: Deadlines, pending: map<string, Locator>, cls: WorkClass, bound: nat, q': Queue, d': Deadlines,
      id: string, t: Time)
    requires Linked(q, d, pending, cls, bound)
    requires forall i :: 0 <= i < |q| ==> q[i] in q'
    requires forall j :: 0 <= j < |d| ==> d[j] in d'
    requires InQueue(q', id, bound, t) && InDeadlines(d', id, bound, t)
    ensures Resolved(q', d', pending[id := Locator(cls, bound, bound)], cls)
  {
    var pending' := pending[id := Locator(cls, bound, bound)];
    hide Linked, InQueue, InDeadlines;
    forall other | other in pending' && pending'[other].workClass == cls
      ensures Resolves(q', d', other, pending'[other])
    {
      if other != id {
        LinkResolves(q, d, pending, cls, bound, q', d', other);
      }
    }
  }

  lemma {:induction false} LinkKeeps(
      q: Queue, d: Deadlines, pending: map<string, Locator>, cls: WorkClass, bound: nat, p: PendingItem)
    requires Linked(q, d, pending, cls, bound)
    requires p.item.itemId !in pending
    ensures
      var id := p.item.itemId;
      Linked(q + [Node(bound, p)], Emplace(d, Node(bound, Deadline(p.item.deadline, id))),
             pending[id := Locator(cls, bound, bound)], cls, bound + 1)
  {
    var id, t := p.item.itemId, p.item.deadline;
    var n := Node(bound, Deadline(t, id));
    var q', d' := q + [Node(bound, p)], Emplace(d, n);
    var k := EmplaceAt(d, n);
    hide Handles, Located, Timed, Resolved, Emplace;
    AppendLocated(q, pending, cls, bound, p);
    EmplaceHandles(d, n, k);
    EmplaceTimed(d, pending, cls, n, Locator(cls, bound, bound), k);
    EmplaceContains(d, n, k);
    assert q'[|q|] == Node(bound, p);
    assert InQueue(q', id, bound, t) && InDeadlines(d', id, bound, t);
    LinkResolved(q, d, pending, cls, bound, q', d', id, t);
  }

  /** Every queued deadline stands in the multimap, so its first entry is the least. */
  lemma {:induction false} FirstDeadlineIsLeast(
      q: Queue, d: Deadlines, pending: map<string, Locator>, cls: WorkClass, bound: nat)
    requires Linked(q, d, pending, cls, bound)
    ensures q == [] <==> d == []
    ensures d != [] ==>
      && (forall i :: 0 <= i < |q| ==> d[0].value.time <= q[i].value.item.deadline)
      && (exists i :: 0 <= i < |q| && d[0].value.time == q[i].value.item.deadline)
  {
    if d != [] {
      var a, b := Follow(q, d, pending, cls, bound, d[0].value.itemId);
      assert b == 0;
      assert d[0].value.time == q[a].value.item.deadline;
    }
    if q != [] {
      var _, _ := Follow(q, d, pending, cls, bound, q[0].value.item.itemId);
    }
    forall i | 0 <= i < |q| ensures d != [] && d[0].value.time <= q[i].value.item.deadline {
      var a, b := Follow(q, d, pending, cls, bound, q[i].value.item.itemId);
      assert a == i;
    }
  }

  /** The first deadline names a queued item, and that item has the least deadline. */
  lemma {:induction false} FirstDeadlineResolves(
      q: Queue, d: Deadlines, pending: map<string, Locator>, cls: WorkClass, bound: nat)
    requires Linked(q, d, pending, cls, bound) && d != []
    ensures d[0].value.itemId in pending && pending[d[0].value.itemId].workClass == cls
    ensures forall i :: 0 <= i < |q| ==>
                          q[i].handle == pending[d[0].value.itemId].queued ==>
                            q[i].value.item.deadline == d[0].value.time
    ensures forall i :: 0 <= i < |q| ==> d[0].value.time <= q[i].value.item.deadline
  {
    FirstDeadlineIsLeast(q, d, pending, cls, bound);
    var a, b := Follow(q, d, pending, cls, bound, d[0].value.itemId);
    assert b == 0;
  }

  // ---------------------------------------------------------------- removing one entry

  /** Taking out the entry at `i` is what filtering by its identity does. */
  lemma {:induction false} RemoveIsFilter(v: seq<PendingItem>, i: nat)
    requires Pairwise(v, OtherId()) && i < |v|
    ensures Omit(v, i) == Keep(v, NotNamed(v[i].item.itemId))
  {
    var id := v[i].item.itemId;
    if i == 0 {
      forall k | 0 <= k < |v[1..]| ensures NotNamed(id)(v[1..][k]) { assert OtherId()(v[0], v[k + 1]); }
      KeepAll(v[1..], NotNamed(id));
    } else {
      assert OtherId()(v[0], v[i]);
      RemoveIsFilter(v[1..], i - 1);
      assert Omit(v, i) == [v[0]] + Omit(v[1..], i - 1);
    }
  }

  lemma {:induction false} AbsentIsUnfiltered(v: seq<PendingItem>, id: string)
    requires !HasId(v, id)
    ensures Keep(v, NotNamed(id)) == v
  {
    KeepAll(v, NotNamed(id));
  }

  /** Taking out an overdue entry changes nothing that is live, and one entry of what is gone. */
  lemma {:induction false} RemoveOverdue(v: seq<PendingItem>, i: nat, now: Time)
    requires i < |v| && v[i].item.deadline <= now
    ensures
      var v' := Omit(v, i);
      && Live(v', now) == Live(v, now)
      && multiset(Items(Gone(v, now))) == multiset(Items(Gone(v', now))) + multiset{v[i].item}
  {
    var a, x, b := v[..i], [v[i]], v[i + 1..];
    assert v == a + (x + b);
    KeepConcat(a, x + b, Unexpired(now));
    KeepConcat(x, b, Unexpired(now));
    KeepConcat(a, b, Unexpired(now));
    KeepConcat(a, x + b, Overdue(now));
    KeepConcat(x, b, Overdue(now));
    KeepConcat(a, b, Overdue(now));
    ItemsConcat(Gone(a, now), x + Gone(b, now));
    ItemsConcat(x, Gone(b, now));
    ItemsConcat(Gone(a, now), Gone(b, now));
    assert Items(x) == [v[i].item];
  }

  // ---------------------------------------------------------------- the whole state

  /** The scheduler's fields, as one value. */
  datatype Wires = Wires(
    query: Queue,
    bulk: Queue,
    queryDeadlines: Deadlines,
    bulkDeadlines: Deadlines,
    pending: map<string, Locator>,
    streak: nat,
    bound: nat)
  {
    function Q(cls: WorkClass): Queue { if cls.Query? then query else bulk }

    function D(cls: WorkClass): Deadlines { if cls.Query? then queryDeadlines else bulkDeadlines }

    function With(cls: WorkClass, q: Queue, d: Deadlines): Wires {
      if cls.Query? then this.(query := q, queryDeadlines := d) else this.(bulk := q, bulkDeadlines := d)
    }

    function Abs(): Queues { Queues(Values(query), Values(bulk), streak) }

    ghost predicate InStep(cls: WorkClass) {
      Linked(Q(cls), D(cls), pending, cls, bound)
    }
  }

  /** The invariant of the class. */
  ghost predicate Consistent(limits: SchedulerLimits, w: Wires) {
    w.InStep(Query) && w.InStep(Bulk) && Sound(limits, w.Abs())
  }

  lemma {:induction false} PendingIsQueuedIn(w: Wires, cls: WorkClass, id: string)
    requires w.InStep(cls)
    ensures id in w.pending && w.pending[id].workClass == cls <==> HasId(w.Abs().Of(cls), id)
  {
    if id in w.pending && w.pending[id].workClass == cls {
      var i, _ := Follow(w.Q(cls), w.D(cls), w.pending, cls, w.bound, id);
      assert w.Abs().Of(cls)[i].item.itemId == id;
    }
  }

  /** The locator table has exactly the queued identities. */
  lemma {:induction false} PendingIsQueued(limits: SchedulerLimits, w: Wires, id: string)
    requires Consistent(limits, w)
    ensures id in w.pending <==> Scheduling.Pending(w.Abs(), id)
  {
    hide Linked, Sound;
    PendingIsQueuedIn(w, Query, id);
    PendingIsQueuedIn(w, Bulk, id);
  }

  /** All three structures without the item `id`, erased through its locator. */
  function Unlinked(w: Wires, id: string): Wires
    requires id in w.pending
  {
    var loc := w.pending[id];
    w.With(loc.workClass, Erase(w.Q(loc.workClass), loc.queued), Erase(w.D(loc.workClass), loc.deadline))
     .(pending := w.pending - {id})
  }

  lemma {:induction false} UnlinkedKeeps(limits: SchedulerLimits, w: Wires, id: string) returns (i: nat)
    requires Consistent(limits, w) && id in w.pending
    ensures
      var cls := w.pending[id].workClass;
      var q := w.Q(cls);
      && i < |q| && q[i].handle == w.pending[id].queued && q[i].value.item.itemId == id
      && Deref(q, w.pending[id].queued) == i
      && Unlinked(w, id).InStep(Query) && Unlinked(w, id).InStep(Bulk)
      && Values(Unlinked(w, id).Q(cls)) == Omit(Values(q), i)
  {
    var cls := w.pending[id].workClass;
    var other := if cls.Query? then Bulk else Query;
    i := UnlinkKeeps(w.Q(cls), w.D(cls), w.pending, cls, w.bound, id);
    UnlinkKeepsOther(w.Q(other), w.D(other), w.pending, other, w.bound, id);
    DerefAt(w.Q(cls), i, w.bound);
  }

  lemma {:induction false} UnlinkedIsCancelled(limits: SchedulerLimits, w: Wires, id: string, i: nat)
    requires Consistent(limits, w) && id in w.pending
    requires
      var cls := w.pending[id].workClass;
      && i < |w.Q(cls)| && w.Q(cls)[i].value.item.itemId == id
      && Values(Unlinked(w, id).Q(cls)) == Omit(Values(w.Q(cls)), i)
    ensures Unlinked(w, id).Abs() == CancelQueues(w.Abs(), id)
    ensures Sound(limits, Unlinked(w, id).Abs())
  {
    var cls := w.pending[id].workClass;
    var other := if cls.Query? then Bulk else Query;
    RemoveIsFilter(Values(w.Q(cls)), i);
    PendingIsQueuedIn(w, other, id);
    AbsentIsUnfiltered(Values(w.Q(other)), id);
    FilterKeeps(limits, w.Abs(), NotNamed(id));
  }

  /** Unlinking an item keeps the invariant, and takes exactly that entry out. */
  lemma {:induction false} Unlink(limits: SchedulerLimits, w: Wires, id: string) returns (i: nat)
    requires Consistent(limits, w) && id in w.pending
    ensures Consistent(limits, Unlinked(w, id))
    ensures Unlinked(w, id).Abs() == CancelQueues(w.Abs(), id)
    ensures
      var cls := w.pending[id].workClass;
      var q := w.Q(cls);
      && i < |q| && q[i].value.item.itemId == id && Deref(q, w.pending[id].queued) == i
      && q[i].handle == w.pending[id].queued
      && Unlinked(w, id).Abs() == w.Abs().With(cls, Omit(w.Abs().Of(cls), i))
  {
    i := UnlinkedKeeps(limits, w, id);
    UnlinkedIsCancelled(limits, w, id, i);
  }

  /** All three structures with a new item, at the back of its queue. */
  function LinkedIn(w: Wires, p: PendingItem): Wires {
    var id, cls := p.item.itemId, p.item.workClass;
    w.With(cls, w.Q(cls) + [Node(w.bound, p)], Emplace(w.D(cls), Node(w.bound, Deadline(p.item.deadline, id))))
     .(pending := w.pending[id := Locator(cls, w.bound, w.bound)], bound := w.bound + 1)
  }

  lemma {:induction false} LinkInStep(w: Wires, p: PendingItem)
    requires w.InStep(Query) && w.InStep(Bulk) && p.item.itemId !in w.pending
    ensures LinkedIn(w, p).InStep(Query) && LinkedIn(w, p).InStep(Bulk)
  {
    var cls := p.item.workClass;
    var other := if cls.Query? then Bulk else Query;
    LinkKeeps(w.Q(cls), w.D(cls), w.pending, cls, w.bound, p);
    LinkKeepsOther(w.Q(other), w.D(other), w.pending, other, w.bound, p.item.itemId, Locator(cls, w.bound, w.bound));
  }

  lemma {:induction false} Link(limits: SchedulerLimits, w: Wires, item: BatchItem, now: Time)
    requires Consistent(limits, w) && Verdict(limits, w.Abs(), item, now).Accepted?
    ensures Consistent(limits, LinkedIn(w, PendingItem(item, now)))
    ensures LinkedIn(w, PendingItem(item, now)).Abs() == Admit(w.Abs(), item, now)
  {
    var p, cls := PendingItem(item, now), item.workClass;
    hide Linked, Sound;
    PendingIsQueued(limits, w, item.itemId);
    LinkInStep(w, p);
    AdmitKeeps(limits, w.Abs(), item, now);
    assert Values(w.Q(cls) + [Node(w.bound, p)]) == Values(w.Q(cls)) + [p];
  }

  // ---------------------------------------------------------------- expiry and readiness

  lemma {:induction false} SoundFits(limits: SchedulerLimits, s: Queues, cls: WorkClass, i: nat)
    requires Sound(limits, s) && i < |s.Of(cls)|
    ensures Fits(limits, cls)(s.Of(cls)[i])
  {
    assert Every(s.Of(cls), Fits(limits, cls));
  }

  /** While the first deadline is reached, the item it names is queued, is the one with the
      least deadline of its class, and unlinking it moves one entry from gone to out. */
  lemma {:induction false} ExpireFirst(limits: SchedulerLimits, w: Wires, cls: WorkClass, now: Time) returns (i: nat)
    requires Consistent(limits, w) && w.D(cls) != [] && w.D(cls)[0].value.time <= now
    ensures w.D(cls)[0].value.itemId in w.pending
    ensures
      var id := w.D(cls)[0].value.itemId;
      var v, v' := w.Abs().Of(cls), Unlinked(w, id).Abs().Of(cls);
      && Consistent(limits, Unlinked(w, id)) && w.pending[id].workClass == cls
      && i < |v| && Dereferenceable(w.Q(cls), w.pending[id].queued)
      && Deref(w.Q(cls), w.pending[id].queued) == i
      && Unlinked(w, id).Abs() == w.Abs().With(cls, v') && v' == Omit(v, i)
      && v[i].item.workClass == cls
      && Precedes([v[i].item], v)
      && Live(v', now) == Live(v, now)
      && multiset(Items(Gone(v, now))) == multiset(Items(Gone(v', now))) + multiset{v[i].item}
  {
    hide Linked, Sound, Keep;
    FirstDeadlineResolves(w.Q(cls), w.D(cls), w.pending, cls, w.bound);
    i := Unlink(limits, w, w.D(cls)[0].value.itemId);
    assert Fits(limits, cls)(w.Abs().Of(cls)[i]) by { SoundFits(limits, w.Abs(), cls, i); }
    RemoveOverdue(w.Abs().Of(cls), i, now);
  }

  lemma {:induction false} NothingDue(limits: SchedulerLimits, w: Wires, cls: WorkClass, now: Time)
    requires Consistent(limits, w)
    requires w.D(cls) == [] || w.D(cls)[0].value.time > now
    ensures Live(w.Abs().Of(cls), now) == w.Abs().Of(cls)
    ensures Gone(w.Abs().Of(cls), now) == []
  {
    hide Linked, Sound;
    FirstDeadlineIsLeast(w.Q(cls), w.D(cls), w.pending, cls, w.bound);
    KeepAll(w.Abs().Of(cls), Unexpired(now));
    KeepNone(w.Abs().Of(cls), Overdue(now));
  }

  /** The order in which expired items are reported: query before bulk, by deadline in each. */
  ghost predicate InExpiryOrder(batch: seq<BatchItem>) {
    forall i, j :: 0 <= i < j < |batch| ==>
      && (batch[i].workClass == batch[j].workClass ==> batch[i].deadline <= batch[j].deadline)
      && (batch[i].workClass.Bulk? ==> batch[j].workClass.Bulk?)
  }

  /** Everything in the batch is due no later than anything in the queue. */
  ghost predicate Precedes(batch: seq<BatchItem>, v: seq<PendingItem>) {
    forall k, m :: 0 <= k < |batch| && 0 <= m < |v| ==> batch[k].deadline <= v[m].item.deadline
  }

  lemma {:induction false} ExtendExpiry(batch: seq<BatchItem>, cls: WorkClass, v: seq<PendingItem>, i: nat)
    requires InExpiryOrder(batch) && AllOf(batch, cls) && Precedes(batch, v)
    requires i < |v| && v[i].item.workClass == cls && Precedes([v[i].item], v)
    ensures
      var batch' := batch + [v[i].item];
      InExpiryOrder(batch') && AllOf(batch', cls) && Precedes(batch', Omit(v, i))
  {
    assert [v[i].item][0] == v[i].item;
  }

  ghost predicate AllOf(batch: seq<BatchItem>, cls: WorkClass) {
    forall k :: 0 <= k < |batch| ==> batch[k].workClass == cls
  }

  /** Expiry under way: what has been reported, in order, and what is still in the queue. */
  ghost predicate Expiring(s0: Queues, s: Queues, cls: WorkClass, now: Time, batch: seq<BatchItem>) {
    && s == s0.With(cls, s.Of(cls))
    && Live(s.Of(cls), now) == Live(s0.Of(cls), now)
    && multiset(batch) + multiset(Items(Gone(s.Of(cls), now))) == multiset(Items(Gone(s0.Of(cls), now)))
    && InExpiryOrder(batch) && AllOf(batch, cls) && Precedes(batch, s.Of(cls))
  }

  lemma {:induction false} ExpiringStarts(s: Queues, cls: WorkClass, now: Time)
    ensures Expiring(s, s, cls, now, [])
  {
  }

  lemma {:induction false} ExpiringGoesOn(
      s0: Queues, s: Queues, s': Queues, cls: WorkClass, now: Time, batch: seq<BatchItem>, i: nat)
    requires Expiring(s0, s, cls, now, batch) && i < |s.Of(cls)|
    requires
      var v, v' := s.Of(cls), s'.Of(cls);
      && s' == s.With(cls, v') && v' == Omit(v, i) && v[i].item.workClass == cls && Precedes([v[i].item], v)
      && Live(v', now) == Live(v, now)
      && multiset(Items(Gone(v, now))) == multiset(Items(Gone(v', now))) + multiset{v[i].item}
    ensures Expiring(s0, s', cls, now, batch + [s.Of(cls)[i].item])
  {
    ExtendExpiry(batch, cls, s.Of(cls), i);
    hide Live, Gone, Items, InExpiryOrder, AllOf, Precedes, Omit;
  }

  lemma {:induction false} ExpiringEnds(s0: Queues, s: Queues, cls: WorkClass, now: Time, batch: seq<BatchItem>)
    requires Expiring(s0, s, cls, now, batch) && Live(s.Of(cls), now) == s.Of(cls) && Gone(s.Of(cls), now) == []
    ensures s == s0.With(cls, Live(s0.Of(cls), now))
    ensures InExpiryOrder(batch) && AllOf(batch, cls) && multiset(batch) == multiset(Items(Gone(s0.Of(cls), now)))
  {
    hide Live, Gone, InExpiryOrder, AllOf, Precedes;
  }

  lemma {:induction false} ReadyByFirstDeadline(limits: SchedulerLimits, w: Wires, cls: WorkClass, now: Time)
    requires Consistent(limits, w)
    ensures Ready(limits, w.Abs().Of(cls), now) <==>
      && w.Q(cls) != []
      && (|| |w.Q(cls)| >= limits.maximumBatchItems
          || now - w.Q(cls)[0].value.enqueuedAt >= limits.maximumWait
          || (w.D(cls) != [] && w.D(cls)[0].value.time - now <= limits.maximumWait))
  {
    hide Linked, Sound;
    FirstDeadlineIsLeast(w.Q(cls), w.D(cls), w.pending, cls, w.bound);
  }

  lemma {:induction false} DeadlinesFollowQueue(limits: SchedulerLimits, w: Wires, cls: WorkClass)
    requires Consistent(limits, w)
    ensures w.Q(cls) == [] <==> w.D(cls) == []
  {
    hide Linked, Sound;
    FirstDeadlineIsLeast(w.Q(cls), w.D(cls), w.pending, cls, w.bound);
  }

  /** The front entry of a queue is located, and popping it is unlinking it. */
  lemma {:induction false} PopFront(limits: SchedulerLimits, w: Wires, cls: WorkClass)
    requires Consistent(limits, w) && w.Q(cls) != []
    ensures w.Q(cls)[0].value.item.itemId in w.pending
    ensures
      var id := w.Q(cls)[0].value.item.itemId;
      && w.pending[id].workClass == cls
      && Erase(w.Q(cls), w.pending[id].queued) == w.Q(cls)[1..]
      && Consistent(limits, Unlinked(w, id))
      && Unlinked(w, id).Abs() == w.Abs().With(cls, w.Abs().Of(cls)[1..])
  {
    var id := w.Q(cls)[0].value.item.itemId;
    assert w.pending[id].queued == w.Q(cls)[0].handle && w.pending[id].workClass == cls;
    hide Linked, Sound;
    var i := Unlink(limits, w, id);
    assert i == 0;
    assert Omit(w.Abs().Of(cls), 0) == w.Abs().Of(cls)[1..];
  }

  lemma {:induction false} TokensConcat(a: seq<PendingItem>, b: seq<PendingItem>)
    ensures Tokens(a + b) == Tokens(a) + Tokens(b)
  {
    if a == [] {
      assert a + b == b;
    } else {
      assert (a + b)[1..] == a[1..] + b;
      TokensConcat(a[1..], b);
    }
  }

  lemma {:induction false} TakeOneMore(v: seq<PendingItem>, n: nat)
    requires n < |v|
    ensures Tokens(v[..n + 1]) == Tokens(v[..n]) + v[n].item.estimatedTokens
    ensures Items(v[..n + 1]) == Items(v[..n]) + [v[n].item]
    ensures v[n..][0] == v[n] && v[n..][1..] == v[n + 1..]
  {
    assert v[..n + 1] == v[..n] + [v[n]];
    TokensConcat(v[..n], [v[n]]);
    assert Tokens([v[n]]) == v[n].item.estimatedTokens;
  }

  /** Has the batch taken `n` entries of the queue `v` so far, within its budgets? */
  ghost predicate Taking(limits: SchedulerLimits, v: seq<PendingItem>, n: nat, tokens: nat) {
    && n <= |v| && n <= limits.maximumBatchItems
    && tokens == Tokens(v[..n]) <= limits.maximumBatchTokens
    && BatchSize(limits, v) == n + TakeCount(v[n..], limits.maximumBatchItems - n, limits.maximumBatchTokens - tokens)
  }

  lemma {:induction false} TakingGoesOn(limits: SchedulerLimits, v: seq<PendingItem>, n: nat, tokens: nat)
    requires Taking(limits, v, n, tokens) && n < |v| && n < limits.maximumBatchItems
    ensures
      if v[n].item.estimatedTokens > limits.maximumBatchTokens - tokens then BatchSize(limits, v) == n
      else Taking(limits, v, n + 1, tokens + v[n].item.estimatedTokens)
  {
    TakeOneMore(v, n);
  }

  /** The batch under construction: what it holds, and what it leaves in the queues. */
  ghost predicate Taken(
      limits: SchedulerLimits, s0: Queues, s: Queues, cls: WorkClass, items: seq<BatchItem>, tokens: nat) {
    var v := s0.Of(cls);
    && Taking(limits, v, |items|, tokens)
    && items == Items(v[..|items|])
    && s == s0.With(cls, v[|items|..])
  }

  lemma {:induction false} TakenStarts(limits: SchedulerLimits, s: Queues, cls: WorkClass)
    ensures Taken(limits, s, s, cls, [], 0)
  {
    assert s.Of(cls)[0..] == s.Of(cls) && s.Of(cls)[..0] == [];
  }

  /** One pass of the loop: the front entry does not fit and the batch is complete, or it is
      taken. */
  lemma {:induction false} TakenGoesOn(
      limits: SchedulerLimits, s0: Queues, s: Queues, cls: WorkClass, items: seq<BatchItem>, tokens: nat)
    requires Taken(limits, s0, s, cls, items, tokens)
    requires s.Of(cls) != [] && |items| < limits.maximumBatchItems
    ensures tokens <= limits.maximumBatchTokens
    ensures
      var front := s.Of(cls)[0].item;
      if front.estimatedTokens > limits.maximumBatchTokens - tokens
      then BatchSize(limits, s0.Of(cls)) == |items|
      else Taken(limits, s0, s.With(cls, s.Of(cls)[1..]), cls, items + [front], tokens + front.estimatedTokens)
  {
    hide TakeCount, Tokens, BatchSize;
    TakingGoesOn(limits, s0.Of(cls), |items|, tokens);
    TakeOneMore(s0.Of(cls), |items|);
  }

  lemma {:induction false} TakenEnds(
      limits: SchedulerLimits, s0: Queues, s: Queues, cls: WorkClass, items: seq<BatchItem>, tokens: nat)
    requires Taken(limits, s0, s, cls, items, tokens)
    requires BatchSize(limits, s0.Of(cls)) == |items| || s.Of(cls) == [] || |items| >= limits.maximumBatchItems
    ensures items == Items(s0.Of(cls)[..BatchSize(limits, s0.Of(cls))])
    ensures s == s0.With(cls, s0.Of(cls)[BatchSize(limits, s0.Of(cls))..])
  {
  }

  datatype Admission = Admission(status: EnqueueStatus, expired: seq<BatchItem>)

  datatype BatchSelection = BatchSelection(items: seq<BatchItem>, expired: seq<BatchItem>, selectedClass: Choice)

  datatype Wakeup = Never | At(time: Time) {
    function Consider(candidate: Time): Wakeup {
      if this.Never? || candidate < time then At(candidate) else this
    }

    predicate Due(t: Time) { At? && time <= t }
  }

  class BatchScheduler {
    const limits: SchedulerLimits
    var query: Queue
    var bulk: Queue
    var queryDeadlines: Deadlines
    var bulkDeadlines: Deadlines
    var pending: map<string, Locator>
    var consecutiveQueryBatches: nat
    var nextHandle: nat

    ghost function State(): Wires
      reads this
    {
      Wires(query, bulk, queryDeadlines, bulkDeadlines, pending, consecutiveQueryBatches, nextHandle)
    }

    ghost predicate Valid()
      reads this
    {
      Consistent(limits, State())
    }

    /** The queues this scheduler represents. */
    ghost function Abs(): Queues
      reads this
    {
      State().Abs()
    }

    function QueueOf(cls: WorkClass): Queue
      reads this
    {
      if cls.Query? then query else bulk
    }

    function DeadlinesOf(cls: WorkClass): Deadlines
      reads this
    {
      if cls.Query? then queryDeadlines else bulkDeadlines
    }

    constructor (limits: SchedulerLimits)
      requires limits.Positive()
      ensures Valid() && this.limits == limits && Abs() == Queues([], [], 0)
    {
      this.limits := limits;
      query, bulk := [], [];
      queryDeadlines, bulkDeadlines := [], [];
      pending := map[];
      consecutiveQueryBatches := 0;
      nextHandle := 0;
    }

    /** Construction as the source offers it: refused unless every limit is positive. */
    static method Open(limits: SchedulerLimits) returns (scheduler: BatchScheduler?)
      ensures scheduler == null <==> !limits.Positive()
      ensures scheduler != null ==>
        fresh(scheduler) && scheduler.Valid() && scheduler.limits == limits && scheduler.Abs() == Queues([], [], 0)
    {
      if limits.Positive() {
        scheduler := new BatchScheduler(limits);
      } else {
        scheduler := null;
      }
    }

    /** Erases the queued item `id` through its locator, in all three structures. */
    method Remove(id: string) returns (p: PendingItem)
      requires id in pending
      requires Dereferenceable(State().Q(pending[id].workClass), pending[id].queued)
      modifies this
      ensures State() == Unlinked(old(State()), id)
      ensures
        var q := old(State()).Q(old(pending)[id].workClass);
        p == q[Deref(q, old(pending)[id].queued)].value
    {
      var found := pending[id];
      if found.workClass.Query? {
        p := query[Deref(query, found.queued)].value;
        query := Erase(query, found.queued);
        queryDeadlines := Erase(queryDeadlines, found.deadline);
      } else {
        p := bulk[Deref(bulk, found.queued)].value;
        bulk := Erase(bulk, found.queued);
        bulkDeadlines := Erase(bulkDeadlines, found.deadline);
      }
      pending := pending - {id};
    }

    method Cancel(id: string) returns (cancelled: bool)
      requires Valid()
      modifies this
      ensures Valid()
      ensures cancelled <==> Scheduling.Pending(old(Abs()), id)
      ensures Abs() == CancelQueues(old(Abs()), id)
    {
      hide Consistent;
      PendingIsQueued(limits, State(), id);
      if id !in pending {
        AbsentIsUnfiltered(Abs().query, id);
        AbsentIsUnfiltered(Abs().bulk, id);
        return false;
      }
      ghost var i := Unlink(limits, State(), id);
      var _ := Remove(id);
      return true;
    }

    method ExpireClass(cls: WorkClass, now: Time) returns (batch: seq<BatchItem>)
      requires Valid()
      modifies this
      ensures Valid()
      ensures Abs() == old(Abs()).With(cls, Live(old(Abs()).Of(cls), now))
      ensures InExpiryOrder(batch) && AllOf(batch, cls)
      ensures multiset(batch) == multiset(Items(Gone(old(Abs()).Of(cls), now)))
    {
      hide Consistent, Keep, Expiring, InExpiryOrder, AllOf, Precedes, Erase, Unlinked;
      batch := [];
      ghost var s0 := Abs();
      ExpiringStarts(s0, cls, now);
      while DeadlinesOf(cls) != [] && DeadlinesOf(cls)[0].value.time <= now
        invariant Valid() && Expiring(s0, Abs(), cls, now, batch)
        decreases |QueueOf(cls)|
      {
        var id := DeadlinesOf(cls)[0].value.itemId;
        ghost var i := ExpireFirst(limits, State(), cls, now);
        assert id in pending;  // the source aborts the process here otherwise
        ExpiringGoesOn(s0, Abs(), Unlinked(State(), id).Abs(), cls, now, batch, i);
        var p := Remove(id);
        batch := batch + [p.item];
      }
      NothingDue(limits, State(), cls, now);
      ExpiringEnds(s0, Abs(), cls, now, batch);
    }

    /** Removes exactly the items whose deadline has been reached, from all three structures. */
    method Expire(now: Time) returns (expired: seq<BatchItem>)
      requires Valid()
      modifies this
      ensures Valid()
      ensures Abs() == ExpireQueues(old(Abs()), now)
      ensures InExpiryOrder(expired)
      ensures multiset(expired) == ExpiredItems(old(Abs()), now)
    {
      hide Consistent, Keep;
      var queries := ExpireClass(Query, now);
      var bulks := ExpireClass(Bulk, now);
      expired := queries + bulks;
    }

    method Enqueue(item: BatchItem, now: Time) returns (admission: Admission)
      requires Valid()
      modifies this
      ensures Valid()
      ensures admission.status == Verdict(limits, ExpireQueues(old(Abs()), now), item, now)
      ensures Abs() == EnqueueQueues(limits, old(Abs()), item, now)
      ensures InExpiryOrder(admission.expired)
      ensures multiset(admission.expired) == ExpiredItems(old(Abs()), now)
    {
      hide Consistent, Keep;
      var expired := Expire(now);
      if !ValidId(item.itemId) || item.estimatedTokens == 0 || item.estimatedTokens > limits.maximumBatchTokens {
        return Admission(EnqueueStatus.Invalid, expired);
      }
      if item.deadline <= now {
        return Admission(EnqueueStatus.Expired, expired);
      }
      PendingIsQueued(limits, State(), item.itemId);
      if item.itemId in pending {
        return Admission(EnqueueStatus.Duplicate, expired);
      }
      if |QueueOf(item.workClass)| >= limits.Capacity(item.workClass) {
        return Admission(EnqueueStatus.Overloaded, expired);
      }
      Link(limits, State(), item, now);
      var queued := Node(nextHandle, PendingItem(item, now));
      var deadline := Node(nextHandle, Deadline(item.deadline, item.itemId));
      if item.workClass.Query? {
        query, queryDeadlines := query + [queued], Emplace(queryDeadlines, deadline);
      } else {
        bulk, bulkDeadlines := bulk + [queued], Emplace(bulkDeadlines, deadline);
      }
      pending := pending[item.itemId := Locator(item.workClass, nextHandle, nextHandle)];
      nextHandle := nextHandle + 1;
      return Admission(EnqueueStatus.Accepted, expired);
    }

    predicate ReadyNow(cls: WorkClass, now: Time)
      reads this
    {
      && QueueOf(cls) != []
      && (|| |QueueOf(cls)| >= limits.maximumBatchItems
          || now - QueueOf(cls)[0].value.enqueuedAt >= limits.maximumWait
          || (DeadlinesOf(cls) != [] && DeadlinesOf(cls)[0].value.time - now <= limits.maximumWait))
    }

    method Next(now: Time) returns (selection: BatchSelection)
      requires Valid()
      modifies this
      ensures Valid()
      ensures Abs() == NextQueues(limits, old(Abs()), now)
      ensures selection.items == Items(Selected(limits, old(Abs()), now))
      ensures selection.selectedClass == Choose(limits, ExpireQueues(old(Abs()), now), now)
      ensures InExpiryOrder(selection.expired)
      ensures multiset(selection.expired) == ExpiredItems(old(Abs()), now)
    {
      hide Consistent, Keep;
      var expired := Expire(now);
      ReadyByFirstDeadline(limits, State(), Query, now);
      ReadyByFirstDeadline(limits, State(), Bulk, now);
      var queryReady := ReadyNow(Query, now);
      var bulkReady := ReadyNow(Bulk, now);
      if !queryReady && !bulkReady {
        return BatchSelection([], expired, Choice.Nothing);
      }
      var chooseQuery := queryReady && (!bulkReady || consecutiveQueryBatches < limits.maximumConsecutiveQueryBatches);
      var cls := if chooseQuery then Query else Bulk;
      var items := TakeBatch(cls);
      CountBatch(chooseQuery);
      return BatchSelection(items, expired, Choice.Chosen(cls));
    }

    /** The dispatch loop of Next on the chosen queue. */
    method TakeBatch(cls: WorkClass) returns (items: seq<BatchItem>)
      requires Valid()
      modifies this
      ensures Valid()
      ensures
        var v := old(Abs()).Of(cls);
        && items == Items(v[..BatchSize(limits, v)])
        && Abs() == old(Abs()).With(cls, v[BatchSize(limits, v)..])
    {
      hide Consistent, Taken, BatchSize, Erase, Unlinked;
      items := [];
      var tokens: nat := 0;
      ghost var s0 := Abs();
      TakenStarts(limits, s0, cls);
      while QueueOf(cls) != [] && |items| < limits.maximumBatchItems
        invariant Valid()
        invariant Taken(limits, s0, Abs(), cls, items, tokens)
        decreases |QueueOf(cls)|
      {
        var front := QueueOf(cls)[0].value.item;
        TakenGoesOn(limits, s0, Abs(), cls, items, tokens);
        if front.estimatedTokens > limits.maximumBatchTokens - tokens {
          break;
        }
        tokens := tokens + front.estimatedTokens;
        PopFront(limits, State(), cls);
        assert front.itemId in pending;  // the source aborts the process here otherwise
        Pop(cls, front.itemId);
        items := items + [front];
      }
      TakenEnds(limits, s0, Abs(), cls, items, tokens);
    }

    /** Pops the front of a queue, whose item the caller has looked up in the locators. */
    method Pop(cls: WorkClass, id: string)
      requires id in pending && pending[id].workClass == cls
      requires QueueOf(cls) != [] && Erase(QueueOf(cls), pending[id].queued) == QueueOf(cls)[1..]
      modifies this
      ensures State() == Unlinked(old(State()), id)
    {
      var found := pending[id];
      if cls.Query? {
        queryDeadlines := Erase(queryDeadlines, found.deadline);
        pending := pending - {id};
        query := query[1..];
      } else {
        bulkDeadlines := Erase(bulkDeadlines, found.deadline);
        pending := pending - {id};
        bulk := bulk[1..];
      }
    }

    method CountBatch(chooseQuery: bool)
      requires Valid()
      modifies this`consecutiveQueryBatches
      ensures Valid()
      ensures Abs() == old(Abs()).(streak := Streak(limits, old(Abs()).streak, if chooseQuery then Query else Bulk))
    {
      if chooseQuery {
        if consecutiveQueryBatches < limits.maximumConsecutiveQueryBatches {
          consecutiveQueryBatches := consecutiveQueryBatches + 1;
        }
      } else {
        consecutiveQueryBatches := 0;
      }
    }

    /** The earliest instant at which some queue is ready: exact for every instant that is not
        before an enqueue. */
    method NextWakeup() returns (wakeup: Wakeup)
      requires Valid()
      ensures forall t {:trigger SomeReady(limits, Abs(), t)} :: Clocked(Abs(), t) ==>
                (SomeReady(limits, Abs(), t) <==> wakeup.At? && wakeup.time <= t)
    {
      wakeup := Wakeup.Never;
      for n := 0 to 2
        invariant n == 0 ==> wakeup == Wakeup.Never
        invariant n == 1 ==> wakeup == ConsiderClass(Query, Wakeup.Never)
        invariant n == 2 ==> wakeup == ConsiderClass(Bulk, ConsiderClass(Query, Wakeup.Never))
      {
        wakeup := ConsiderClass([Query, Bulk][n], wakeup);
      }
      forall t {:trigger SomeReady(limits, Abs(), t)} | Clocked(Abs(), t)
        ensures SomeReady(limits, Abs(), t) <==> wakeup.Due(t)
      {
        ConsiderClassIsExact(Query, Wakeup.Never, t);
        ConsiderClassIsExact(Bulk, ConsiderClass(Query, Wakeup.Never), t);
      }
    }

    function ConsiderClass(cls: WorkClass, before: Wakeup): Wakeup
      reads this
    {
      var q, d := QueueOf(cls), DeadlinesOf(cls);
      var full := if q != [] && |q| >= limits.maximumBatchItems then before.Consider(q[0].value.enqueuedAt) else before;
      var waited := if q != [] then full.Consider(q[0].value.enqueuedAt + limits.maximumWait) else full;
      if d != [] then waited.Consider(d[0].value.time - limits.maximumWait) else waited
    }

    lemma {:induction false} ConsiderClassIsExact(cls: WorkClass, before: Wakeup, t: Time)
      requires Valid() && Ordered(Abs().Of(cls), t)
      ensures ConsiderClass(cls, before).Due(t) <==> before.Due(t) || Ready(limits, Abs().Of(cls), t)
    {
      hide Consistent;
      ReadyByFirstDeadline(limits, State(), cls, t);
      DeadlinesFollowQueue(limits, State(), cls);
      assert QueueOf(cls) != [] ==> EnqueuedBy(t)(Abs().Of(cls)[0]);
    }
  }
}
