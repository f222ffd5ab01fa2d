/** The incremental update planner: which items of a new snapshot must be recomputed.

    Items whose own inputs changed are affected, and so is everything that depends on an
    affected item in either snapshot.  The planner's breadth-first search computes exactly that
    least set, and whatever it leaves out may be reused: rebuilding a reused item from scratch,
    dependencies included, gives the same result in both snapshots. */
module Planner {
  import opened Wrappers
  import opened Snapshots
  import opened Indexing

  // ---------------------------------------------------------------- what a plan is

  datatype Reason = Added | Content | Producer | Dependency | Lookup | Removed

  datatype SourceChange = SourceChange(before: Option<string>, after: Option<string>, reason: Reason)

  datatype Plan = Plan(
    sources: map<string, SourceChange>,
    affected: set<string>,
    reuse: set<string>,
    recompute: set<string>,
    review: set<string>,
    lookups: map<string, Revision>)

  function Meaning(x: Item): Digest { Digest(x.kind, x.content, x.producer, AsMap(x.deps), AsMap(x.lookups)) }

  function SnapshotOf(items: map<string, Item>): Snapshot { map id | id in items :: Meaning(items[id]) }

  /** Why an item counts as changed, if it does. */
  function Change(a: Snapshot, b: Snapshot, id: string): Option<Reason> {
    if id !in a then (if id in b then Some(Added) else None)
    else if id !in b then Some(Removed)
    else if a[id].content != b[id].content then Some(Content)
    else if a[id].producer != b[id].producer then Some(Producer)
    else if a[id].deps != b[id].deps then Some(Dependency)
    else if a[id].lookups != b[id].lookups then Some(Lookup)
    else None
  }

  ghost predicate KindsAgree(a: Snapshot, b: Snapshot) {
    forall id :: id in a && id in b ==> a[id].kind == b[id].kind
  }

  function Direct(a: Snapshot, b: Snapshot): set<string> {
    set id | id in a.Keys + b.Keys && Change(a, b, id).Some?
  }

  predicate DependsOn(s: Snapshot, c: string, d: string) { c in s && d in s[c].deps }

  /** `c` names `d` in one of the snapshots, and `d` is an item of one of them. */
  predicate Edge(a: Snapshot, b: Snapshot, d: string, c: string) {
    (d in a || d in b) && (DependsOn(a, c, d) || DependsOn(b, c, d))
  }

  ghost predicate Closed(a: Snapshot, b: Snapshot, s: set<string>) {
    forall d, c :: d in s && Edge(a, b, d, c) ==> c in s
  }

  /** The least set that contains the direct changes and is closed under reverse dependency. */
  ghost predicate Least(a: Snapshot, b: Snapshot, affected: set<string>) {
    && Direct(a, b) <= affected && Closed(a, b, affected)
    && (forall s: set<string> :: Direct(a, b) <= s && Closed(a, b, s) ==> affected <= s)
  }

  function SourceOf(a: Snapshot, b: Snapshot, id: string): SourceChange
    requires Change(a, b, id).Some?
  {
    SourceChange(
      if id in a then Some(a[id].content) else None,
      if id in b then Some(b[id].content) else None,
      Change(a, b, id).value)
  }

  predicate IsSource(a: Snapshot, b: Snapshot, id: string) {
    (id in a && a[id].kind.Source?) || (id !in a && id in b && b[id].kind.Source?)
  }

  ghost predicate IsPlan(p: Plan, a: Snapshot, b: Snapshot) {
    && Least(a, b, p.affected)
    && p.recompute == p.affected * b.Keys
    && p.reuse == b.Keys - p.recompute
    && p.review == (a.Keys - b.Keys) + (set id | id in p.recompute && NamesRemoved(a, b, id))
    && p.sources == (map id | id in Direct(a, b) && IsSource(a, b, id) :: SourceOf(a, b, id))
  }

  // ---------------------------------------------------------------- what every plan has

  lemma {:induction false} AffectedIsKnown(p: Plan, a: Snapshot, b: Snapshot)
    requires IsPlan(p, a, b)
    ensures p.affected <= a.Keys + b.Keys
  {
    assert Closed(a, b, a.Keys + b.Keys);
  }

  /** Current items are either recomputed or reused; affected items are either recomputed or
      removed.  Nothing is in both. */
  lemma {:induction false} PlanPartitions(p: Plan, a: Snapshot, b: Snapshot)
    requires IsPlan(p, a, b)
    ensures p.recompute + p.reuse == b.Keys && p.recompute !! p.reuse
    ensures
      var removed := a.Keys - b.Keys;
      p.recompute + removed == p.affected && p.recompute !! removed
  {
    AffectedIsKnown(p, a, b);
    forall id | id in a.Keys - b.Keys ensures id in p.affected {
      assert id in Direct(a, b);
    }
  }

  /** A removed item needs review, and a current item exactly when it names a removed one, whether
      or not anything else about it changed. */
  lemma {:induction false} ReviewExactly(p: Plan, a: Snapshot, b: Snapshot, id: string)
    requires IsPlan(p, a, b)
    ensures id in p.review
      <==> (id in a && id !in b) || (id in b && exists d :: d in b[id].deps && d in a && d !in b)
  {
    if d :| id in b && d in b[id].deps && d in a && d !in b {
      assert d in Direct(a, b);
      assert Edge(a, b, d, id);
      assert id in p.affected;
    }
  }

  /** The plan depends on nothing but the two snapshots: not on the order of the items, of
      their dependencies, or in which the search visits them. */
  lemma {:induction false} PlanIsDetermined(p: Plan, q: Plan, a: Snapshot, b: Snapshot)
    requires IsPlan(p, a, b) && IsPlan(q, a, b) && p.lookups == q.lookups
    ensures p == q
  {
    assert p.affected <= q.affected && q.affected <= p.affected;
  }

  // ---------------------------------------------------------------- reuse is sound

  /** Building an item from a snapshot: `make` combines the item's own digest with the results
      built for its dependencies, to any depth; `leaf` stands for what is outside. */
  ghost function Build<R>(
      s: Snapshot, make: (Digest, map<string, R>) -> R, leaf: string -> R, id: string, depth: nat): R
    decreases depth
  {
    if depth == 0 || id !in s then leaf(id)
    else make(s[id], map d | d in s[id].deps :: Build(s, make, leaf, d, depth - 1))
  }

  lemma {:induction false} UnaffectedIsUnchanged(a: Snapshot, b: Snapshot, affected: set<string>, id: string)
    requires Least(a, b, affected) && KindsAgree(a, b) && (id in a || id in b) && id !in affected
    ensures id in a && id in b && a[id] == b[id]
  {
    assert id !in Direct(a, b);
  }

  lemma {:induction false} UnaffectedDependency(a: Snapshot, b: Snapshot, affected: set<string>, id: string, d: string)
    requires Least(a, b, affected) && id in b && id !in affected && d in b[id].deps && (d in a || d in b)
    ensures d !in affected
  {
    assert Edge(a, b, d, id);
  }

  /** Reuse soundness: an item outside the affected set builds to the same result from either
      snapshot, whatever the build function. */
  lemma {:induction false} ReuseIsSound<R>(
      a: Snapshot, b: Snapshot, affected: set<string>, make: (Digest, map<string, R>) -> R, leaf: string -> R,
      id: string, depth: nat)
    requires Least(a, b, affected) && KindsAgree(a, b) && id !in affected
    ensures Build(a, make, leaf, id, depth) == Build(b, make, leaf, id, depth)
    decreases depth
  {
    hide Least, KindsAgree;
    if depth > 0 && (id in a || id in b) {
      UnaffectedIsUnchanged(a, b, affected, id);
      var before := map d | d in a[id].deps :: Build(a, make, leaf, d, depth - 1);
      var after := map d | d in b[id].deps :: Build(b, make, leaf, d, depth - 1);
      forall d | d in b[id].deps ensures before[d] == after[d] {
        if d in a || d in b {
          UnaffectedDependency(a, b, affected, id, d);
          ReuseIsSound(a, b, affected, make, leaf, d, depth - 1);
        } else {
          assert Build(a, make, leaf, d, depth - 1) == leaf(d);
        }
      }
      assert before == after;
    }
  }

  /** The dependency cone of an item, unfolded to a depth: the free build. */
  datatype Cone = Outside(id: string) | Cone(digest: Digest, below: map<string, Cone>)

  ghost function ConeOf(s: Snapshot, id: string, depth: nat): Cone {
    Build(s, (g: Digest, below: map<string, Cone>) => Cone(g, below), (i: string) => Outside(i), id, depth)
  }

  /** Every reused item has the same dependency cone, at every depth, in both snapshots. */
  lemma {:induction false} ReusedConesAgree(p: Plan, a: Snapshot, b: Snapshot, id: string, depth: nat)
    requires IsPlan(p, a, b) && KindsAgree(a, b) && id in p.reuse
    ensures ConeOf(a, id, depth) == ConeOf(b, id, depth)
  {
    ReuseIsSound(a, b, p.affected, (g: Digest, below: map<string, Cone>) => Cone(g, below), (i: string) => Outside(i),
      id, depth);
  }

  // ---------------------------------------------------------------- and no more is recomputed

  ghost predicate ConesDiffer(a: Snapshot, b: Snapshot, id: string) {
    exists depth: nat :: ConeOf(a, id, depth) != ConeOf(b, id, depth)
  }

  lemma {:induction false} ConeStep(s: Snapshot, id: string, depth: nat)
    requires id in s
    ensures
      var cone := ConeOf(s, id, depth + 1);
      && cone.Cone? && cone.digest == s[id] && cone.below.Keys == s[id].deps.Keys
      && (forall d :: d in s[id].deps ==> cone.below[d] == ConeOf(s, d, depth))
  {
  }

  lemma {:induction false} DirectConesDiffer(a: Snapshot, b: Snapshot, id: string)
    requires id in Direct(a, b)
    ensures ConesDiffer(a, b, id)
  {
    if id in a { ConeStep(a, id, 0); }
    if id in b { ConeStep(b, id, 0); }
    assert ConeOf(a, id, 1) != ConeOf(b, id, 1);
  }

  lemma {:induction false} DifferenceSpreads(a: Snapshot, b: Snapshot, d: string, c: string)
    requires KindsAgree(a, b) && ConesDiffer(a, b, d) && Edge(a, b, d, c)
    ensures ConesDiffer(a, b, c)
  {
    if c in Direct(a, b) {
      DirectConesDiffer(a, b, c);
    } else {
      var depth: nat :| ConeOf(a, d, depth) != ConeOf(b, d, depth);
      assert c in a && c in b && a[c] == b[c];
      ConeStep(a, c, depth);
      ConeStep(b, c, depth);
      assert ConeOf(a, c, depth + 1).below[d] != ConeOf(b, c, depth + 1).below[d];
    }
  }

  /** Precision and recall against a full rebuild: an item is affected exactly when its
      dependency cone differs, at some depth, between the snapshots. */
  lemma {:induction false} PlanIsExact(p: Plan, a: Snapshot, b: Snapshot, id: string)
    requires IsPlan(p, a, b) && KindsAgree(a, b)
    ensures id in p.affected <==> ConesDiffer(a, b, id)
  {
    var s := set i | i in a.Keys + b.Keys && ConesDiffer(a, b, i);
    assert Direct(a, b) <= s by {
      forall i | i in Direct(a, b) ensures i in s { DirectConesDiffer(a, b, i); }
    }
    assert Closed(a, b, s) by {
      forall d, c | d in s && Edge(a, b, d, c) ensures c in s { DifferenceSpreads(a, b, d, c); }
    }
    assert p.affected <= s;
    if id !in p.affected && ConesDiffer(a, b, id) {
      var depth: nat :| ConeOf(a, id, depth) != ConeOf(b, id, depth);
      ReuseIsSound(a, b, p.affected, (g: Digest, below: map<string, Cone>) => Cone(g, below), (i: string) => Outside(i),
        id, depth);
    }
  }

  // ---------------------------------------------------------------- direct changes

  /** An index as index_states returns it: valid items under their own identities. */
  ghost predicate ValidIndex(items: map<string, Item>) {
    forall id :: id in items ==> items[id].id == id && ValidItem(items[id])
  }

  lemma {:induction false} WellFormedIndex(states: seq<Item>)
    requires WellFormed(states)
    ensures ValidIndex(ItemMap(states))
    ensures DepCount(ItemMap(states), ItemMap(states).Keys) <= Edges(states)
  {
    var named := Named(states);
    AsMapUnique(named);
    AsMapKeys(named);
    forall id | id in ItemMap(states) ensures ItemMap(states)[id].id == id && ValidItem(ItemMap(states)[id]) {
      var i :| 0 <= i < |named| && named[i].id == id;
      assert ItemMap(states)[id] == states[i];
    }
    DepCountIndex(states);
  }

  function ChangedReason(before: Item, after: Item): Option<Reason> {
    if before.content != after.content then Some(Content)
    else if before.producer != after.producer then Some(Producer)
    else if !SameEntries(before.deps, after.deps) then Some(Dependency)
    else if !SameEntries(before.lookups, after.lookups) then Some(Lookup)
    else None
  }

  /** What the planner's three-way match finds for an item. */
  lemma {:induction false} ChangeIsFound(previous: map<string, Item>, current: map<string, Item>, id: string)
    requires ValidIndex(previous) && ValidIndex(current)
    ensures
      var change := Change(SnapshotOf(previous), SnapshotOf(current), id);
      && (id in current && id !in previous ==> change == Some(Added))
      && (id in previous && id !in current ==> change == Some(Removed))
      && (id in previous && id in current ==> change == ChangedReason(previous[id], current[id]))
  {
    if id in previous && id in current {
      SameEntriesIsMapEquality(previous[id].deps, current[id].deps);
      SameEntriesIsMapEquality(previous[id].lookups, current[id].lookups);
    }
  }

  lemma {:induction false} SnapshotKinds(items: map<string, Item>)
    ensures SnapshotOf(items).Keys == items.Keys
    ensures forall id :: id in items ==> SnapshotOf(items)[id].kind == items[id].kind
  {
  }

  /** The changes among the items already looked at. */
  ghost predicate Found(a: Snapshot, b: Snapshot, todo: set<string>, direct: map<string, Reason>) {
    && (forall id :: id in direct <==> (id in a || id in b) && id !in todo && Change(a, b, id).Some?)
    && (forall id :: id in direct ==> Some(direct[id]) == Change(a, b, id))
  }

  lemma {:induction false} FoundOne(
      a: Snapshot, b: Snapshot, todo: set<string>, direct: map<string, Reason>, id: string)
    requires Found(a, b, todo, direct) && id in todo && (id in a || id in b)
    ensures
      var change := Change(a, b, id);
      Found(a, b, todo - {id}, if change.Some? then direct[id := change.value] else direct)
  {
    hide Change;
  }

  lemma {:induction false} FoundAll(a: Snapshot, b: Snapshot, direct: map<string, Reason>)
    requires Found(a, b, {}, direct)
    ensures direct.Keys == Direct(a, b) && forall id :: id in direct ==> Some(direct[id]) == Change(a, b, id)
  {
    hide Change;
  }

  ghost predicate KindsSoFar(a: Snapshot, b: Snapshot, todo: set<string>) {
    forall id :: id in a && id in b && id !in todo ==> a[id].kind == b[id].kind
  }

  /** The direct changes and their reasons, unless an item changed its kind. */
  method DirectChanges(previous: map<string, Item>, current: map<string, Item>) returns (r: Result<map<string, Reason>>)
    requires ValidIndex(previous) && ValidIndex(current)
    ensures
      var a, b := SnapshotOf(previous), SnapshotOf(current);
      && (r.Ok? <==> KindsAgree(a, b))
      && (r.Ok? ==>
          r.value.Keys == Direct(a, b) && forall id :: id in r.value ==> Some(r.value[id]) == Change(a, b, id))
    ensures r.Err? ==> r.error == InvalidIdentity("work item kind changed")
  {
    hide ValidIndex, ChangedReason, Change, SnapshotOf, Found, Direct;
    ghost var a, b := SnapshotOf(previous), SnapshotOf(current);
    SnapshotKinds(previous);
    SnapshotKinds(current);
    var todo := previous.Keys + current.Keys;
    var direct: map<string, Reason> := map[];
    assert Found(a, b, todo, direct) by { FoundNone(a, b); }
    while todo != {}
      invariant todo <= a.Keys + b.Keys && KindsSoFar(a, b, todo) && Found(a, b, todo, direct)
      decreases |todo|
    {
      var id :| id in todo;
      ChangeIsFound(previous, current, id);
      FoundOne(a, b, todo, direct, id);
      if id !in previous {
        direct := direct[id := Added];
      } else if id !in current {
        direct := direct[id := Removed];
      } else {
        if previous[id].kind != current[id].kind {
          assert a[id].kind != b[id].kind;
          return Err(InvalidIdentity("work item kind changed"));
        }
        var reason := ChangedReason(previous[id], current[id]);
        if reason.Some? { direct := direct[id := reason.value]; }
      }
      todo := todo - {id};
    }
    FoundAll(a, b, direct);
    r := Ok(direct);
  }

  lemma {:induction false} FoundNone(a: Snapshot, b: Snapshot)
    ensures Found(a, b, a.Keys + b.Keys, map[])
  {
  }

  // ---------------------------------------------------------------- reverse dependencies

  predicate Listed(reverse: map<string, seq<string>>, d: string, c: string) {
    d in reverse && c in reverse[d]
  }

  ghost function DepCount(items: map<string, Item>, keys: set<string>): nat {
    if keys == {} then 0
    else
      var k :| k in keys;
      (if k in items then |items[k].deps| else 0) + DepCount(items, keys - {k})
  }

  lemma {:induction false} DepCountRemove(items: map<string, Item>, keys: set<string>, k: string)
    requires k in keys
    ensures DepCount(items, keys) == (if k in items then |items[k].deps| else 0) + DepCount(items, keys - {k})
  {
    var p :| p in keys && DepCount(items, keys) == (if p in items then |items[p].deps| else 0)
      + DepCount(items, keys - {p});
    if p != k {
      DepCountRemove(items, keys - {p}, k);
      DepCountRemove(items, keys - {k}, p);
      assert keys - {p} - {k} == keys - {k} - {p};
    }
  }

  lemma {:induction false} DepCountFrame(items: map<string, Item>, keys: set<string>, k: string, x: Item)
    requires k !in keys
    ensures DepCount(items[k := x], keys) == DepCount(items, keys)
  {
    if keys != {} {
      var p :| p in keys;
      DepCountFrame(items, keys - {p}, k, x);
      DepCountRemove(items, keys, p);
      DepCountRemove(items[k := x], keys, p);
    }
  }

  lemma {:induction false} DepCountIndex(states: seq<Item>)
    requires UniqueIds(Named(states))
    ensures DepCount(ItemMap(states), ItemMap(states).Keys) <= Edges(states)
  {
    if states != [] {
      var k := |states| - 1;
      assert states[..k + 1] == states;
      Extend(states, k);
      var front, x := states[..k], states[k];
      var m, n := ItemMap(front), ItemMap(states);
      AsMapKeys(Named(front));
      assert x.id !in m by {
        forall i | 0 <= i < k ensures Named(front)[i].id != x.id { assert Named(states)[i].id != Named(states)[k].id; }
      }
      DepCountIndex(front);
      hide Edges, ItemMap, DepCount;
      DepCountRemove(n, n.Keys, x.id);
      assert n.Keys - {x.id} == m.Keys;
      DepCountFrame(m, m.Keys, x.id, x);
    }
  }

  /** Enters one item as a consumer of each of its known dependencies. */
  method AddConsumer(reverse: map<string, seq<string>>, x: Item, known: set<string>, edges: nat, maximum: nat)
    returns (reverse': map<string, seq<string>>, edges': nat, ok: bool)
    ensures ok ==> edges <= edges' <= edges + |x.deps|
    ensures !ok ==> edges + |x.deps| > maximum
    ensures ok ==> forall d, c ::
        Listed(reverse', d, c) <==> Listed(reverse, d, c) || (c == x.id && d in known && d in Ids(x.deps))
  {
    reverse', edges' := reverse, edges;
    var k := 0;
    while k < |x.deps|
      invariant k <= |x.deps| && edges <= edges' <= edges + k
      invariant forall d, c ::
        Listed(reverse', d, c) <==> Listed(reverse, d, c) || (c == x.id && d in known && d in Ids(x.deps[..k]))
    {
      IdsAppend(x.deps, k);
      var d := x.deps[k].id;
      if d in known {
        var list := if d in reverse' then reverse'[d] else [];
        reverse' := reverse'[d := list + [x.id]];
        edges' := edges' + 1;
        if edges' > maximum { return reverse', edges', false; }
      }
      k := k + 1;
    }
    assert x.deps[..k] == x.deps;
    ok := true;
  }

  /** Enters every item of an index, in any order. */
  method AddIndex(
      reverse: map<string, seq<string>>, items: map<string, Item>, known: set<string>, edges: nat, maximum: nat)
    returns (reverse': map<string, seq<string>>, edges': nat, ok: bool)
    requires ValidIndex(items)
    ensures edges + DepCount(items, items.Keys) <= maximum ==> ok
    ensures ok ==> edges' <= edges + DepCount(items, items.Keys)
    ensures ok ==> forall d, c ::
        Listed(reverse', d, c) <==> Listed(reverse, d, c) || (d in known && DependsOn(SnapshotOf(items), c, d))
  {
    hide ValidItem, Listed, AsMap, Ids, DepCount;
    reverse', edges' := reverse, edges;
    var todo := items.Keys;
    while todo != {}
      invariant todo <= items.Keys && edges' + DepCount(items, todo) <= edges + DepCount(items, items.Keys)
      invariant forall d, c ::
          Listed(reverse', d, c) <==>
          Listed(reverse, d, c) || (d in known && c !in todo && c in items && d in Ids(items[c].deps))
      decreases |todo|
    {
      var id :| id in todo;
      DepCountRemove(items, todo, id);
      reverse', edges', ok := AddConsumer(reverse', items[id], known, edges', maximum);
      if !ok { return; }
      todo := todo - {id};
    }
    forall c | c in items ensures SnapshotOf(items)[c].deps.Keys == Ids(items[c].deps) { AsMapKeys(items[c].deps); }
    assert DepCount(items, todo) >= 0;
    ok := true;
  }

  // ---------------------------------------------------------------- breadth-first closure

  ghost predicate Follows(reverse: map<string, seq<string>>, s: set<string>) {
    forall d, c :: d in s && Listed(reverse, d, c) ==> c in s
  }

  function Elements(list: seq<string>): set<string> { set i | 0 <= i < |list| :: list[i] }

  /** Everything the closure can ever contain. */
  function Universe(start: set<string>, reverse: map<string, seq<string>>): set<string> {
    start + set d, c | d in reverse && c in Elements(reverse[d]) :: c
  }

  /** One pop: consumers not seen before join the affected set and the queue. */
  method Visit(consumers: seq<string>, affected: set<string>, queue: seq<string>)
    returns (affected': set<string>, queue': seq<string>)
    ensures affected' == affected + Elements(consumers)
    ensures Elements(queue') == Elements(queue) + (affected' - affected)
    ensures affected' == affected ==> queue' == queue
  {
    affected', queue' := affected, queue;
    var k := 0;
    while k < |consumers|
      invariant k <= |consumers| && affected' == affected + Elements(consumers[..k])
      invariant Elements(queue') == Elements(queue) + (affected' - affected)
      invariant affected' == affected ==> queue' == queue
    {
      ElementsAppend(consumers[..k], consumers[k]);
      assert consumers[..k + 1] == consumers[..k] + [consumers[k]];
      if consumers[k] !in affected' {
        ElementsAppend(queue', consumers[k]);
        affected', queue' := affected' + {consumers[k]}, queue' + [consumers[k]];
      }
      k := k + 1;
    }
    assert consumers[..k] == consumers;
  }

  lemma {:induction false} ElementsAppend(list: seq<string>, x: string)
    ensures Elements(list + [x]) == Elements(list) + {x}
  {
    var more := list + [x];
    assert more[|list|] == x;
    forall i | 0 <= i < |list| ensures list[i] in Elements(more) { assert more[i] == list[i]; }
  }

  lemma {:induction false} ElementsPop(list: seq<string>)
    requires list != []
    ensures Elements(list) == {list[0]} + Elements(list[1..])
  {
    forall i | 0 < i < |list| ensures list[i] in Elements(list[1..]) { assert list[1..][i - 1] == list[i]; }
    forall i | 0 <= i < |list| - 1 ensures list[1..][i] in Elements(list) { assert list[1..][i] == list[i + 1]; }
  }

  method Enumerate(s: set<string>) returns (list: seq<string>)
    ensures Elements(list) == s
  {
    list := [];
    var todo := s;
    while todo != {}
      invariant todo <= s && Elements(list) == s - todo
      decreases |todo|
    {
      var x :| x in todo;
      ElementsAppend(list, x);
      list, todo := list + [x], todo - {x};
    }
  }

  /** The part of the affected set that has been followed. */
  ghost predicate FollowedExcept(reverse: map<string, seq<string>>, affected: set<string>, waiting: set<string>) {
    && waiting <= affected
    && forall d, c :: d in affected && d !in waiting && Listed(reverse, d, c) ==> c in affected
  }

  ghost predicate WithinEvery(start: set<string>, reverse: map<string, seq<string>>, affected: set<string>) {
    forall s: set<string> :: start <= s && Follows(reverse, s) ==> affected <= s
  }

  lemma {:induction false} VisitFollows(
      start: set<string>, reverse: map<string, seq<string>>, affected: set<string>, queue: seq<string>,
      affected': set<string>)
    requires queue != [] && FollowedExcept(reverse, affected, Elements(queue)) && WithinEvery(start, reverse, affected)
    requires affected' == affected + (if queue[0] in reverse then Elements(reverse[queue[0]]) else {})
    ensures FollowedExcept(reverse, affected', Elements(queue[1..]) + (affected' - affected))
    ensures WithinEvery(start, reverse, affected')
  {
    ElementsPop(queue);
    var x := queue[0];
    forall d, c | d in affected' && d !in Elements(queue[1..]) + (affected' - affected) && Listed(reverse, d, c)
      ensures c in affected'
    {
      if d == x { assert c in Elements(reverse[x]); }
    }
    forall s: set<string> | start <= s && Follows(reverse, s) ensures affected' <= s {
      assert affected <= s && x in s;
      if x in reverse {
        forall c | c in Elements(reverse[x]) ensures c in s { assert Listed(reverse, x, c); }
      }
    }
  }

  lemma {:induction false} VisitShrinks(universe: set<string>, affected: set<string>, affected': set<string>)
    requires affected <= affected' <= universe && affected' != affected
    ensures |universe - affected'| < |universe - affected|
  {
    var x :| x in affected' && x !in affected;
    assert universe - affected' <= universe - affected - {x};
    SubsetSize(universe - affected', universe - affected - {x});
  }

  lemma {:induction false} SubsetSize(a: set<string>, b: set<string>)
    requires a <= b
    ensures |a| <= |b|
  {
    assert b == a + (b - a);
  }

  /** Breadth-first search: the least superset of `start` closed under the listed consumers. */
  method Close(start: set<string>, reverse: map<string, seq<string>>) returns (affected: set<string>)
    ensures start <= affected && Follows(reverse, affected) && WithinEvery(start, reverse, affected)
  {
    hide Listed;
    ghost var universe := Universe(start, reverse);
    affected := start;
    var queue := Enumerate(start);
    while queue != []
      invariant start <= affected <= universe
      invariant FollowedExcept(reverse, affected, Elements(queue)) && WithinEvery(start, reverse, affected)
      decreases |universe - affected|, |queue|
    {
      var x := queue[0];
      ghost var was, line := affected, queue;
      affected, queue := Visit(if x in reverse then reverse[x] else [], affected, queue[1..]);
      VisitFollows(start, reverse, was, line, affected);
      if affected != was { VisitShrinks(universe, was, affected); }
    }
  }

  // ---------------------------------------------------------------- plan_incremental_update

  datatype Config = Config(maximumItems: nat, maximumEdges: nat)

  /** When there is a plan at all. */
  ghost predicate Plannable(previous: seq<Item>, current: seq<Item>, config: Config) {
    && 0 < config.maximumItems && 0 < config.maximumEdges
    && |previous| + |current| <= config.maximumItems
    && Edges(previous) + Edges(current) <= config.maximumEdges
    && WellFormed(previous) && WellFormed(current)
    && KindsAgree(SnapshotOf(ItemMap(previous)), SnapshotOf(ItemMap(current)))
  }

  /** The search over the listed consumers closes under dependency in both snapshots. */
  lemma {:induction false} ClosureIsLeast(
      a: Snapshot, b: Snapshot, reverse: map<string, seq<string>>, affected: set<string>)
    requires forall d, c :: Listed(reverse, d, c) <==> Edge(a, b, d, c)
    requires Direct(a, b) <= affected && Follows(reverse, affected) && WithinEvery(Direct(a, b), reverse, affected)
    ensures Least(a, b, affected)
  {
    hide Listed, Edge, Direct;
    forall s: set<string> | Direct(a, b) <= s && Closed(a, b, s) ensures affected <= s {
      assert Follows(reverse, s);
    }
  }

  /** The sources among the direct changes, as the plan lists them. */
  function SourcesOf(
      previous: map<string, Item>, current: map<string, Item>, direct: map<string, Reason>): map<string, SourceChange> {
    map id | id in direct
      && (if id in previous then previous[id].kind.Source? else id in current && current[id].kind.Source?) ::
      SourceChange(
        if id in previous then Some(previous[id].content) else None,
        if id in current then Some(current[id].content) else None,
        direct[id])
  }

  function RemovedItems(previous: map<string, Item>, current: map<string, Item>): set<string> {
    set id | id in previous && id !in current
  }

  function ReviewOf(previous: map<string, Item>, current: map<string, Item>, recompute: set<string>): set<string> {
    var removed := RemovedItems(previous, current);
    removed + set id | id in recompute && id in current && Ids(current[id].deps) * removed != {}
  }

  /** The sets the plan reports, from the affected set. */
  function Derive(
      previous: map<string, Item>, current: map<string, Item>, direct: map<string, Reason>, affected: set<string>,
      lookups: map<string, Revision>): Plan {
    var recompute := set id | id in affected && id in current;
    var reuse := set id | id in current && id !in recompute;
    Plan(SourcesOf(previous, current, direct), affected, reuse, recompute, ReviewOf(previous, current, recompute),
      lookups)
  }

  /** `id` names an item that is gone. */
  ghost predicate NamesRemoved(a: Snapshot, b: Snapshot, id: string) {
    id in b && exists d :: d in b[id].deps && d in a && d !in b
  }

  lemma {:induction false} DeriveReview(previous: map<string, Item>, current: map<string, Item>, id: string)
    requires id in current
    ensures Ids(current[id].deps) * RemovedItems(previous, current) != {}
        <==> NamesRemoved(SnapshotOf(previous), SnapshotOf(current), id)
  {
    AsMapKeys(current[id].deps);
    var both := Ids(current[id].deps) * RemovedItems(previous, current);
    hide AsMap, Ids;
    if both != {} {
      var d :| d in both;
      assert d in SnapshotOf(current)[id].deps;
    }
    if d :| d in SnapshotOf(current)[id].deps && d in previous && d !in current {
      assert d in both;
    }
  }

  lemma {:induction false} ReviewIsPlanned(
      previous: map<string, Item>, current: map<string, Item>, recompute: set<string>)
    requires recompute <= current.Keys
    ensures
      var a, b := SnapshotOf(previous), SnapshotOf(current);
      ReviewOf(previous, current, recompute) == (a.Keys - b.Keys) + (set id | id in recompute && NamesRemoved(a, b, id))
  {
    var a, b := SnapshotOf(previous), SnapshotOf(current);
    SnapshotKinds(previous);
    SnapshotKinds(current);
    forall id | id in recompute
      ensures Ids(current[id].deps) * RemovedItems(previous, current) != {} <==> NamesRemoved(a, b, id)
    {
      DeriveReview(previous, current, id);
    }
    hide SnapshotOf, NamesRemoved, Ids;
  }

  lemma {:induction false} SourceIsPlanned(
      previous: map<string, Item>, current: map<string, Item>, id: string, reason: Reason)
    requires
      var a, b := SnapshotOf(previous), SnapshotOf(current);
      Change(a, b, id) == Some(reason)
    ensures
      var a, b := SnapshotOf(previous), SnapshotOf(current);
      && ((if id in previous then previous[id].kind.Source? else id in current && current[id].kind.Source?)
          <==> IsSource(a, b, id))
      && SourceOf(a, b, id) == SourceChange(
           if id in previous then Some(previous[id].content) else None,
           if id in current then Some(current[id].content) else None,
           reason)
  {
  }

  lemma {:induction false} SourcesArePlanned(
      previous: map<string, Item>, current: map<string, Item>, direct: map<string, Reason>)
    requires
      var a, b := SnapshotOf(previous), SnapshotOf(current);
      direct.Keys == Direct(a, b) && forall id :: id in direct ==> Some(direct[id]) == Change(a, b, id)
    ensures
      var a, b := SnapshotOf(previous), SnapshotOf(current);
      SourcesOf(previous, current, direct) == (map id | id in Direct(a, b) && IsSource(a, b, id) :: SourceOf(a, b, id))
  {
    var a, b := SnapshotOf(previous), SnapshotOf(current);
    var found := SourcesOf(previous, current, direct);
    var planned := map id | id in Direct(a, b) && IsSource(a, b, id) :: SourceOf(a, b, id);
    hide SnapshotOf, Change, IsSource, SourceOf, Direct;
    forall id | id in direct
      ensures id in found <==> id in planned
      ensures id in found && id in planned ==> found[id] == planned[id]
    {
      SourceIsPlanned(previous, current, id, direct[id]);
    }
    assert found.Keys == planned.Keys;
  }

  lemma {:induction false} DeriveIsPlan(
      previous: map<string, Item>, current: map<string, Item>, direct: map<string, Reason>, affected: set<string>,
      lookups: map<string, Revision>)
    requires
      var a, b := SnapshotOf(previous), SnapshotOf(current);
      && Least(a, b, affected) && direct.Keys == Direct(a, b)
      && forall id :: id in direct ==> Some(direct[id]) == Change(a, b, id)
    ensures IsPlan(Derive(previous, current, direct, affected, lookups), SnapshotOf(previous), SnapshotOf(current))
  {
    hide Least, SnapshotOf, Direct, Change, IsSource, SourceOf, SourcesOf, ReviewOf, NamesRemoved;
    var p := Derive(previous, current, direct, affected, lookups);
    SnapshotKinds(previous);
    SnapshotKinds(current);
    SourcesArePlanned(previous, current, direct);
    ReviewIsPlanned(previous, current, p.recompute);
    assert p.recompute == affected * current.Keys;
    assert p.reuse == current.Keys - p.recompute;
  }

  // ---------------------------------------------------------------- what is reported about sources

  /** The item a list has under an identity. */
  ghost predicate At(states: seq<Item>, id: string, x: Option<Item>) {
    match x
    case None => forall y :: y in states ==> y.id != id
    case Some(y) => y in states && y.id == id
  }

  ghost predicate SameDeps(x: Item, y: Item) { forall e :: e in x.deps <==> e in y.deps }

  ghost predicate SameLookups(x: Item, y: Item) { forall e :: e in x.lookups <==> e in y.lookups }

  /** Why an item that was `x` and is `y` is reported: the first thing that is new about it. */
  ghost predicate Because(x: Option<Item>, y: Option<Item>, reason: Reason) {
    match reason
    case Added => x.None? && y.Some?
    case Removed => x.Some? && y.None?
    case Content => x.Some? && y.Some? && x.value.content != y.value.content
    case Producer =>
      && x.Some? && y.Some? && x.value.content == y.value.content
      && x.value.producer != y.value.producer
    case Dependency =>
      && x.Some? && y.Some? && x.value.content == y.value.content
      && x.value.producer == y.value.producer && !SameDeps(x.value, y.value)
    case Lookup =>
      && x.Some? && y.Some? && x.value.content == y.value.content
      && x.value.producer == y.value.producer && SameDeps(x.value, y.value) && !SameLookups(x.value, y.value)
  }

  /** A source is reported exactly when it has changed, with its contents and the reason. */
  ghost predicate Reported(sources: map<string, SourceChange>, id: string, x: Option<Item>, y: Option<Item>) {
    && (id in sources <==>
          && ((x.Some? && x.value.kind.Source?) || (y.Some? && y.value.kind.Source?))
          && exists reason :: Because(x, y, reason))
    && (id in sources ==>
          && Because(x, y, sources[id].reason)
          && sources[id].before == (if x.Some? then Some(x.value.content) else None)
          && sources[id].after == (if y.Some? then Some(y.value.content) else None))
  }

  lemma {:induction false} MapsByMembers<V(!new)>(a: seq<Entry<V>>, b: seq<Entry<V>>)
    requires UniqueIds(a) && UniqueIds(b)
    ensures AsMap(a) == AsMap(b) <==> forall e :: e in a <==> e in b
  {
    hide AsMap, UniqueIds;
    var m, n := AsMap(a), AsMap(b);
    if m == n {
      forall e ensures e in a <==> e in b {
        if e in a { AsMapMember(a, e); AsMapEntry(b, e.id); }
        if e in b { AsMapMember(b, e); AsMapEntry(a, e.id); }
      }
    } else if forall e :: e in a <==> e in b {
      forall id ensures (id in m <==> id in n) && (id in m ==> m[id] == n[id]) {
        if id in m { AsMapEntry(a, id); AsMapMember(b, Entry(id, m[id])); }
        if id in n { AsMapEntry(b, id); AsMapMember(a, Entry(id, n[id])); }
      }
    }
  }

  lemma {:induction false} AtIsMap(states: seq<Item>, id: string, x: Option<Item>)
    requires UniqueIds(Named(states)) && At(states, id, x)
    ensures x.None? ==> id !in ItemMap(states)
    ensures x.Some? ==> id in ItemMap(states) && ItemMap(states)[id] == x.value
  {
    hide AsMap, UniqueIds;
    if x.Some? {
      var i :| 0 <= i < |states| && states[i] == x.value;
      assert Named(states)[i] == Entry(id, x.value);
      AsMapMember(Named(states), Entry(id, x.value));
    } else if id in ItemMap(states) {
      AsMapEntry(Named(states), id);
    }
  }

  lemma {:induction false} ChangeIsBecause(a: Snapshot, b: Snapshot, id: string, x: Option<Item>, y: Option<Item>)
    requires x.Some? ==> ValidItem(x.value) && id in a && a[id] == Meaning(x.value)
    requires y.Some? ==> ValidItem(y.value) && id in b && b[id] == Meaning(y.value)
    requires (x.None? ==> id !in a) && (y.None? ==> id !in b)
    ensures forall reason :: Change(a, b, id) == Some(reason) <==> Because(x, y, reason)
  {
    if x.Some? && y.Some? {
      MapsByMembers(x.value.deps, y.value.deps);
      MapsByMembers(x.value.lookups, y.value.lookups);
    }
    hide AsMap, UniqueIds, ValidId, ValidHash;
  }

  lemma {:induction false} SourceMember(p: Plan, a: Snapshot, b: Snapshot, id: string)
    requires IsPlan(p, a, b)
    ensures id in p.sources <==> Change(a, b, id).Some? && IsSource(a, b, id)
    ensures id in p.sources ==> p.sources[id] == SourceOf(a, b, id)
  {
    hide Least, IsSource, SourceOf, NamesRemoved;
    assert id in Direct(a, b) <==> Change(a, b, id).Some?;
    hide Direct, Change;
  }

  lemma {:induction false} ItemMeans(states: seq<Item>, id: string, x: Option<Item>)
    requires WellFormed(states) && At(states, id, x)
    ensures
      var s := SnapshotOf(ItemMap(states));
      && (x.None? ==> id !in s)
      && (x.Some? ==> ValidItem(x.value) && id in s && s[id] == Meaning(x.value))
  {
    hide ItemMap, UniqueIds, ValidItem, Bound, Coherent, Meaning;
    AtIsMap(states, id, x);
  }

  /** The sources of a plan, told from the two lists. */
  lemma {:induction false} SourcesAreReported(
      p: Plan, previous: seq<Item>, current: seq<Item>, id: string, x: Option<Item>, y: Option<Item>)
    requires WellFormed(previous) && WellFormed(current) && At(previous, id, x) && At(current, id, y)
    requires IsPlan(p, SnapshotOf(ItemMap(previous)), SnapshotOf(ItemMap(current)))
    requires KindsAgree(SnapshotOf(ItemMap(previous)), SnapshotOf(ItemMap(current)))
    ensures Reported(p.sources, id, x, y)
  {
    hide ItemMap, IsPlan, Because, ValidItem, WellFormed, SnapshotOf, Change, At;
    var a, b := SnapshotOf(ItemMap(previous)), SnapshotOf(ItemMap(current));
    ItemMeans(previous, id, x);
    ItemMeans(current, id, y);
    ChangeIsBecause(a, b, id, x, y);
    SourceMember(p, a, b, id);
  }

  // ---------------------------------------------------------------- plan_incremental_update, as a whole

  /** There is a plan exactly for plannable snapshots; it is the plan of their meanings, and
      carries every current lookup revision.  reverse_dependencies never fails on the limit. */
  method PlanUpdate(previous: seq<Item>, current: seq<Item>, config: Config) returns (r: Result<Plan>)
    ensures r.Ok? <==> Plannable(previous, current, config)
    ensures r.Ok? ==> IsPlan(r.value, SnapshotOf(ItemMap(previous)), SnapshotOf(ItemMap(current)))
    ensures r.Ok? ==> r.value.lookups == AsMap(AllLookups(current))
    ensures r.Ok? ==>
      forall id, x, y :: At(previous, id, x) && At(current, id, y) ==> Reported(r.value.sources, id, x, y)
  {
    hide At, Reported, WellFormed, ItemMap, AsMap, KindsAgree, Direct, Change, IsPlan, Edges, DepCount, Follows,
      WithinEvery, Listed,
      Edge, Derive, ValidIndex;
    if config.maximumItems == 0 { return Err(InvalidConfig("maximum_items")); }
    if config.maximumEdges == 0 { return Err(InvalidConfig("maximum_dependency_edges")); }
    var total := |previous| + |current|;
    if total > config.maximumItems { return Err(ItemLimit(total, config.maximumItems)); }
    var limit := Preflight(previous, current, config.maximumEdges);
    if limit.Some? { return Err(limit.value); }
    var before := IndexStates(previous, config.maximumEdges);
    if before.Err? { return Err(before.error); }
    var after := IndexStates(current, config.maximumEdges);
    if after.Err? { return Err(after.error); }
    var a, b := before.value.items, after.value.items;
    WellFormedIndex(previous);
    WellFormedIndex(current);
    var direct := DirectChanges(a, b);
    if direct.Err? { return Err(direct.error); }
    var reverse := Reverse(a, b, config.maximumEdges);
    assert reverse.Ok?;
    var affected := Close(direct.value.Keys, reverse.value);
    ClosureIsLeast(SnapshotOf(a), SnapshotOf(b), reverse.value, affected);
    DeriveIsPlan(a, b, direct.value, affected, after.value.lookups);
    r := Ok(Derive(a, b, direct.value, affected, after.value.lookups));
    assert r.value.lookups == after.value.lookups by {
      DeriveLookups(a, b, direct.value, affected, after.value.lookups);
    }
    forall id, x, y | At(previous, id, x) && At(current, id, y) ensures Reported(r.value.sources, id, x, y) {
      SourcesAreReported(r.value, previous, current, id, x, y);
    }
  }

  lemma {:induction false} DeriveLookups(
      previous: map<string, Item>, current: map<string, Item>, direct: map<string, Reason>, affected: set<string>,
      lookups: map<string, Revision>)
    ensures Derive(previous, current, direct, affected, lookups).lookups == lookups
  {
  }

  /** The consumers of every known item, over both snapshots; cannot fail once the preflight
      has bounded the edges. */
  method Reverse(previous: map<string, Item>, current: map<string, Item>, maximum: nat)
    returns (r: Result<map<string, seq<string>>>)
    requires ValidIndex(previous) && ValidIndex(current)
    ensures DepCount(previous, previous.Keys) + DepCount(current, current.Keys) <= maximum ==> r.Ok?
    ensures r.Ok? ==> forall d, c :: Listed(r.value, d, c) <==> Edge(SnapshotOf(previous), SnapshotOf(current), d, c)
  {
    hide ValidIndex, DepCount, Listed, DependsOn;
    var known := previous.Keys + current.Keys;
    var reverse, edges, ok := AddIndex(map[], previous, known, 0, maximum);
    if !ok { return Err(EdgeLimit(edges, maximum)); }
    assert forall d, c :: !Listed(map[], d, c) by { NothingListed(); }
    reverse, edges, ok := AddIndex(reverse, current, known, edges, maximum);
    if !ok { return Err(EdgeLimit(edges, maximum)); }
    r := Ok(reverse);
  }

  lemma {:induction false} NothingListed()
    ensures forall d, c :: !Listed(map[], d, c)
  {
  }
}
