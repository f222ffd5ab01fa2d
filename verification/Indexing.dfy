/** Indexing one snapshot's items: exactly the well-formed snapshots are accepted. */
module Indexing {
  import opened Wrappers
  import opened Snapshots

  // ---------------------------------------------------------------- a snapshot's entries

  function Named(states: seq<Item>): (r: seq<Entry<Item>>)
    ensures |r| == |states|
    ensures forall i :: 0 <= i < |states| ==> r[i] == Entry(states[i].id, states[i])
  {
    seq(|states|, i requires 0 <= i < |states| => Entry(states[i].id, states[i]))
  }

  function ItemMap(states: seq<Item>): map<string, Item> { AsMap(Named(states)) }

  function AllDeps(states: seq<Item>): seq<Entry<string>> {
    if states == [] then [] else AllDeps(states[..|states| - 1]) + states[|states| - 1].deps
  }

  function AllLookups(states: seq<Item>): seq<Entry<Revision>> {
    if states == [] then [] else AllLookups(states[..|states| - 1]) + states[|states| - 1].lookups
  }

  function Edges(states: seq<Item>): nat {
    if states == [] then 0
    else Edges(states[..|states| - 1]) + |states[|states| - 1].deps| + |states[|states| - 1].lookups|
  }

  /** No two entries give one identity different values. */
  ghost predicate Coherent<V>(entries: seq<Entry<V>>) {
    forall a, b :: 0 <= a < b < |entries| && entries[a].id == entries[b].id ==> entries[a].value == entries[b].value
  }

  ghost predicate Contradicted<V>(entries: seq<Entry<V>>, id: string) {
    exists a, b :: 0 <= a < b < |entries| && entries[a].id == entries[b].id == id
      && entries[a].value != entries[b].value
  }

  /** A dependency on an item of the same snapshot carries that item's content hash. */
  ghost predicate Bound(x: Item, items: map<string, Item>) {
    forall a :: 0 <= a < |x.deps| && x.deps[a].id in items ==> items[x.deps[a].id].content == x.deps[a].value
  }

  ghost predicate WellFormed(states: seq<Item>) {
    && (forall i :: 0 <= i < |states| ==> ValidItem(states[i]))
    && UniqueIds(Named(states))
    && Coherent(AllDeps(states))
    && Coherent(AllLookups(states))
    && (forall i :: 0 <= i < |states| ==> Bound(states[i], ItemMap(states)))
  }

  /** What an error of index_states claims. */
  ghost predicate Justified(states: seq<Item>, maximum: nat, e: Error) {
    match e
    case EdgeLimit(_, _) => Edges(states) > maximum
    case DuplicateItem(id) => exists i, j :: 0 <= i < j < |states| && states[i].id == states[j].id == id
    case FingerprintConflict(id) => Contradicted(AllDeps(states), id)
    case LookupConflict(id) => Contradicted(AllLookups(states), id)
    case LocalDependencyMismatch(_, _) => exists i :: 0 <= i < |states| && !Bound(states[i], ItemMap(states))
    case _ => exists i :: 0 <= i < |states| && Blames(states[i], e)
  }

  lemma {:induction false} BlamesInvalid(x: Item, e: Error)
    requires Blames(x, e)
    ensures !ValidItem(x)
  {
  }

  /** Every error is deserved: the snapshot is then not well formed, or too large. */
  lemma {:induction false} JustifiedRefutes(states: seq<Item>, maximum: nat, e: Error)
    requires Justified(states, maximum, e)
    ensures !(WellFormed(states) && Edges(states) <= maximum)
  {
    forall i | 0 <= i < |states| && Blames(states[i], e) ensures !ValidItem(states[i]) {
      BlamesInvalid(states[i], e);
    }
    hide Bound, Blames, ValidItem;
    match e
    case EdgeLimit(_, _) =>
    case DuplicateItem(id) =>
      var i, j :| 0 <= i < j < |states| && states[i].id == states[j].id == id;
      assert Named(states)[i].id == Named(states)[j].id;
    case FingerprintConflict(id) =>
    case LookupConflict(id) =>
    case LocalDependencyMismatch(_, _) =>
    case _ =>
  }

  // ---------------------------------------------------------------- prefixes

  lemma {:induction false} Extend(states: seq<Item>, k: nat)
    requires k < |states|
    ensures
      var done, more := states[..k], states[..k + 1];
      && Named(more) == Named(done) + [Entry(states[k].id, states[k])]
      && AllDeps(more) == AllDeps(done) + states[k].deps
      && AllLookups(more) == AllLookups(done) + states[k].lookups
      && Edges(more) == Edges(done) + |states[k].deps| + |states[k].lookups|
      && ItemMap(more) == ItemMap(done)[states[k].id := states[k]]
  {
    var done, more := states[..k], states[..k + 1];
    assert more[..k] == done && more[k] == states[k];
    assert Named(more) == Named(done) + [Entry(states[k].id, states[k])];
    assert Named(more)[..k] == Named(done);
  }

  lemma {:induction false} PrefixOf(states: seq<Item>, k: nat)
    requires k <= |states|
    ensures AllDeps(states[..k]) <= AllDeps(states)
    ensures AllLookups(states[..k]) <= AllLookups(states)
    ensures Edges(states[..k]) <= Edges(states)
    decreases |states| - k
  {
    if k == |states| {
      assert states[..k] == states;
    } else {
      Extend(states, k);
      hide AllDeps, AllLookups, Edges;
      PrefixOf(states, k + 1);
      PrefixTrans(AllDeps(states[..k]), AllDeps(states[..k + 1]), AllDeps(states));
      PrefixTrans(AllLookups(states[..k]), AllLookups(states[..k + 1]), AllLookups(states));
    }
  }

  lemma {:induction false} PrefixTrans<V>(a: seq<V>, b: seq<V>, c: seq<V>)
    requires a <= b <= c
    ensures a <= c
  {
  }

  lemma {:induction false} ContradictedMore<V>(a: seq<Entry<V>>, b: seq<Entry<V>>, id: string)
    requires a <= b && Contradicted(a, id)
    ensures Contradicted(b, id)
  {
    var i, j :| 0 <= i < j < |a| && a[i].id == a[j].id == id && a[i].value != a[j].value;
    assert b[i] == a[i] && b[j] == a[j];
  }

  // ---------------------------------------------------------------- absorbing entries

  lemma {:induction false} AsMapCoherent<V>(entries: seq<Entry<V>>)
    requires Coherent(entries)
    ensures forall a :: 0 <= a < |entries| ==>
        entries[a].id in AsMap(entries) && AsMap(entries)[entries[a].id] == entries[a].value
  {
    if entries != [] {
      var front, last := entries[..|entries| - 1], entries[|entries| - 1];
      var m, n := AsMap(front), AsMap(entries);
      assert n == m[last.id := last.value];
      hide AsMap;
      AsMapCoherent(front);
      forall a | 0 <= a < |entries| ensures entries[a].id in n && n[entries[a].id] == entries[a].value {
        if a < |front| { assert front[a] == entries[a]; }
      }
    }
  }

  lemma {:induction false} AsMapAppend<V>(entries: seq<Entry<V>>, x: Entry<V>)
    ensures AsMap(entries + [x]) == AsMap(entries)[x.id := x.value]
  {
    assert (entries + [x])[..|entries|] == entries;
  }

  lemma {:induction false} CoherentAppend<V>(entries: seq<Entry<V>>, x: Entry<V>)
    requires Coherent(entries)
    ensures
      var m := AsMap(entries);
      && (x.id in m && m[x.id] != x.value ==> Contradicted(entries + [x], x.id))
      && ((x.id in m ==> m[x.id] == x.value) ==> Coherent(entries + [x]))
  {
    var m, all := AsMap(entries), entries + [x];
    AsMapCoherent(entries);
    AsMapKeys(entries);
    hide AsMap;
    if x.id in m && m[x.id] != x.value {
      var a :| 0 <= a < |entries| && entries[a].id == x.id;
      assert all[a] == entries[a] && all[|entries|] == x;
    } else {
      forall a, b | 0 <= a < b < |all| && all[a].id == all[b].id ensures all[a].value == all[b].value {
        assert all[a] == entries[a];
        if b < |entries| { assert all[b] == entries[b]; }
      }
    }
  }

  /** Inserts entries into a map, refusing one that contradicts what is there. */
  method Absorb<V(==)>(ghost before: seq<Entry<V>>, known: map<string, V>, entries: seq<Entry<V>>)
    returns (merged: map<string, V>, conflict: Option<string>)
    requires known == AsMap(before) && Coherent(before)
    ensures conflict.None? ==> Coherent(before + entries) && merged == AsMap(before + entries)
    ensures conflict.Some? ==> Contradicted(before + entries, conflict.value)
  {
    merged := known;
    var k := 0;
    assert before + entries[..0] == before;
    while k < |entries|
      invariant k <= |entries| && Coherent(before + entries[..k]) && merged == AsMap(before + entries[..k])
    {
      ghost var done := before + entries[..k];
      assert before + entries[..k + 1] == done + [entries[k]];
      AsMapAppend(done, entries[k]);
      CoherentAppend(done, entries[k]);
      if entries[k].id in merged && merged[entries[k].id] != entries[k].value {
        ContradictedMore(done + [entries[k]], before + entries, entries[k].id);
        return merged, Some(entries[k].id);
      }
      merged, k := merged[entries[k].id := entries[k].value], k + 1;
    }
    assert before + entries[..k] == before + entries;
    conflict := None;
  }

  // ---------------------------------------------------------------- index_states

  datatype Index = Index(items: map<string, Item>, lookups: map<string, Revision>)

  /** The first loop's state after `k` items. */
  ghost predicate Indexed(
      states: seq<Item>, k: nat, items: map<string, Item>, fingerprints: map<string, string>,
      lookups: map<string, Revision>) {
    && k <= |states|
    && (forall i :: 0 <= i < k ==> ValidItem(states[i]))
    && UniqueIds(Named(states[..k])) && items == ItemMap(states[..k])
    && Coherent(AllDeps(states[..k])) && fingerprints == AsMap(AllDeps(states[..k]))
    && Coherent(AllLookups(states[..k])) && lookups == AsMap(AllLookups(states[..k]))
  }

  lemma {:induction false} NewName(states: seq<Item>, k: nat)
    requires k < |states| && UniqueIds(Named(states[..k]))
    ensures states[k].id in ItemMap(states[..k]) ==> exists i :: 0 <= i < k && states[i].id == states[k].id
    ensures states[k].id !in ItemMap(states[..k]) ==> UniqueIds(Named(states[..k + 1]))
  {
    var named := Named(states[..k]);
    AsMapKeys(named);
    if states[k].id in ItemMap(states[..k]) {
      var i :| 0 <= i < k && named[i].id == states[k].id;
      assert states[i].id == states[k].id;
    } else {
      forall i | 0 <= i < k ensures states[i].id != states[k].id { assert named[i].id in Ids(named); }
    }
  }

  method IndexItem(
      states: seq<Item>, k: nat, items: map<string, Item>, fingerprints: map<string, string>,
      lookups: map<string, Revision>)
    returns (items': map<string, Item>, fingerprints': map<string, string>, lookups': map<string, Revision>,
      error: Option<Error>)
    requires k < |states| && Indexed(states, k, items, fingerprints, lookups)
    ensures error.None? ==> Indexed(states, k + 1, items', fingerprints', lookups')
    ensures error.Some? && !error.value.EdgeLimit? ==> Justified(states, 0, error.value)
    ensures error.Some? ==> !error.value.EdgeLimit? && !error.value.LocalDependencyMismatch?
  {
    hide AsMap, Coherent, AllDeps, AllLookups, ValidItem, Blames, UniqueIds, Contradicted;
    items', fingerprints', lookups' := items, fingerprints, lookups;
    var x := states[k];
    error := ValidateItem(x);
    Extend(states, k);
    PrefixOf(states, k + 1);
    if error.Some? {
      BlamesKinds(x, error.value);
      return;
    }
    NewName(states, k);
    if x.id in items {
      return items', fingerprints', lookups', Some(DuplicateItem(x.id));
    }
    items' := items[x.id := x];
    var conflict;
    fingerprints', conflict := Absorb(AllDeps(states[..k]), fingerprints, x.deps);
    if conflict.Some? {
      ContradictedMore(AllDeps(states[..k + 1]), AllDeps(states), conflict.value);
      return items', fingerprints', lookups', Some(FingerprintConflict(conflict.value));
    }
    lookups', conflict := Absorb(AllLookups(states[..k]), lookups, x.lookups);
    if conflict.Some? {
      ContradictedMore(AllLookups(states[..k + 1]), AllLookups(states), conflict.value);
      return items', fingerprints', lookups', Some(LookupConflict(conflict.value));
    }
    error := None;
  }

  lemma {:induction false} BlamesKinds(x: Item, e: Error)
    requires Blames(x, e)
    ensures e.InvalidIdentity? || e.InvalidHash? || e.DuplicateDependency? || e.DuplicateLookup?
  {
  }

  method CheckLocal(x: Item, items: map<string, Item>) returns (r: Option<Error>)
    ensures r.None? <==> Bound(x, items)
    ensures r.Some? ==> r.value.LocalDependencyMismatch?
  {
    var k := 0;
    while k < |x.deps|
      invariant k <= |x.deps|
      invariant forall a :: 0 <= a < k && x.deps[a].id in items ==> items[x.deps[a].id].content == x.deps[a].value
    {
      if x.deps[k].id in items && items[x.deps[k].id].content != x.deps[k].value {
        return Some(LocalDependencyMismatch(x.id, x.deps[k].id));
      }
      k := k + 1;
    }
    r := None;
  }

  /** Accepts exactly the well-formed snapshots within the edge limit, and indexes their items
      and lookup revisions completely. */
  method IndexStates(states: seq<Item>, maximum: nat) returns (r: Result<Index>)
    ensures r.Ok? <==> WellFormed(states) && Edges(states) <= maximum
    ensures r.Ok? ==> r.value.items == ItemMap(states) && r.value.lookups == AsMap(AllLookups(states))
    ensures r.Err? ==> Justified(states, maximum, r.error)
  {
    hide AsMap, Coherent, AllDeps, AllLookups, ValidItem, Blames, UniqueIds, Contradicted, Bound, Edges;
    var items: map<string, Item> := map[];
    var fingerprints: map<string, string>, lookups: map<string, Revision> := map[], map[];
    var k, edges := 0, 0;
    EmptyIndexed(states);
    while k < |states|
      invariant Indexed(states, k, items, fingerprints, lookups)
      invariant edges == Edges(states[..k]) <= maximum
    {
      Extend(states, k);
      PrefixOf(states, k + 1);
      edges := edges + |states[k].deps| + |states[k].lookups|;
      if edges > maximum {
        r := Err(EdgeLimit(edges, maximum));
        JustifiedRefutes(states, maximum, r.error);
        return;
      }
      var error;
      items, fingerprints, lookups, error := IndexItem(states, k, items, fingerprints, lookups);
      if error.Some? {
        r := Err(error.value);
        assert Justified(states, maximum, r.error);
        JustifiedRefutes(states, maximum, r.error);
        return;
      }
      k := k + 1;
    }
    assert states[..k] == states;
    k := 0;
    while k < |states|
      invariant k <= |states| && Indexed(states, |states|, items, fingerprints, lookups)
      invariant states[..|states|] == states
      invariant forall i :: 0 <= i < k ==> Bound(states[i], items)
    {
      var error := CheckLocal(states[k], items);
      if error.Some? {
        r := Err(error.value);
        JustifiedRefutes(states, maximum, r.error);
        return;
      }
      k := k + 1;
    }
    r := Ok(Index(items, lookups));
  }

  lemma {:induction false} EmptyIndexed(states: seq<Item>)
    ensures Indexed(states, 0, map[], map[], map[]) && Edges(states[..0]) == 0
  {
    assert states[..0] == [];
  }

  /** preflight_edge_count accepts exactly the pairs within the limit, so the two index_states
      calls after it never fail on the same limit. */
  method Preflight(previous: seq<Item>, current: seq<Item>, maximum: nat) returns (r: Option<Error>)
    ensures r.None? <==> Edges(previous) + Edges(current) <= maximum
    ensures r.Some? ==> r.value.EdgeLimit?
  {
    var all := previous + current;
    EdgesConcat(previous, current);
    var k, actual := 0, 0;
    while k < |all|
      invariant k <= |all| && actual == Edges(all[..k]) <= maximum
    {
      Extend(all, k);
      PrefixOf(all, k + 1);
      actual := actual + |all[k].deps| + |all[k].lookups|;
      if actual > maximum { return Some(EdgeLimit(actual, maximum)); }
      k := k + 1;
    }
    assert all[..k] == all;
    r := None;
  }

  lemma {:induction false} EdgesConcat(a: seq<Item>, b: seq<Item>)
    ensures Edges(a + b) == Edges(a) + Edges(b)
  {
    if b == [] {
      assert a + b == a;
    } else {
      assert (a + b)[..|a + b| - 1] == a + b[..|b| - 1];
      EdgesConcat(a, b[..|b| - 1]);
    }
  }
}
