/** The order of a snapshot's items, and of the lists inside an item, is irrelevant.

    Rearranging both snapshots changes neither whether there is a plan nor the plan. */
module PlanOrder {
  import opened Snapshots
  import opened Indexing
  import opened Planner

  /** The same item with its dependencies and lookups in any order. */
  ghost predicate Alike(x: Item, y: Item) {
    && x.id == y.id && x.kind == y.kind && x.content == y.content && x.producer == y.producer
    && multiset(x.deps) == multiset(y.deps) && multiset(x.lookups) == multiset(y.lookups)
  }

  ghost predicate AllAlike(a: seq<Item>, b: seq<Item>) {
    |a| == |b| && forall i :: 0 <= i < |a| ==> Alike(a[i], b[i])
  }

  /** The same items in any order, each with its lists in any order. */
  ghost predicate Rearranged(a: seq<Item>, b: seq<Item>) {
    exists c :: AllAlike(a, c) && multiset(c) == multiset(b)
  }

  // ---------------------------------------------------------------- each item has its partner

  ghost predicate HasPartner(x: Item, b: seq<Item>) { exists j :: 0 <= j < |b| && Alike(x, b[j]) }

  /** Every item of either list has a partner in the other. */
  ghost predicate Paired(a: seq<Item>, b: seq<Item>) {
    && |a| == |b|
    && (forall i :: 0 <= i < |a| ==> HasPartner(a[i], b))
    && (forall i :: 0 <= i < |b| ==> HasPartner(b[i], a))
  }

  lemma {:induction false} PermutationMember(a: seq<Item>, b: seq<Item>, i: nat) returns (j: nat)
    requires multiset(a) == multiset(b) && i < |a|
    ensures j < |b| && b[j] == a[i]
  {
    assert a[i] in multiset(b);
    j :| j < |b| && b[j] == a[i];
  }

  lemma {:induction false} RearrangedArePaired(a: seq<Item>, b: seq<Item>)
    requires Rearranged(a, b)
    ensures Paired(a, b)
  {
    var c :| AllAlike(a, c) && multiset(c) == multiset(b);
    assert |multiset(c)| == |multiset(b)|;
    hide Alike;
    forall i | 0 <= i < |a| ensures HasPartner(a[i], b) {
      var j := PermutationMember(c, b, i);
      assert Alike(a[i], b[j]);
    }
    forall i | 0 <= i < |b| ensures HasPartner(b[i], a) {
      var j := PermutationMember(b, c, i);
      assert Alike(b[i], a[j]) by { AlikeSymmetric(a[j], b[i]); }
    }
  }

  lemma {:induction false} AlikeSymmetric(x: Item, y: Item)
    requires Alike(x, y)
    ensures Alike(y, x)
  {
  }

  /** Rearranging keeps the number of edges. */
  lemma {:induction false} AlikeEdges(a: seq<Item>, b: seq<Item>)
    requires AllAlike(a, b)
    ensures Edges(a) == Edges(b)
  {
    if a != [] {
      var n := |a| - 1;
      AlikeEdges(a[..n], b[..n]);
      assert Alike(a[n], b[n]);
      assert |multiset(a[n].deps)| == |multiset(b[n].deps)| && |multiset(a[n].lookups)| == |multiset(b[n].lookups)|;
    }
  }

  function Without(s: seq<Item>, j: nat): seq<Item>
    requires j < |s|
  {
    s[..j] + s[j + 1..]
  }

  lemma {:induction false} EdgesWithout(s: seq<Item>, j: nat)
    requires j < |s|
    ensures Edges(s) == Edges(Without(s, j)) + |s[j].deps| + |s[j].lookups|
  {
    assert Edges([s[j]]) == |s[j].deps| + |s[j].lookups| by { assert [s[j]][..0] == []; }
    hide Edges;
    assert s == s[..j] + ([s[j]] + s[j + 1..]);
    EdgesConcat(s[..j], [s[j]] + s[j + 1..]);
    EdgesConcat([s[j]], s[j + 1..]);
    EdgesConcat(s[..j], s[j + 1..]);
  }

  lemma {:induction false} MultisetWithout(s: seq<Item>, j: nat)
    requires j < |s|
    ensures multiset(Without(s, j)) == multiset(s) - multiset{s[j]}
  {
    assert s == s[..j] + ([s[j]] + s[j + 1..]);
  }

  lemma {:induction false} PermutedEdges(a: seq<Item>, b: seq<Item>)
    requires multiset(a) == multiset(b)
    ensures Edges(a) == Edges(b)
  {
    assert |multiset(a)| == |multiset(b)|;
    if a != [] {
      hide Edges, Without;
      var j := PermutationMember(a, b, 0);
      MultisetWithout(a, 0);
      MultisetWithout(b, j);
      EdgesWithout(a, 0);
      EdgesWithout(b, j);
      assert |multiset(Without(a, 0))| < |multiset(a)|;
      PermutedEdges(Without(a, 0), Without(b, j));
    }
  }

  lemma {:induction false} RearrangedEdges(a: seq<Item>, b: seq<Item>)
    requires Rearranged(a, b)
    ensures Edges(a) == Edges(b)
  {
    var c :| AllAlike(a, c) && multiset(c) == multiset(b);
    AlikeEdges(a, c);
    PermutedEdges(c, b);
  }

  // ---------------------------------------------------------------- entries

  lemma {:induction false} AllDepsMember(states: seq<Item>, e: Entry<string>)
    ensures e in AllDeps(states) <==> exists i :: 0 <= i < |states| && e in states[i].deps
  {
    if states != [] {
      var n := |states| - 1;
      AllDepsMember(states[..n], e);
      if i :| 0 <= i < n && e in states[..n][i].deps { assert e in states[i].deps; }
      if i :| 0 <= i < |states| && e in states[i].deps { assert i < n ==> e in states[..n][i].deps; }
    }
  }

  lemma {:induction false} AllLookupsMember(states: seq<Item>, e: Entry<Revision>)
    ensures e in AllLookups(states) <==> exists i :: 0 <= i < |states| && e in states[i].lookups
  {
    if states != [] {
      var n := |states| - 1;
      AllLookupsMember(states[..n], e);
      if i :| 0 <= i < n && e in states[..n][i].lookups { assert e in states[i].lookups; }
      if i :| 0 <= i < |states| && e in states[i].lookups { assert i < n ==> e in states[..n][i].lookups; }
    }
  }

  /** The same entries, however often and in whatever order. */
  ghost predicate SameMembers<V(!new)>(a: seq<Entry<V>>, b: seq<Entry<V>>) { forall e :: e in a <==> e in b }

  lemma {:induction false} AlikeMembers(x: Item, y: Item)
    requires Alike(x, y)
    ensures SameEntrySet(x.deps, y.deps) && SameEntrySet(x.lookups, y.lookups)
  {
    PermutedEntries(x.deps, y.deps);
    PermutedEntries(x.lookups, y.lookups);
  }

  lemma {:induction false} DepsWithin(a: seq<Item>, b: seq<Item>, e: Entry<string>)
    requires Paired(a, b) && e in AllDeps(a)
    ensures e in AllDeps(b)
  {
    AllDepsMember(a, e);
    AllDepsMember(b, e);
    hide Alike, AllDeps;
    var i :| 0 <= i < |a| && e in a[i].deps;
    assert HasPartner(a[i], b);
    var j :| 0 <= j < |b| && Alike(a[i], b[j]);
    hide Paired, HasPartner;
    AlikeMembers(a[i], b[j]);
  }

  lemma {:induction false} LookupsWithin(a: seq<Item>, b: seq<Item>, e: Entry<Revision>)
    requires Paired(a, b) && e in AllLookups(a)
    ensures e in AllLookups(b)
  {
    AllLookupsMember(a, e);
    AllLookupsMember(b, e);
    hide Alike, AllLookups;
    var i :| 0 <= i < |a| && e in a[i].lookups;
    assert HasPartner(a[i], b);
    var j :| 0 <= j < |b| && Alike(a[i], b[j]);
    hide Paired, HasPartner;
    AlikeMembers(a[i], b[j]);
  }

  lemma {:induction false} PairedMembers(a: seq<Item>, b: seq<Item>)
    requires Paired(a, b)
    ensures SameMembers(AllDeps(a), AllDeps(b)) && SameMembers(AllLookups(a), AllLookups(b))
  {
    hide Paired, AllDeps, AllLookups, HasPartner, Alike;
    PairedSymmetric(a, b);
    forall e ensures e in AllDeps(a) <==> e in AllDeps(b) {
      if e in AllDeps(a) { DepsWithin(a, b, e); }
      if e in AllDeps(b) { DepsWithin(b, a, e); }
    }
    forall e ensures e in AllLookups(a) <==> e in AllLookups(b) {
      if e in AllLookups(a) { LookupsWithin(a, b, e); }
      if e in AllLookups(b) { LookupsWithin(b, a, e); }
    }
  }

  lemma {:induction false} CoherentMembers<V(!new)>(a: seq<Entry<V>>, b: seq<Entry<V>>)
    requires Coherent(a) && SameMembers(a, b)
    ensures Coherent(b)
  {
    forall i, j | 0 <= i < j < |b| && b[i].id == b[j].id ensures b[i].value == b[j].value {
      assert b[i] in a && b[j] in a;
      var k :| 0 <= k < |a| && a[k] == b[i];
      var m :| 0 <= m < |a| && a[m] == b[j];
    }
  }

  /** A coherent list and its map hold the same entries. */
  lemma {:induction false} CoherentMap<V>(entries: seq<Entry<V>>, id: string)
    requires Coherent(entries)
    ensures id in AsMap(entries) ==> Entry(id, AsMap(entries)[id]) in entries
    ensures forall e :: e in entries && e.id == id ==> id in AsMap(entries) && AsMap(entries)[id] == e.value
  {
    if entries != [] {
      var n := |entries| - 1;
      CoherentMap(entries[..n], id);
      assert entries == entries[..n] + [entries[n]];
    }
  }

  lemma {:induction false} CoherentMapsAgree<V(!new)>(a: seq<Entry<V>>, b: seq<Entry<V>>)
    requires Coherent(a) && Coherent(b) && SameMembers(a, b)
    ensures AsMap(a) == AsMap(b)
  {
    var m, n := AsMap(a), AsMap(b);
    forall id ensures (id in m <==> id in n) && (id in m ==> m[id] == n[id]) {
      CoherentMap(a, id);
      CoherentMap(b, id);
      hide AsMap, Coherent;
      if id in m { assert Entry(id, m[id]) in b; }
      if id in n { assert Entry(id, n[id]) in a; }
    }
  }

  // ---------------------------------------------------------------- well-formedness and meaning

  lemma {:induction false} AlikeValid(x: Item, y: Item)
    requires Alike(x, y) && ValidItem(x)
    ensures ValidItem(y) && Meaning(x) == Meaning(y)
  {
    AlikeMembers(x, y);
    OrderIgnored(x.deps, y.deps);
    OrderIgnored(x.lookups, y.lookups);
    hide UniqueIds, AsMap, ValidId, ValidHash;
    forall i | 0 <= i < |y.deps| ensures ValidId(y.deps[i].id) && ValidHash(y.deps[i].value) {
      assert y.deps[i] in x.deps;
    }
    forall i | 0 <= i < |y.lookups| ensures ValidId(y.lookups[i].id) {
      assert y.lookups[i] in x.lookups;
    }
  }

  lemma {:induction false} PairedIds(a: seq<Item>, b: seq<Item>)
    requires Paired(a, b)
    ensures Ids(Named(a)) <= Ids(Named(b))
  {
    forall i | 0 <= i < |a| ensures a[i].id in Ids(Named(b)) {
      assert HasPartner(a[i], b);
      var j :| 0 <= j < |b| && Alike(a[i], b[j]);
      assert Named(b)[j].id == a[i].id;
    }
  }

  lemma {:induction false} PairedSymmetric(a: seq<Item>, b: seq<Item>)
    requires Paired(a, b)
    ensures Paired(b, a)
  {
  }

  lemma {:induction false} PairedUnique(a: seq<Item>, b: seq<Item>)
    requires Paired(a, b) && UniqueIds(Named(a))
    ensures UniqueIds(Named(b)) && ItemMap(a).Keys == ItemMap(b).Keys
  {
    PairedSymmetric(a, b);
    hide Paired;
    PairedIds(a, b);
    PairedIds(b, a);
    assert Ids(Named(a)) == Ids(Named(b));
    IdsCount(Named(a));
    IdsCount(Named(b));
    AsMapKeys(Named(a));
    AsMapKeys(Named(b));
    assert |a| == |b| by { PairedLength(a, b); }
    hide Ids, UniqueIds, AsMap;
  }

  lemma {:induction false} PairedLength(a: seq<Item>, b: seq<Item>)
    requires Paired(a, b)
    ensures |a| == |b|
  {
  }

  lemma {:induction false} Looked(a: seq<Item>, id: string) returns (i: nat)
    requires UniqueIds(Named(a)) && id in ItemMap(a)
    ensures i < |a| && a[i].id == id && ItemMap(a)[id] == a[i]
  {
    hide AsMap, UniqueIds;
    AsMapEntry(Named(a), id);
    i :| i < |a| && Named(a)[i] == Entry(id, ItemMap(a)[id]);
  }

  /** The item under an identity is alike in both. */
  lemma {:induction false} PairedItem(a: seq<Item>, b: seq<Item>, id: string)
    requires Paired(a, b) && UniqueIds(Named(a)) && UniqueIds(Named(b)) && id in ItemMap(a)
    ensures id in ItemMap(b) && Alike(ItemMap(a)[id], ItemMap(b)[id])
  {
    var i := Looked(a, id);
    assert HasPartner(a[i], b);
    var j :| 0 <= j < |b| && Alike(a[i], b[j]);
    assert Named(b)[j] == Entry(id, b[j]);
    hide AsMap, UniqueIds, Alike, Paired;
    AsMapMember(Named(b), Entry(id, b[j]));
  }

  /** Dependencies bound to items of `a` are bound to their partners in `b`. */
  lemma {:induction false} BoundAlike(x: Item, y: Item, m: map<string, Item>, n: map<string, Item>)
    requires Alike(x, y) && Bound(x, m)
    requires forall id :: id in n ==> id in m && m[id].content == n[id].content
    ensures Bound(y, n)
  {
    AlikeMembers(x, y);
    hide Alike;
    forall i | 0 <= i < |y.deps| && y.deps[i].id in n ensures n[y.deps[i].id].content == y.deps[i].value {
      assert y.deps[i] in x.deps;
      var k :| 0 <= k < |x.deps| && x.deps[k] == y.deps[i];
    }
  }

  lemma {:induction false} PairedContents(a: seq<Item>, b: seq<Item>)
    requires Paired(a, b) && UniqueIds(Named(a)) && UniqueIds(Named(b))
    ensures forall id :: id in ItemMap(b) ==> id in ItemMap(a) && ItemMap(a)[id].content == ItemMap(b)[id].content
  {
    hide ItemMap, UniqueIds, Paired, HasPartner;
    PairedSymmetric(a, b);
    forall id | id in ItemMap(b) ensures id in ItemMap(a) && ItemMap(a)[id].content == ItemMap(b)[id].content {
      PairedItem(b, a, id);
    }
  }

  lemma {:induction false} Partner(a: seq<Item>, b: seq<Item>, k: nat) returns (j: nat)
    requires Paired(a, b) && k < |b|
    ensures j < |a| && Alike(a[j], b[k])
  {
    assert HasPartner(b[k], a);
    j :| j < |a| && Alike(b[k], a[j]);
  }

  lemma {:induction false} PairedBound(a: seq<Item>, b: seq<Item>, k: nat)
    requires Paired(a, b) && WellFormed(a) && UniqueIds(Named(b)) && k < |b|
    ensures ValidItem(b[k]) && Bound(b[k], ItemMap(b))
  {
    hide ItemMap, ValidItem, UniqueIds, Paired, Bound, Alike, Coherent;
    var j := Partner(a, b, k);
    assert ValidItem(a[j]) && Bound(a[j], ItemMap(a)) && UniqueIds(Named(a));
    hide WellFormed;
    PairedContents(a, b);
    AlikeValid(a[j], b[k]);
    BoundAlike(a[j], b[k], ItemMap(a), ItemMap(b));
  }

  lemma {:induction false} PairedMeaning(a: seq<Item>, b: seq<Item>)
    requires Paired(a, b) && WellFormed(a) && UniqueIds(Named(b))
    ensures SnapshotOf(ItemMap(a)) == SnapshotOf(ItemMap(b))
  {
    hide Paired, ItemMap, UniqueIds, ValidItem, Bound, Coherent, Meaning, Alike, HasPartner;
    PairedUnique(a, b);
    forall id | id in ItemMap(a) ensures id in ItemMap(b) && Meaning(ItemMap(a)[id]) == Meaning(ItemMap(b)[id]) {
      var i := Looked(a, id);
      PairedItem(a, b, id);
      AlikeValid(ItemMap(a)[id], ItemMap(b)[id]);
    }
  }

  lemma {:induction false} PairedWellFormed(a: seq<Item>, b: seq<Item>)
    requires Paired(a, b) && WellFormed(a)
    ensures WellFormed(b) && SnapshotOf(ItemMap(a)) == SnapshotOf(ItemMap(b))
    ensures AsMap(AllLookups(a)) == AsMap(AllLookups(b))
  {
    hide Paired, Coherent, AllDeps, AllLookups, AsMap, ItemMap, UniqueIds, ValidItem, Bound, SameMembers, SnapshotOf;
    PairedUnique(a, b);
    PairedMembers(a, b);
    CoherentMembers(AllDeps(a), AllDeps(b));
    CoherentMembers(AllLookups(a), AllLookups(b));
    CoherentMapsAgree(AllLookups(a), AllLookups(b));
    forall k | 0 <= k < |b| ensures ValidItem(b[k]) && Bound(b[k], ItemMap(b)) { PairedBound(a, b, k); }
    PairedMeaning(a, b);
  }

  // ---------------------------------------------------------------- the plan

  /** What PlanUpdate returns. */
  ghost predicate PlanFor(p: Plan, previous: seq<Item>, current: seq<Item>) {
    && IsPlan(p, SnapshotOf(ItemMap(previous)), SnapshotOf(ItemMap(current)))
    && p.lookups == AsMap(AllLookups(current))
  }

  /** Rearranging keeps size, acceptance and meaning of a snapshot. */
  lemma {:induction false} RearrangedKeeps(a: seq<Item>, b: seq<Item>)
    requires Rearranged(a, b)
    ensures |a| == |b| && Edges(a) == Edges(b) && (WellFormed(a) <==> WellFormed(b))
    ensures WellFormed(a) ==>
      SnapshotOf(ItemMap(a)) == SnapshotOf(ItemMap(b)) && AsMap(AllLookups(a)) == AsMap(AllLookups(b))
  {
    hide Paired, Rearranged, WellFormed, Edges, ItemMap, AsMap, AllLookups, SnapshotOf;
    RearrangedArePaired(a, b);
    RearrangedEdges(a, b);
    PairedLength(a, b);
    PairedSymmetric(a, b);
    if WellFormed(a) { PairedWellFormed(a, b); }
    if WellFormed(b) { PairedWellFormed(b, a); }
  }

  /** The revisions a plan carries are exactly those of the current items. */
  lemma {:induction false} LookupsAreCurrent(p: Plan, previous: seq<Item>, current: seq<Item>, e: Entry<Revision>)
    requires WellFormed(current) && PlanFor(p, previous, current)
    ensures e.id in p.lookups && p.lookups[e.id] == e.value
      <==> exists i :: 0 <= i < |current| && e in current[i].lookups
  {
    assert Coherent(AllLookups(current)) by { hide Coherent, AllLookups, AllDeps, ValidItem, Bound, UniqueIds; }
    hide WellFormed, IsPlan, AllLookups, AsMap;
    CoherentMap(AllLookups(current), e.id);
    AllLookupsMember(current, e);
  }

  /** The number of edges counted is the number of dependencies and lookups listed. */
  lemma {:induction false} EdgesAreListed(states: seq<Item>)
    ensures Edges(states) == |AllDeps(states)| + |AllLookups(states)|
  {
    if states != [] { EdgesAreListed(states[..|states| - 1]); }
  }

  /** Rearranged snapshots are accepted under the same limits, and then have the same one plan. */
  lemma {:induction false} OrderIsIrrelevant(
      previous: seq<Item>, current: seq<Item>, previous': seq<Item>, current': seq<Item>, config: Config)
    requires Rearranged(previous, previous') && Rearranged(current, current')
    ensures Plannable(previous, current, config) <==> Plannable(previous', current', config)
    ensures Plannable(previous, current, config) ==>
      forall p, q :: PlanFor(p, previous, current) && PlanFor(q, previous', current') ==> p == q
  {
    hide Rearranged, WellFormed, Edges, ItemMap, AsMap, AllLookups, SnapshotOf, KindsAgree, IsPlan;
    RearrangedKeeps(previous, previous');
    RearrangedKeeps(current, current');
    if Plannable(previous, current, config) {
      forall p, q | PlanFor(p, previous, current) && PlanFor(q, previous', current') ensures p == q {
        PlanIsDetermined(p, q, SnapshotOf(ItemMap(previous)), SnapshotOf(ItemMap(current)));
      }
    }
  }
}
