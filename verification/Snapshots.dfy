/** Work-item states of a corpus snapshot, as the incremental planner indexes them.

    A snapshot is a list of items; the order of the list and of the lists inside an item does
    not matter, so the meaning of a snapshot is a map from identity to digest. */
module Snapshots {
  import opened Wrappers

  datatype Kind = Source | Derived

  datatype Revision = Revision(number: nat, emptyResult: bool)

  /** A dependency fingerprint (`V` a hash) or the revision of a lookup scope. */
  datatype Entry<V> = Entry(id: string, value: V)

  datatype Item = Item(
    id: string,
    kind: Kind,
    content: string,
    producer: string,
    deps: seq<Entry<string>>,
    lookups: seq<Entry<Revision>>)

  datatype Digest = Digest(
    kind: Kind,
    content: string,
    producer: string,
    deps: map<string, string>,
    lookups: map<string, Revision>)

  type Snapshot = map<string, Digest>

  datatype Error =
    | InvalidConfig(field: string)
    | InvalidIdentity(field: string)
    | InvalidHash(field: string, itemId: string)
    | DuplicateItem(itemId: string)
    | DuplicateDependency(itemId: string, dependencyId: string)
    | DuplicateLookup(itemId: string, scopeId: string)
    | FingerprintConflict(dependencyId: string)
    | LocalDependencyMismatch(itemId: string, dependencyId: string)
    | LookupConflict(scopeId: string)
    | ItemLimit(actual: nat, maximum: nat)
    | EdgeLimit(actual: nat, maximum: nat)

  datatype Result<T> = Ok(value: T) | Err(error: Error)

  // ---------------------------------------------------------------- entry lists

  predicate IdChar(c: char) {
    'a' <= c <= 'z' || 'A' <= c <= 'Z' || '0' <= c <= '9' || c in ":_-./"
  }

  predicate ValidId(s: string) {
    0 < |s| <= 256 && forall i :: 0 <= i < |s| ==> IdChar(s[i])
  }

  predicate ValidHash(s: string) {
    |s| == 64 && forall i :: 0 <= i < |s| ==> '0' <= s[i] <= '9' || 'a' <= s[i] <= 'f'
  }

  ghost predicate UniqueIds<V>(entries: seq<Entry<V>>) {
    forall a, b :: 0 <= a < b < |entries| ==> entries[a].id != entries[b].id
  }

  /** The entries as a map; a later entry replaces an earlier one. */
  function AsMap<V>(entries: seq<Entry<V>>): map<string, V> {
    if entries == [] then map[]
    else AsMap(entries[..|entries| - 1])[entries[|entries| - 1].id := entries[|entries| - 1].value]
  }

  function Ids<V>(entries: seq<Entry<V>>): set<string> { set a | 0 <= a < |entries| :: entries[a].id }

  lemma {:induction false} IdsAppend<V>(entries: seq<Entry<V>>, k: nat)
    requires k < |entries|
    ensures Ids(entries[..k + 1]) == Ids(entries[..k]) + {entries[k].id}
  {
    var a, b := entries[..k + 1], entries[..k];
    assert a == b + [entries[k]];
    assert a[k].id == entries[k].id;
    forall i | 0 <= i < k ensures b[i].id in Ids(a) { assert a[i] == b[i]; }
  }

  lemma {:induction false} AsMapKeys<V>(entries: seq<Entry<V>>)
    ensures AsMap(entries).Keys == Ids(entries)
  {
    if entries != [] {
      var k := |entries| - 1;
      AsMapKeys(entries[..k]);
      IdsAppend(entries, k);
      assert entries[..k + 1] == entries;
    }
  }

  lemma {:induction false} AsMapUnique<V>(entries: seq<Entry<V>>)
    requires UniqueIds(entries)
    ensures |AsMap(entries).Keys| == |entries|
    ensures forall a :: 0 <= a < |entries| ==>
        entries[a].id in AsMap(entries) && AsMap(entries)[entries[a].id] == entries[a].value
  {
    if entries != [] {
      var front, last := entries[..|entries| - 1], entries[|entries| - 1];
      var m, n := AsMap(front), AsMap(entries);
      assert n == m[last.id := last.value];
      hide AsMap;
      AsMapUnique(front);
      AsMapKeys(front);
      assert last.id !in m.Keys;
      assert n.Keys == m.Keys + {last.id};
      forall a | 0 <= a < |entries| ensures entries[a].id in n && n[entries[a].id] == entries[a].value {
        if a < |front| { assert front[a] == entries[a]; }
      }
    } else {
      assert AsMap(entries).Keys == {};
    }
  }

  lemma {:induction false} UniqueAppend<V>(entries: seq<Entry<V>>, k: nat)
    requires k + 1 == |entries|
    ensures UniqueIds(entries) <==> UniqueIds(entries[..k]) && entries[k].id !in Ids(entries[..k])
  {
    var front := entries[..k];
    if entries[k].id in Ids(front) {
      var i :| 0 <= i < k && front[i].id == entries[k].id;
      assert entries[i].id == entries[k].id;
    } else {
      assert forall i :: 0 <= i < k ==> front[i].id in Ids(front) && front[i] == entries[i];
    }
  }

  /** A list has as many identities as entries exactly when no identity repeats. */
  lemma {:induction false} IdsCount<V>(entries: seq<Entry<V>>)
    ensures |Ids(entries)| <= |entries|
    ensures |Ids(entries)| == |entries| <==> UniqueIds(entries)
  {
    if entries != [] {
      var k := |entries| - 1;
      var front, last := entries[..k], entries[k];
      IdsCount(front);
      IdsAppend(entries, k);
      assert entries[..k + 1] == entries;
      UniqueAppend(entries, k);
      hide Ids, UniqueIds;
      assert last.id in Ids(front) ==> Ids(entries) == Ids(front);
    }
  }

  /** same_dependencies and same_lookups: equal lengths, and every entry of `after` as in `before`. */
  predicate SameEntries<V(==)>(before: seq<Entry<V>>, after: seq<Entry<V>>) {
    && |before| == |after|
    && var indexed := AsMap(before);
       forall a :: 0 <= a < |after| ==> after[a].id in indexed && indexed[after[a].id] == after[a].value
  }

  lemma {:induction false} SubsetOfSameSize(a: set<string>, b: set<string>)
    requires a <= b && |a| == |b|
    ensures a == b
  {
    assert b == a + (b - a);
  }

  /** The one-sided test decides whether the two lists mean the same map. */
  lemma {:induction false} SameEntriesIsMapEquality<V>(before: seq<Entry<V>>, after: seq<Entry<V>>)
    requires UniqueIds(before) && UniqueIds(after)
    ensures SameEntries(before, after) <==> AsMap(before) == AsMap(after)
  {
    AsMapUnique(before);
    AsMapUnique(after);
    var m, n := AsMap(before), AsMap(after);
    if SameEntries(before, after) {
      AsMapKeys(after);
      SubsetOfSameSize(n.Keys, m.Keys);
      forall id | id in n ensures m[id] == n[id] {
        var a :| 0 <= a < |after| && after[a].id == id;
      }
    }
  }

  /** The same entries, in whatever order. */
  ghost predicate SameEntrySet<V(!new)>(a: seq<Entry<V>>, b: seq<Entry<V>>) {
    |a| == |b| && forall e :: e in a <==> e in b
  }

  lemma {:induction false} PermutedEntries<V(!new)>(a: seq<Entry<V>>, b: seq<Entry<V>>)
    requires multiset(a) == multiset(b)
    ensures SameEntrySet(a, b)
  {
    assert |multiset(a)| == |multiset(b)|;
    forall e ensures e in a <==> e in b { assert e in multiset(a) <==> e in multiset(b); }
  }

  lemma {:induction false} IdsWithin<V(!new)>(a: seq<Entry<V>>, b: seq<Entry<V>>)
    requires SameEntrySet(a, b)
    ensures Ids(a) <= Ids(b)
  {
    forall i | 0 <= i < |a| ensures a[i].id in Ids(b) {
      assert a[i] in b;
      var j :| 0 <= j < |b| && b[j] == a[i];
      assert b[j].id == a[i].id;
    }
  }

  lemma {:induction false} AsMapEntry<V>(entries: seq<Entry<V>>, id: string)
    requires UniqueIds(entries) && id in AsMap(entries)
    ensures Entry(id, AsMap(entries)[id]) in entries
  {
    AsMapUnique(entries);
    AsMapKeys(entries);
    hide AsMap, UniqueIds;
    var i :| 0 <= i < |entries| && entries[i].id == id;
    assert entries[i] == Entry(id, AsMap(entries)[id]);
  }

  lemma {:induction false} AsMapMember<V>(entries: seq<Entry<V>>, e: Entry<V>)
    requires UniqueIds(entries) && e in entries
    ensures e.id in AsMap(entries) && AsMap(entries)[e.id] == e.value
  {
    AsMapUnique(entries);
  }

  lemma {:induction false} UniqueIgnoresOrder<V(!new)>(a: seq<Entry<V>>, b: seq<Entry<V>>)
    requires SameEntrySet(a, b) && UniqueIds(a)
    ensures UniqueIds(b) && Ids(a) == Ids(b)
  {
    IdsWithin(a, b);
    IdsWithin(b, a);
    assert Ids(a) == Ids(b);
    IdsCount(a);
    IdsCount(b);
    hide Ids, UniqueIds;
    assert |Ids(b)| == |b|;
  }

  lemma {:induction false} ValueIgnoresOrder<V(!new)>(a: seq<Entry<V>>, b: seq<Entry<V>>, id: string)
    requires SameEntrySet(a, b) && UniqueIds(a) && UniqueIds(b) && id in AsMap(a)
    ensures id in AsMap(b) && AsMap(a)[id] == AsMap(b)[id]
  {
    hide AsMap, UniqueIds;
    AsMapEntry(a, id);
    AsMapMember(b, Entry(id, AsMap(a)[id]));
  }

  /** Uniqueness and the map do not depend on the order of the entries. */
  lemma {:induction false} OrderIgnored<V(!new)>(a: seq<Entry<V>>, b: seq<Entry<V>>)
    requires SameEntrySet(a, b) && UniqueIds(a)
    ensures UniqueIds(b) && AsMap(a) == AsMap(b)
  {
    hide AsMap, UniqueIds, Ids, SameEntrySet;
    UniqueIgnoresOrder(a, b);
    AsMapKeys(a);
    AsMapKeys(b);
    var m, n := AsMap(a), AsMap(b);
    forall id | id in m ensures id in n && m[id] == n[id] { ValueIgnoresOrder(a, b, id); }
    assert m.Keys == n.Keys;
  }

  // ---------------------------------------------------------------- valid items

  ghost predicate ValidItem(x: Item) {
    && ValidId(x.id) && ValidHash(x.content) && ValidHash(x.producer)
    && (forall a :: 0 <= a < |x.deps| ==> ValidId(x.deps[a].id) && ValidHash(x.deps[a].value))
    && UniqueIds(x.deps)
    && (forall a :: 0 <= a < |x.lookups| ==> ValidId(x.lookups[a].id))
    && UniqueIds(x.lookups)
  }

  /** What an error message claims about the item it blames. */
  ghost predicate Blames(x: Item, e: Error) {
    match e
    case InvalidIdentity(field) =>
      || (field == "item_id" && !ValidId(x.id))
      || (field == "dependency_id" && exists a :: 0 <= a < |x.deps| && !ValidId(x.deps[a].id))
      || (field == "lookup.scope_id" && exists a :: 0 <= a < |x.lookups| && !ValidId(x.lookups[a].id))
    case InvalidHash(field, itemId) =>
      && itemId == x.id
      && (|| (field == "content" && !ValidHash(x.content))
          || (field == "producer" && !ValidHash(x.producer))
          || (field == "dependency" && exists a :: 0 <= a < |x.deps| && !ValidHash(x.deps[a].value)))
    case DuplicateDependency(itemId, id) =>
      itemId == x.id && exists a, b :: 0 <= a < b < |x.deps| && x.deps[a].id == x.deps[b].id == id
    case DuplicateLookup(itemId, id) =>
      itemId == x.id && exists a, b :: 0 <= a < b < |x.lookups| && x.lookups[a].id == x.lookups[b].id == id
    case _ => false
  }

  /** A repeated identity breaks uniqueness; a new one keeps it. */
  lemma {:induction false} NextId<V>(entries: seq<Entry<V>>, k: nat)
    requires k < |entries| && UniqueIds(entries[..k])
    ensures entries[k].id in Ids(entries[..k]) ==>
        exists a, b :: 0 <= a < b < |entries| && entries[a].id == entries[b].id == entries[k].id
    ensures entries[k].id !in Ids(entries[..k]) ==> UniqueIds(entries[..k + 1])
    ensures Ids(entries[..k + 1]) == Ids(entries[..k]) + {entries[k].id}
  {
    IdsAppend(entries, k);
    assert entries[..k + 1][..k] == entries[..k];
    UniqueAppend(entries[..k + 1], k);
    if entries[k].id in Ids(entries[..k]) {
      var a :| 0 <= a < k && entries[..k][a].id == entries[k].id;
      assert entries[a].id == entries[k].id;
    }
  }

  lemma {:induction false} NoIds<V>(entries: seq<Entry<V>>)
    ensures Ids(entries[..0]) == {} && UniqueIds(entries[..0])
  {
  }

  method ValidateDeps(x: Item) returns (r: Option<Error>)
    ensures r.None? <==> UniqueIds(x.deps) && forall a :: 0 <= a < |x.deps| ==>
        ValidId(x.deps[a].id) && ValidHash(x.deps[a].value)
    ensures r.Some? ==> Blames(x, r.value)
  {
    hide Ids, ValidId, ValidHash;
    var seen: set<string> := {};
    NoIds(x.deps);
    for k := 0 to |x.deps|
      invariant seen == Ids(x.deps[..k]) && UniqueIds(x.deps[..k])
      invariant forall a :: 0 <= a < k ==> ValidId(x.deps[a].id) && ValidHash(x.deps[a].value)
    {
      NextId(x.deps, k);
      if !ValidId(x.deps[k].id) { return Some(InvalidIdentity("dependency_id")); }
      if !ValidHash(x.deps[k].value) { return Some(InvalidHash("dependency", x.id)); }
      if x.deps[k].id in seen { return Some(DuplicateDependency(x.id, x.deps[k].id)); }
      seen := seen + {x.deps[k].id};
    }
    assert x.deps[..|x.deps|] == x.deps;
    r := None;
  }

  method ValidateLookups(x: Item) returns (r: Option<Error>)
    ensures r.None? <==> UniqueIds(x.lookups) && forall a :: 0 <= a < |x.lookups| ==> ValidId(x.lookups[a].id)
    ensures r.Some? ==> Blames(x, r.value)
  {
    hide Ids, ValidId;
    var seen: set<string> := {};
    NoIds(x.lookups);
    for k := 0 to |x.lookups|
      invariant seen == Ids(x.lookups[..k]) && UniqueIds(x.lookups[..k])
      invariant forall a :: 0 <= a < k ==> ValidId(x.lookups[a].id)
    {
      NextId(x.lookups, k);
      if !ValidId(x.lookups[k].id) { return Some(InvalidIdentity("lookup.scope_id")); }
      if x.lookups[k].id in seen { return Some(DuplicateLookup(x.id, x.lookups[k].id)); }
      seen := seen + {x.lookups[k].id};
    }
    assert x.lookups[..|x.lookups|] == x.lookups;
    r := None;
  }

  /** validate_state accepts exactly the valid items and blames something that is so. */
  method ValidateItem(x: Item) returns (r: Option<Error>)
    ensures r.None? <==> ValidItem(x)
    ensures r.Some? ==> Blames(x, r.value)
  {
    if !ValidId(x.id) { return Some(InvalidIdentity("item_id")); }
    if !ValidHash(x.content) { return Some(InvalidHash("content", x.id)); }
    if !ValidHash(x.producer) { return Some(InvalidHash("producer", x.id)); }
    r := ValidateDeps(x);
    if r.Some? { return; }
    r := ValidateLookups(x);
  }
}
