/** Joining native embeddings to index records by identity.

    Results come back in any order.  Both joins fill a map and drain it in the order of the
    request, so each record gets its own chunk's vector whatever the order of the results. */
module IndexJoin {
  import opened Wrappers
  import opened Snapshots

  type Word = x: nat | x < 0x1_0000_0000

  /** The values of a dense vector as 32-bit patterns. */
  type Vector = seq<Word>

  predicate Distinct(keys: seq<string>) { forall i, j :: 0 <= i < j < |keys| ==> keys[i] != keys[j] }

  ghost predicate Drains<V>(keys: seq<string>, m: map<string, V>) {
    Distinct(keys) && forall i :: 0 <= i < |keys| ==> keys[i] in m
  }

  /** Takes the values of the keys out of a map, in the order of the keys. */
  method Drain<V>(keys: seq<string>, m: map<string, V>) returns (r: Option<seq<V>>, left: map<string, V>)
    ensures r.Some? <==> Drains(keys, m)
    ensures r.Some? ==> |r.value| == |keys| && forall i :: 0 <= i < |keys| ==> r.value[i] == m[keys[i]]
    ensures r.Some? ==> left.Keys == m.Keys - (set i | 0 <= i < |keys| :: keys[i])
  {
    left := m;
    var values: seq<V> := [];
    for k := 0 to |keys|
      invariant |values| == k && (forall i :: 0 <= i < k ==> keys[i] in m && values[i] == m[keys[i]])
      invariant left == m - (set i | 0 <= i < k :: keys[i])
      invariant forall i, j :: 0 <= i < j < k ==> keys[i] != keys[j]
    {
      if keys[k] !in left {
        return None, left;
      }
      values := values + [left[keys[k]]];
      left := left - {keys[k]};
    }
    r := Some(values);
  }

  // ---------------------------------------------------------------- materialize_dense_vectors

  datatype Outcome = Embedded(vector: Vector) | Refused | Absent

  /** What the native service answers for one item. */
  type Response = Entry<Outcome>

  /** The model and the numeric checks on a vector: its length, its norm, its token counts. */
  type Check = Vector -> bool

  ghost predicate Usable(results: seq<Response>, check: Check) {
    UniqueIds(results) && forall i :: 0 <= i < |results| ==>
      results[i].value.Embedded? && check(results[i].value.vector)
  }

  function Vectors(results: seq<Response>): (r: seq<Entry<Vector>>)
    ensures |r| == |results|
    ensures forall i :: 0 <= i < |r| ==>
        r[i] == Entry(results[i].id, if results[i].value.Embedded? then results[i].value.vector else [])
  {
    seq(|results|, i requires 0 <= i < |results| =>
      Entry(results[i].id, if results[i].value.Embedded? then results[i].value.vector else []))
  }

  /** Fills the map, refusing a bad vector or a repeated identity. */
  method Fill(results: seq<Response>, check: Check) returns (r: Option<map<string, Vector>>)
    ensures r.Some? <==> Usable(results, check)
    ensures r.Some? ==> r.value == AsMap(Vectors(results))
  {
    hide AsMap, Ids;
    var m: map<string, Vector> := map[];
    ghost var all := Vectors(results);
    FillNone(all);
    for k := 0 to |results|
      invariant UniqueIds(all[..k]) && m == AsMap(all[..k])
      invariant forall i :: 0 <= i < k ==> results[i].value.Embedded? && check(results[i].value.vector)
    {
      FillOne(all, k);
      if !results[k].value.Embedded? || !check(results[k].value.vector) || results[k].id in m {
        assert results[k].id in m ==> !UniqueIds(results) by {
          if results[k].id in m { SameIdsUnique(results); }
        }
        return None;
      }
      m := m[results[k].id := results[k].value.vector];
    }
    assert all[..|results|] == all;
    SameIdsUnique(results);
    r := Some(m);
  }

  lemma {:induction false} FillNone(all: seq<Entry<Vector>>)
    ensures UniqueIds(all[..0]) && AsMap(all[..0]) == map[]
  {
    assert all[..0] == [];
  }

  lemma {:induction false} FillOne(all: seq<Entry<Vector>>, k: nat)
    requires k < |all| && UniqueIds(all[..k])
    ensures AsMap(all[..k + 1]) == AsMap(all[..k])[all[k].id := all[k].value]
    ensures all[k].id in AsMap(all[..k]) ==> !UniqueIds(all)
    ensures all[k].id !in AsMap(all[..k]) ==> UniqueIds(all[..k + 1])
  {
    assert all[..k + 1][..k] == all[..k];
    AsMapKeys(all[..k]);
    NextId(all, k);
  }

  lemma {:induction false} SameIdsUnique(results: seq<Response>)
    ensures UniqueIds(Vectors(results)) <==> UniqueIds(results)
  {
    assert forall i :: 0 <= i < |results| ==> Vectors(results)[i].id == results[i].id;
  }

  /** One vector for each requested item, in the order of the request. */
  method Materialize(items: seq<string>, results: seq<Response>, check: Check) returns (r: Option<seq<Entry<Vector>>>)
    ensures r.Some? <==> |results| == |items| && Usable(results, check) && Drains(items, AsMap(Vectors(results)))
    ensures r.Some? ==> |r.value| == |items|
    ensures r.Some? ==> forall i :: 0 <= i < |items| ==>
        r.value[i] == Entry(items[i], AsMap(Vectors(results))[items[i]])
  {
    hide AsMap, Usable;
    if |results| != |items| { return None; }
    var m := Fill(results, check);
    if m.None? { return None; }
    var values, left := Drain(items, m.value);
    if values.None? { return None; }
    // equal counts leave nothing behind: the source's last check never fails
    NothingLeft(items, results, check, left);
    assert left == map[];
    r := Some(seq(|items|, i requires 0 <= i < |items| => Entry(items[i], values.value[i])));
  }

  lemma {:induction false} DistinctCount(keys: seq<string>)
    requires Distinct(keys)
    ensures |(set i | 0 <= i < |keys| :: keys[i])| == |keys|
  {
    if keys != [] {
      var n := |keys| - 1;
      var front := keys[..n];
      DistinctCount(front);
      var a, b := set i | 0 <= i < |keys| :: keys[i], set i | 0 <= i < |front| :: front[i];
      forall x | x in a ensures x in b + {keys[n]} {
        var i :| 0 <= i < |keys| && keys[i] == x;
        if i < n { assert front[i] == x; }
      }
      forall x | x in b ensures x in a && x != keys[n] {
        var i :| 0 <= i < |front| && front[i] == x;
        assert keys[i] == x;
      }
      assert keys[n] in a;
      assert a == b + {keys[n]};
    }
  }

  lemma {:induction false} NothingLeft(
      items: seq<string>, results: seq<Response>, check: Check, left: map<string, Vector>)
    requires Usable(results, check) && |results| == |items| && Drains(items, AsMap(Vectors(results)))
    requires left.Keys == AsMap(Vectors(results)).Keys - (set i | 0 <= i < |items| :: items[i])
    ensures left == map[]
  {
    var keys, taken := AsMap(Vectors(results)).Keys, set i | 0 <= i < |items| :: items[i];
    SameIdsUnique(results);
    AsMapUnique(Vectors(results));
    DistinctCount(items);
    hide AsMap, Usable;
    SubsetOfSameSize(taken, keys);
    assert left.Keys == {};
  }

  // ---------------------------------------------------------------- PreparedBuild::finish

  datatype Sparse = Sparse(indices: seq<Word>, values: seq<Word>)

  /** An index record: its identities, its vectors. */
  datatype Record = Record(recordId: string, chunkId: string, dense: Option<Vector>, sparse: Option<Sparse>)

  function ChunkIds(records: seq<Record>): (r: seq<string>)
    ensures |r| == |records|
    ensures forall i :: 0 <= i < |r| ==> r[i] == records[i].chunkId
  {
    seq(|records|, i requires 0 <= i < |records| => records[i].chunkId)
  }

  function Wrapped(dense: seq<Entry<Vector>>): (r: seq<Response>)
    ensures |r| == |dense|
    ensures forall i :: 0 <= i < |r| ==> r[i] == Entry(dense[i].id, Embedded(dense[i].value))
  {
    seq(|dense|, i requires 0 <= i < |dense| => Entry(dense[i].id, Embedded(dense[i].value)))
  }

  /** Gives each record the vector of its own chunk, or fails: for a wrong count, a bad or
      repeated vector, or a chunk without one.  Nothing else of a record changes. */
  method Finish(records: seq<Record>, dense: seq<Entry<Vector>>, check: Check) returns (r: Option<seq<Record>>)
    ensures r.Some? <==>
        && |dense| == |records| && Usable(Wrapped(dense), check)
        && Drains(ChunkIds(records), AsMap(dense))
    ensures r.Some? ==> |r.value| == |records|
    ensures r.Some? ==> forall i :: 0 <= i < |records| ==>
        r.value[i] == records[i].(dense := Some(AsMap(dense)[records[i].chunkId]))
  {
    hide AsMap, Usable;
    if |dense| != |records| { return None; }
    assert Vectors(Wrapped(dense)) == dense;
    var m := Fill(Wrapped(dense), check);
    if m.None? { return None; }
    var values, _ := Drain(ChunkIds(records), m.value);
    if values.None? { return None; }
    r := Some(seq(|records|, i requires 0 <= i < |records| => records[i].(dense := Some(values.value[i]))));
  }

  // ---------------------------------------------------------------- both joins together

  /** What materialize_dense_vectors returns. */
  ghost function Materialized(items: seq<string>, results: seq<Response>, check: Check): Option<seq<Entry<Vector>>> {
    var m := AsMap(Vectors(results));
    if |results| == |items| && Usable(results, check) && Drains(items, m) then
      Some(seq(|items|, i requires 0 <= i < |items| => Entry(items[i], m[items[i]])))
    else None
  }

  /** What finish makes of the records. */
  ghost function Finished(records: seq<Record>, dense: seq<Entry<Vector>>, check: Check): Option<seq<Record>> {
    var m := AsMap(dense);
    if |dense| == |records| && Usable(Wrapped(dense), check) && Drains(ChunkIds(records), m) then
      Some(seq(|records|, i requires 0 <= i < |records| => records[i].(dense := Some(m[records[i].chunkId]))))
    else None
  }

  /** The records after both joins; `check` is the client's test of a vector, `accept` the build's. */
  ghost function Joined(records: seq<Record>, items: seq<string>, results: seq<Response>, check: Check, accept: Check)
    : Option<seq<Record>>
  {
    match Materialized(items, results, check)
    case None => None
    case Some(dense) => Finished(records, dense, accept)
  }

  method JoinAll(records: seq<Record>, items: seq<string>, results: seq<Response>, check: Check, accept: Check)
    returns (r: Option<seq<Record>>)
    ensures r == Joined(records, items, results, check, accept)
  {
    hide AsMap, Usable, Drains, Vectors, Wrapped;
    var dense := Materialize(items, results, check);
    assert dense.Some? ==> dense.value == Materialized(items, results, check).value;
    if dense.None? { return None; }
    r := Finish(records, dense.value, accept);
    assert r.Some? ==> r.value == Finished(records, dense.value, accept).value;
  }

  lemma {:induction false} VectorsWithin(a: seq<Response>, b: seq<Response>, e: Entry<Vector>)
    requires SameEntrySet(a, b) && e in Vectors(a)
    ensures e in Vectors(b)
  {
    var i :| 0 <= i < |a| && Vectors(a)[i] == e;
    assert a[i] in b;
    var j :| 0 <= j < |b| && b[j] == a[i];
    assert Vectors(b)[j] == e;
  }

  lemma {:induction false} VectorsPermute(a: seq<Response>, b: seq<Response>)
    requires SameEntrySet(a, b)
    ensures SameEntrySet(Vectors(a), Vectors(b))
  {
    forall e ensures e in Vectors(a) <==> e in Vectors(b) {
      if e in Vectors(a) { VectorsWithin(a, b, e); }
      if e in Vectors(b) { VectorsWithin(b, a, e); }
    }
  }

  lemma {:induction false} UsableStays(a: seq<Response>, b: seq<Response>, check: Check)
    requires SameEntrySet(a, b) && Usable(a, check)
    ensures Usable(b, check) && AsMap(Vectors(a)) == AsMap(Vectors(b))
  {
    OrderIgnored(a, b);
    VectorsPermute(a, b);
    SameIdsUnique(a);
    OrderIgnored(Vectors(a), Vectors(b));
    hide AsMap, UniqueIds;
    forall i | 0 <= i < |b| ensures b[i].value.Embedded? && check(b[i].value.vector) {
      assert b[i] in a;
    }
  }

  /** The order in which the native service returns its results does not matter: neither to
      whether they are accepted nor to what each record gets. */
  lemma {:induction false} ResultOrderIsIrrelevant(
      records: seq<Record>, items: seq<string>, a: seq<Response>, b: seq<Response>, check: Check, accept: Check)
    requires multiset(a) == multiset(b)
    ensures Materialized(items, a, check) == Materialized(items, b, check)
    ensures Joined(records, items, a, check, accept) == Joined(records, items, b, check, accept)
  {
    PermutedEntries(a, b);
    PermutedEntries(b, a);
    if Usable(a, check) {
      UsableStays(a, b, check);
    } else if Usable(b, check) {
      UsableStays(b, a, check);
    }
    hide AsMap, Usable, Drains, Vectors, Finished;
  }

  /** `r` is `was` with the vector the service computed for its chunk. */
  ghost predicate Carries(r: Record, was: Record, results: seq<Response>, j: nat) {
    && j < |results| && results[j].id == was.chunkId && results[j].value.Embedded?
    && r == was.(dense := Some(results[j].value.vector))
  }

  lemma {:induction false} ItemsResult(items: seq<string>, results: seq<Response>, check: Check, i: nat)
    returns (j: nat)
    requires Materialized(items, results, check).Some? && i < |items|
    ensures j < |results| && results[j].id == items[i] && results[j].value.Embedded?
    ensures Materialized(items, results, check).value[i] == Entry(items[i], results[j].value.vector)
  {
    var v := Vectors(results);
    SameIdsUnique(results);
    AsMapEntry(v, items[i]);
    j :| 0 <= j < |v| && v[j] == Entry(items[i], AsMap(v)[items[i]]);
    hide AsMap;
  }

  lemma {:induction false} DenseIsUnique(items: seq<string>, results: seq<Response>, check: Check)
    requires Materialized(items, results, check).Some?
    ensures UniqueIds(Materialized(items, results, check).value)
  {
    var out := Materialized(items, results, check).value;
    hide AsMap, Usable;
    forall p, q | 0 <= p < q < |out| ensures out[p].id != out[q].id { assert items[p] != items[q]; }
  }

  /** Through both joins each finished record carries exactly the vector the service computed for
      its own chunk; no result has that identity twice, and nothing else of the record changes. */
  lemma {:induction false} EachRecordGetsItsOwn(
      records: seq<Record>, items: seq<string>, results: seq<Response>, check: Check, accept: Check,
      k: nat) returns (j: nat)
    requires Joined(records, items, results, check, accept).Some? && k < |records|
    ensures |Joined(records, items, results, check, accept).value| == |records| && UniqueIds(results)
    ensures Carries(Joined(records, items, results, check, accept).value[k], records[k], results, j)
  {
    var dense := Materialized(items, results, check).value;
    var id := records[k].chunkId;
    DenseIsUnique(items, results, check);
    assert id in AsMap(dense) by { assert ChunkIds(records)[k] == id; }
    AsMapEntry(dense, id);
    var i :| 0 <= i < |dense| && dense[i] == Entry(id, AsMap(dense)[id]);
    hide AsMap;
    j := ItemsResult(items, results, check, i);
  }
}
