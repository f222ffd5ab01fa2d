/** The identities of a document batch: records, artifacts and external dependencies.

    BatchIndexes enters the records one after the other and refuses the first clash.  Whatever
    the order, it accepts exactly the batches in which record identities are distinct from each
    other, from artifacts and from dependencies, and equal artifact identities mean equal
    artifacts; so an identity resolves in one way only. */
module Namespaces {

  datatype RecordKind =
    | BatchRecord | Source | Text | Structure | Provision | Version | Chunk | Edition | Regulation
    | Observation | Change

  datatype ArtifactRef = ArtifactRef(id: string, sha256: string, size: nat, details: string)

  /** What is known about a local record: its kind and, for a text, its normalized size. */
  datatype Owner = Owner(kind: RecordKind, size: nat)

  /** One thing a batch brings in: a record of its own, or a mention of an artifact. */
  datatype Entry =
    | Local(id: string, corpus: string, owner: Owner)
    | Artifact(reference: ArtifactRef)

  datatype Index = Index(local: map<string, Owner>, artifacts: map<string, ArtifactRef>)

  type Fingerprints = map<string, string>

  // ---------------------------------------------------------------- what is accepted

  predicate Sole(deps: Fingerprints, corpus: string, e: Entry) {
    match e
    case Local(id, c, _) => c == corpus && id !in deps
    case Artifact(r) => r.id in deps ==> deps[r.id] == r.sha256
  }

  function IdOf(e: Entry): string { match e case Local(id, _, _) => id case Artifact(r) => r.id }

  predicate Compatible(e: Entry, f: Entry) { IdOf(e) == IdOf(f) ==> e.Artifact? && f == e }

  ghost predicate Acceptable(deps: Fingerprints, corpus: string, entries: seq<Entry>) {
    && (forall i :: 0 <= i < |entries| ==> Sole(deps, corpus, entries[i]))
    && (forall i, j :: 0 <= i < j < |entries| ==> Compatible(entries[i], entries[j]))
  }

  /** The index holds exactly what the entries bring in. */
  ghost predicate Represents(index: Index, entries: seq<Entry>) {
    && (forall i :: 0 <= i < |entries| && entries[i].Local? ==>
        entries[i].id in index.local && index.local[entries[i].id] == entries[i].owner)
    && (forall i :: 0 <= i < |entries| && entries[i].Artifact? ==>
          entries[i].reference.id in index.artifacts
            && index.artifacts[entries[i].reference.id] == entries[i].reference)
    && (forall id :: id in index.local ==> exists i :: 0 <= i < |entries| && entries[i].Local? && entries[i].id == id)
    && (forall id :: id in index.artifacts ==>
        exists i :: 0 <= i < |entries| && entries[i].Artifact? && entries[i].reference.id == id)
  }

  /** What insert and insert_artifact test. */
  predicate Enters(index: Index, deps: Fingerprints, corpus: string, e: Entry) {
    match e
    case Local(id, c, _) => c == corpus && id !in deps && id !in index.artifacts && id !in index.local
    case Artifact(r) =>
      && r.id !in index.local
      && (r.id in deps ==> deps[r.id] == r.sha256)
      && (r.id in index.artifacts ==> index.artifacts[r.id] == r)
  }

  function Entered(index: Index, e: Entry): Index {
    match e
    case Local(id, _, owner) => index.(local := index.local[id := owner])
    case Artifact(r) => index.(artifacts := index.artifacts[r.id := r])
  }

  function IndexOf(entries: seq<Entry>): Index {
    if entries == [] then Index(map[], map[]) else Entered(IndexOf(entries[..|entries| - 1]), entries[|entries| - 1])
  }

  /** The test against the index is the test against every entry so far. */
  lemma {:induction false} EntersExactly(
      index: Index, deps: Fingerprints, corpus: string, entries: seq<Entry>, e: Entry)
    requires Represents(index, entries) && Acceptable(deps, corpus, entries)
    ensures Enters(index, deps, corpus, e) <==> Acceptable(deps, corpus, entries + [e])
  {
    var more := entries + [e];
    assert more[|entries|] == e;
    assert forall i :: 0 <= i < |entries| ==> more[i] == entries[i];
    if Enters(index, deps, corpus, e) {
      forall i | 0 <= i < |entries| ensures Compatible(entries[i], e) {
        if entries[i].Local? {
          assert entries[i].id in index.local;
        } else {
          assert entries[i].reference.id in index.artifacts;
        }
      }
    } else if Sole(deps, corpus, e) {
      Clash(index, entries, deps, corpus, e);
    }
  }

  lemma {:induction false} Clash(index: Index, entries: seq<Entry>, deps: Fingerprints, corpus: string, e: Entry)
    requires Represents(index, entries) && !Enters(index, deps, corpus, e) && Sole(deps, corpus, e)
    ensures !Acceptable(deps, corpus, entries + [e])
  {
    var more, n := entries + [e], |entries|;
    assert more[n] == e;
    var id := IdOf(e);
    if id in index.local {
      var i :| 0 <= i < n && entries[i].Local? && entries[i].id == id;
      assert more[i] == entries[i];
      assert !Compatible(more[i], more[n]);
    } else {
      var i :| 0 <= i < n && entries[i].Artifact? && entries[i].reference.id == id;
      assert more[i] == entries[i];
      assert !Compatible(more[i], more[n]);
    }
  }

  lemma {:induction false} EnteredRepresents(
      index: Index, deps: Fingerprints, corpus: string, entries: seq<Entry>, e: Entry)
    requires Represents(index, entries) && Enters(index, deps, corpus, e)
    ensures Represents(Entered(index, e), entries + [e])
  {
    var more, index' := entries + [e], Entered(index, e);
    assert more[|entries|] == e;
    assert forall i :: 0 <= i < |entries| ==> more[i] == entries[i];
    forall id | id in index'.local ensures exists i :: 0 <= i < |more| && more[i].Local? && more[i].id == id {
      if id in index.local {
        var i :| 0 <= i < |entries| && entries[i].Local? && entries[i].id == id;
        assert more[i].id == id;
      }
    }
    forall id | id in index'.artifacts
      ensures exists i :: 0 <= i < |more| && more[i].Artifact? && more[i].reference.id == id
    {
      if id in index.artifacts {
        var i :| 0 <= i < |entries| && entries[i].Artifact? && entries[i].reference.id == id;
        assert more[i].reference.id == id;
      }
    }
  }

  lemma {:induction false} PrefixAcceptable(deps: Fingerprints, corpus: string, entries: seq<Entry>, k: nat)
    requires k <= |entries| && Acceptable(deps, corpus, entries)
    ensures Acceptable(deps, corpus, entries[..k])
  {
  }

  lemma {:induction false} NothingEntered(deps: Fingerprints, corpus: string)
    ensures Represents(Index(map[], map[]), []) && Acceptable(deps, corpus, [])
  {
  }

  // ---------------------------------------------------------------- the index

  class BatchIndexes {
    var local: map<string, Owner>
    var artifacts: map<string, ArtifactRef>
    const deps: Fingerprints

    ghost function Value(): Index
      reads this
    {
      Index(local, artifacts)
    }

    constructor (deps: Fingerprints)
      ensures this.deps == deps && Value() == Index(map[], map[])
    {
      local, artifacts := map[], map[];
      this.deps := deps;
    }

    /** check_meta and insert */
    method Insert(id: string, corpus: string, owner: Owner, expected: string) returns (ok: bool)
      modifies this
      ensures ok <==> Enters(old(Value()), deps, expected, Local(id, corpus, owner))
      ensures Value() == if ok then Entered(old(Value()), Local(id, corpus, owner)) else old(Value())
    {
      if corpus != expected { return false; }
      if id in deps || id in artifacts || id in local { return false; }
      local := local[id := owner];
      ok := true;
    }

    /** insert_artifact */
    method InsertArtifact(r: ArtifactRef, ghost expected: string) returns (ok: bool)
      modifies this
      ensures ok <==> Enters(old(Value()), deps, expected, Artifact(r))
      ensures Value() == if ok then Entered(old(Value()), Artifact(r)) else old(Value())
    {
      if r.id in local { return false; }
      if r.id in deps && deps[r.id] != r.sha256 { return false; }
      if r.id in artifacts {
        if artifacts[r.id] != r { return false; }
        assert artifacts == artifacts[r.id := r];
      } else {
        artifacts := artifacts[r.id := r];
      }
      ok := true;
    }

    /** Enters everything a batch brings in: accepted exactly when the identities are in order,
        whatever their order, and then the index holds exactly the batch's identities. */
    method Build(entries: seq<Entry>, corpus: string) returns (ok: bool)
      requires Value() == Index(map[], map[])
      modifies this
      ensures ok <==> Acceptable(deps, corpus, entries)
      ensures ok ==> Represents(Value(), entries) && Value() == IndexOf(entries)
    {
      hide Represents, Acceptable, Enters, Entered;
      assert entries[..0] == [];
      NothingEntered(deps, corpus);
      for k := 0 to |entries|
        invariant Represents(Value(), entries[..k]) && Acceptable(deps, corpus, entries[..k])
        invariant Value() == IndexOf(entries[..k])
      {
        ghost var before := Value();
        var e := entries[k];
        assert entries[..k + 1] == entries[..k] + [e] && entries[..k + 1][..k] == entries[..k];
        EntersExactly(before, deps, corpus, entries[..k], e);
        match e {
          case Local(id, c, owner) => ok := Insert(id, c, owner, corpus);
          case Artifact(r) => ok := InsertArtifact(r, corpus);
        }
        if !ok {
          if Acceptable(deps, corpus, entries) { PrefixAcceptable(deps, corpus, entries, k + 1); }
          return;
        }
        EnteredRepresents(before, deps, corpus, entries[..k], e);
      }
      assert entries[..|entries|] == entries;
      ok := true;
    }
  }

  // ---------------------------------------------------------------- resolving references

  datatype Target =
    | Typed(kind: RecordKind, id: string)
    | LocalStructure(id: string)
    | External(id: string)
    | Matching(reference: ArtifactRef)
    | Within(textId: string, end: nat)

  predicate IsKind(index: Index, kind: RecordKind, id: string) { id in index.local && index.local[id].kind == kind }

  predicate IsExternal(index: Index, deps: Fingerprints, id: string) {
    id !in index.local && id !in index.artifacts && id in deps
  }

  /** typed_or_dependency, external_dependency, artifact_matches and text_span_fits */
  predicate Resolves(index: Index, deps: Fingerprints, t: Target) {
    match t
    case Typed(kind, id) => IsKind(index, kind, id) || IsExternal(index, deps, id)
    case LocalStructure(id) => IsKind(index, Structure, id)
    case External(id) => IsExternal(index, deps, id)
    case Matching(r) =>
      if r.id in index.artifacts then index.artifacts[r.id] == r
      else r.id !in index.local && r.id in deps && deps[r.id] == r.sha256
    case Within(textId, end) =>
      (IsKind(index, Text, textId) && end <= index.local[textId].size) || IsExternal(index, deps, textId)
  }

  /** A record's identity occurs once among all entries. */
  lemma {:induction false} LocalIsAlone(deps: Fingerprints, corpus: string, entries: seq<Entry>, i: nat)
    requires Acceptable(deps, corpus, entries) && i < |entries| && entries[i].Local?
    ensures forall j :: 0 <= j < |entries| && j != i ==> IdOf(entries[j]) != entries[i].id
  {
    assert forall j :: 0 <= j < i ==> Compatible(entries[j], entries[i]);
    assert forall j :: i < j < |entries| ==> Compatible(entries[i], entries[j]);
  }

  /** In an accepted batch the three namespaces do not mix: a record is neither an artifact nor
      a dependency, and an artifact that is also a dependency has the manifest's fingerprint. */
  lemma {:induction false} NamespacesAreDisjoint(index: Index, deps: Fingerprints, corpus: string, entries: seq<Entry>)
    requires Represents(index, entries) && Acceptable(deps, corpus, entries)
    ensures index.local.Keys !! index.artifacts.Keys && index.local.Keys !! deps.Keys
    ensures forall id :: id in index.artifacts && id in deps ==> deps[id] == index.artifacts[id].sha256
  {
    forall id | id in index.local ensures id !in index.artifacts && id !in deps {
      var i :| 0 <= i < |entries| && entries[i].Local? && entries[i].id == id;
      assert Sole(deps, corpus, entries[i]);
      LocalIsAlone(deps, corpus, entries, i);
      hide Acceptable;
    }
    forall id | id in index.artifacts && id in deps ensures deps[id] == index.artifacts[id].sha256 {
      var j :| 0 <= j < |entries| && entries[j].Artifact? && entries[j].reference.id == id;
      assert Sole(deps, corpus, entries[j]);
    }
  }

  ghost predicate SoleOwner(entries: seq<Entry>, kind: RecordKind, id: string, i: nat) {
    && i < |entries| && entries[i].Local? && entries[i].id == id && entries[i].owner.kind == kind
    && forall j :: 0 <= j < |entries| && j != i ==> IdOf(entries[j]) != id
  }

  /** Nothing the batch brings in has this identity. */
  ghost predicate Absent(entries: seq<Entry>, id: string) {
    forall i :: 0 <= i < |entries| ==> IdOf(entries[i]) != id
  }

  /** Something outside the batch that the manifest fingerprints. */
  ghost predicate Outside(entries: seq<Entry>, deps: Fingerprints, id: string) { id in deps && Absent(entries, id) }

  /** What a reference means, without the index: exactly one record of the right kind, an artifact
      mentioned as it is, a text long enough, or something outside the batch; never two of them. */
  ghost predicate Means(entries: seq<Entry>, deps: Fingerprints, t: Target) {
    match t
    case Typed(kind, id) => (exists i: nat :: SoleOwner(entries, kind, id, i)) || Outside(entries, deps, id)
    case LocalStructure(id) => exists i: nat :: SoleOwner(entries, Structure, id, i)
    case External(id) => Outside(entries, deps, id)
    case Matching(r) => Artifact(r) in entries || (Outside(entries, deps, r.id) && deps[r.id] == r.sha256)
    case Within(textId, end) =>
      || (exists i: nat :: SoleOwner(entries, Text, textId, i) && end <= entries[i].owner.size)
      || Outside(entries, deps, textId)
  }

  lemma {:induction false} LocalMeans(
      index: Index, deps: Fingerprints, corpus: string, entries: seq<Entry>, kind: RecordKind, id: string)
    requires Represents(index, entries) && Acceptable(deps, corpus, entries)
    ensures IsKind(index, kind, id) <==> exists i: nat :: SoleOwner(entries, kind, id, i)
    ensures forall i: nat :: SoleOwner(entries, kind, id, i) ==>
        id in index.local && index.local[id] == entries[i].owner
  {
    if IsKind(index, kind, id) {
      var i :| 0 <= i < |entries| && entries[i].Local? && entries[i].id == id;
      LocalIsAlone(deps, corpus, entries, i);
      assert SoleOwner(entries, kind, id, i);
    }
  }

  lemma {:induction false} ExternalMeans(index: Index, deps: Fingerprints, entries: seq<Entry>, id: string)
    requires Represents(index, entries)
    ensures IsExternal(index, deps, id) <==> Outside(entries, deps, id)
  {
    if id !in index.local && id !in index.artifacts {
      forall i | 0 <= i < |entries| ensures IdOf(entries[i]) != id {
        assert entries[i].Local? ==> entries[i].id in index.local;
        assert entries[i].Artifact? ==> entries[i].reference.id in index.artifacts;
      }
    } else if id in index.local {
      var i :| 0 <= i < |entries| && entries[i].Local? && entries[i].id == id;
      assert IdOf(entries[i]) == id;
    } else {
      var i :| 0 <= i < |entries| && entries[i].Artifact? && entries[i].reference.id == id;
      assert IdOf(entries[i]) == id;
    }
  }

  lemma {:induction false} MatchingMeans(index: Index, deps: Fingerprints, entries: seq<Entry>, r: ArtifactRef)
    requires Represents(index, entries)
    ensures r.id in index.artifacts && index.artifacts[r.id] == r <==> Artifact(r) in entries
  {
    if r.id in index.artifacts {
      var i :| 0 <= i < |entries| && entries[i].Artifact? && entries[i].reference.id == r.id;
      assert index.artifacts[r.id] == entries[i].reference;
      assert entries[i] == Artifact(entries[i].reference);
    }
    if Artifact(r) in entries {
      var i :| 0 <= i < |entries| && entries[i] == Artifact(r);
      assert entries[i].reference.id in index.artifacts;
    }
  }

  /** Reference closure: the test against the index accepts a reference of any kind exactly when
      it means something in the batch or outside it. */
  lemma {:induction false} ResolvesOneWay(
      index: Index, deps: Fingerprints, corpus: string, entries: seq<Entry>, t: Target)
    requires Represents(index, entries) && Acceptable(deps, corpus, entries)
    ensures Resolves(index, deps, t) <==> Means(entries, deps, t)
  {
    match t
    case Typed(kind, id) =>
      LocalMeans(index, deps, corpus, entries, kind, id);
      ExternalMeans(index, deps, entries, id);
      hide Represents, Acceptable, SoleOwner, Outside, IsKind, IsExternal;
    case LocalStructure(id) =>
      LocalMeans(index, deps, corpus, entries, Structure, id);
      hide Represents, Acceptable, SoleOwner, IsKind;
    case External(id) =>
      ExternalMeans(index, deps, entries, id);
      hide Represents, Acceptable, Outside, IsExternal;
    case Matching(r) =>
      MatchingMeans(index, deps, entries, r);
      ExternalMeans(index, deps, entries, r.id);
      hide Represents, Acceptable, Outside;
    case Within(textId, end) =>
      LocalMeans(index, deps, corpus, entries, Text, textId);
      ExternalMeans(index, deps, entries, textId);
      hide Represents, Acceptable, SoleOwner, Outside, IsExternal;
  }

  /** The index of an accepted batch holds exactly its entries. */
  lemma {:induction false} AcceptableRepresents(deps: Fingerprints, corpus: string, entries: seq<Entry>)
    requires Acceptable(deps, corpus, entries)
    ensures Represents(IndexOf(entries), entries)
  {
    hide Represents, Acceptable, Enters, Entered;
    if entries == [] {
      NothingEntered(deps, corpus);
    } else {
      var n := |entries| - 1;
      PrefixAcceptable(deps, corpus, entries, n);
      AcceptableRepresents(deps, corpus, entries[..n]);
      assert entries == entries[..n] + [entries[n]];
      EntersExactly(IndexOf(entries[..n]), deps, corpus, entries[..n], entries[n]);
      EnteredRepresents(IndexOf(entries[..n]), deps, corpus, entries[..n], entries[n]);
    }
  }
}
