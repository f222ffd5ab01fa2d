/** The content-addressed artifact store: concurrent writers, crashes and readers.

    A writer inspects the destination, writes a temporary file in chunks and renames it.  Every
    step can interleave with every other writer's; a process can crash at any point and its
    identifier can be reused.  Only writers touch the store's directory. */
module Store {
  import opened Wrappers
  import opened Artifacts

  datatype Result<T> = Ok(value: T) | Err

  type Files = map<string, Bytes>

  /** Where a writer is; `sequence` is the number in its temporary file's name. */
  datatype Phase =
    | Inspect
    | Create(sequence: nat)
    | Write(sequence: nat, written: nat)
    | Rename(sequence: nat)
    | Recheck(sequence: nat)
    | Cleanup(sequence: nat, thenVerify: bool)
    | Recover(sequence: nat)
    | Verify
    | Stored
    | Failed
    | Dead

  datatype Request = Request(namespace: string, mediaType: string, version: nat, bytes: Bytes)

  datatype Writer = Writer(pid: nat, request: Request, phase: Phase) {
    predicate HasTemp() {
      phase.Create? || phase.Write? || phase.Rename? || phase.Recheck? || phase.Cleanup? || phase.Recover?
    }
    predicate Finished() { phase.Stored? || phase.Failed? || phase.Dead? }
  }

  /** The directory, the live processes with their next sequence number, and all calls so far. */
  datatype State = State(files: Files, processes: map<nat, nat>, writers: seq<Writer>)

  datatype Event = Proceed | Chunk(size: nat) | IoError

  datatype Step =
    | Launch(pid: nat)
    | Crash(pid: nat)
    | Put(pid: nat, request: Request)
    | Advance(i: nat, event: Event)

  function Destination(hash: Digest, r: Request): string
    requires IsSha256(hash(r.bytes))
  {
    StorageKey(hash(r.bytes))
  }

  function Temp(hash: Digest, w: Writer): string
    requires IsSha256(hash(w.request.bytes)) && w.HasTemp()
  {
    TempKey(hash(w.request.bytes), w.pid, w.phase.sequence)
  }

  /** verify_file */
  predicate Verified(hash: Digest, files: Files, key: string, sha: string, size: nat, maximum: nat) {
    key in files && |files[key]| == size && size <= maximum && hash(files[key]) == sha
  }

  predicate AcceptsPut(r: Request, maximum: nat) {
    ValidMetadata(r.namespace, r.mediaType, r.version) && |r.bytes| <= maximum
  }

  ghost predicate Enabled(s: State, step: Step, maximum: nat) {
    match step
    case Launch(pid) => pid !in s.processes
    case Crash(pid) => pid in s.processes
    case Put(pid, r) => pid in s.processes && AcceptsPut(r, maximum)
    case Advance(i, event) =>
      && i < |s.writers| && !s.writers[i].Finished() && s.writers[i].pid in s.processes
      && (event.Chunk? ==>
            && s.writers[i].phase.Write?
            && s.writers[i].phase.written + event.size <= |s.writers[i].request.bytes|)
      && (event.Proceed? && s.writers[i].phase.Write? ==> s.writers[i].phase.written == |s.writers[i].request.bytes|)
  }

  /** What one writer does next: the directory, its phase and whether it takes a number. */
  function WriterStep(
      hash: Digest, files: Files, next: nat, w: Writer, event: Event, maximum: nat): (Files, Phase, bool)
    requires IsSha256(hash(w.request.bytes)) && !w.Finished()
    requires event.Chunk? ==> w.phase.Write? && w.phase.written + event.size <= |w.request.bytes|
  {
    var sha := hash(w.request.bytes);
    var dest := Destination(hash, w.request);
    match w.phase
    case Inspect =>
      if event.IoError? then (files, Failed, false)
      else if dest in files then (files, Verify, false)
      else (files, Create(next), true)
    case Verify =>
      if event.Proceed? && Verified(hash, files, dest, sha, |w.request.bytes|, maximum) then (files, Stored, false)
      else (files, Failed, false)
    case Create(q) =>
      if event.IoError? || Temp(hash, w) in files then (files, Cleanup(q, false), false)
      else (files[Temp(hash, w) := []], Write(q, 0), false)
    case Write(q, n) =>
      if event.IoError? then (files, Cleanup(q, false), false)
      else if event.Chunk? then (files[Temp(hash, w) := w.request.bytes[..n + event.size]], Write(q, n + event.size),
        false)
      else (files, Rename(q), false)
    case Rename(q) =>
      if event.IoError? || Temp(hash, w) !in files then (files, Recheck(q), false)
      else (files[dest := files[Temp(hash, w)]] - {Temp(hash, w)}, Stored, false)
    case Recheck(q) => (files, Cleanup(q, dest in files), false)
    case Cleanup(q, thenVerify) => (files - {Temp(hash, w)}, if thenVerify then Recover(q) else Failed, false)
    case Recover(q) =>
      if event.Proceed? && Verified(hash, files, dest, sha, |w.request.bytes|, maximum) then (files, Stored, false)
      else (files, Cleanup(q, false), false)
  }

  function Kill(writers: seq<Writer>, pid: nat): (r: seq<Writer>)
    ensures |r| == |writers|
    ensures forall i :: 0 <= i < |r| ==>
        r[i] == if writers[i].pid == pid && !writers[i].Finished() then writers[i].(phase := Dead) else writers[i]
  {
    seq(|writers|, i requires 0 <= i < |writers| =>
        if writers[i].pid == pid && !writers[i].Finished() then writers[i].(phase := Dead) else writers[i])
  }

  ghost function Apply(hash: Digest, s: State, step: Step, maximum: nat): State
    requires Sha(hash) && Enabled(s, step, maximum)
  {
    match step
    case Launch(pid) => s.(processes := s.processes[pid := 1])
    case Crash(pid) => s.(processes := s.processes - {pid}, writers := Kill(s.writers, pid))
    case Put(pid, r) => s.(writers := s.writers + [Writer(pid, r, Inspect)])
    case Advance(i, event) =>
      var w := s.writers[i];
      var (files, phase, takes) := WriterStep(hash, s.files, s.processes[w.pid], w, event, maximum);
      State(files,
            if takes then s.processes[w.pid := s.processes[w.pid] + 1] else s.processes,
            s.writers[i := w.(phase := phase)])
  }

  // ---------------------------------------------------------------- invariant

  /** The file under a digest's key hashes to that digest. */
  ghost predicate Addressed(hash: Digest, files: Files) {
    forall sha :: IsSha256(sha) && StorageKey(sha) in files ==> hash(files[StorageKey(sha)]) == sha
  }

  /** What a writer can rely on. */
  ghost predicate WriterOk(hash: Digest, files: Files, processes: map<nat, nat>, w: Writer, maximum: nat)
    requires Sha(hash)
  {
    && AcceptsPut(w.request, maximum)
    && (!w.Finished() ==> w.pid in processes)
    && (w.HasTemp() ==> w.pid in processes && w.phase.sequence < processes[w.pid])
    && (w.phase.Write? ==>
          && w.phase.written <= |w.request.bytes| && Temp(hash, w) in files
          && files[Temp(hash, w)] == w.request.bytes[..w.phase.written])
    && (w.phase.Rename? ==> Temp(hash, w) in files && files[Temp(hash, w)] == w.request.bytes)
    && (w.phase.Verify? || w.phase.Recover? || (w.phase.Cleanup? && w.phase.thenVerify) || w.phase.Stored? ==>
        Destination(hash, w.request) in files)
  }

  ghost predicate SeparateTemps(writers: seq<Writer>) {
    forall i, j :: 0 <= i < j < |writers| && writers[i].HasTemp() && writers[j].HasTemp() ==>
      writers[i].pid == writers[j].pid ==> writers[i].phase.sequence != writers[j].phase.sequence
  }

  /** Some call of the run was asked to store these bytes. */
  ghost predicate Requested(writers: seq<Writer>, bytes: Bytes) {
    exists i :: 0 <= i < |writers| && writers[i].request.bytes == bytes
  }

  /** Every artifact is what some call was asked to store. */
  ghost predicate Sourced(files: Files, writers: seq<Writer>) {
    forall sha :: IsSha256(sha) && StorageKey(sha) in files ==> Requested(writers, files[StorageKey(sha)])
  }

  ghost predicate Inv(hash: Digest, s: State, maximum: nat)
    requires Sha(hash)
  {
    && Addressed(hash, s.files)
    && Sourced(s.files, s.writers)
    && SeparateTemps(s.writers)
    && forall i :: 0 <= i < |s.writers| ==> WriterOk(hash, s.files, s.processes, s.writers[i], maximum)
  }

  lemma {:induction false} WriterStepFiles(hash: Digest, files: Files, next: nat, w: Writer, event: Event, maximum: nat)
    requires Sha(hash) && !w.Finished() && Addressed(hash, files)
    requires event.Chunk? ==> w.phase.Write? && w.phase.written + event.size <= |w.request.bytes|
    requires w.phase.Rename? && Temp(hash, w) in files ==> files[Temp(hash, w)] == w.request.bytes
    ensures
      var files' := WriterStep(hash, files, next, w, event, maximum).0;
      Addressed(hash, files') && Spares(hash, files, files', w)
  {
    var sha := hash(w.request.bytes);
    assert IsSha256(sha);
    var files' := WriterStep(hash, files, next, w, event, maximum).0;
    forall other | IsSha256(other) && StorageKey(other) in files' ensures hash(files'[StorageKey(other)]) == other {
      if w.HasTemp() { TempIsNotKey(sha, w.pid, w.phase.sequence, other); }
      if StorageKey(other) == StorageKey(sha) { KeyInjective(other, sha); }
      hide StorageKey, TempKey;
    }
  }

  /** The only contents a step can put under an artifact's key are the writer's own bytes. */
  lemma {:induction false} WriterStepSources(
      hash: Digest, files: Files, next: nat, w: Writer, event: Event, maximum: nat, sha: string)
    requires Sha(hash) && !w.Finished() && IsSha256(sha)
    requires event.Chunk? ==> w.phase.Write? && w.phase.written + event.size <= |w.request.bytes|
    requires w.phase.Rename? && Temp(hash, w) in files ==> files[Temp(hash, w)] == w.request.bytes
    ensures
      var key, files' := StorageKey(sha), WriterStep(hash, files, next, w, event, maximum).0;
      key in files' ==> files'[key] == w.request.bytes || (key in files && files'[key] == files[key])
  {
    assert IsSha256(hash(w.request.bytes));
    if w.HasTemp() { TempIsNotKey(hash(w.request.bytes), w.pid, w.phase.sequence, sha); }
    hide StorageKey, TempKey;
  }

  lemma {:induction false} RequestedStays(writers: seq<Writer>, writers': seq<Writer>, bytes: Bytes)
    requires Requested(writers, bytes) && |writers| <= |writers'|
    requires forall i :: 0 <= i < |writers| ==> writers'[i].request == writers[i].request
    ensures Requested(writers', bytes)
  {
    var i :| 0 <= i < |writers| && writers[i].request.bytes == bytes;
    assert writers'[i].request.bytes == bytes;
  }

  lemma {:induction false} SourcedStays(files: Files, writers: seq<Writer>, writers': seq<Writer>)
    requires Sourced(files, writers) && |writers| <= |writers'|
    requires forall i :: 0 <= i < |writers| ==> writers'[i].request == writers[i].request
    ensures Sourced(files, writers')
  {
    forall sha | IsSha256(sha) && StorageKey(sha) in files ensures Requested(writers', files[StorageKey(sha)]) {
      RequestedStays(writers, writers', files[StorageKey(sha)]);
    }
  }

  lemma {:induction false} SourcedAfter(hash: Digest, s: State, i: nat, event: Event, maximum: nat)
    requires Sha(hash) && Inv(hash, s, maximum) && Enabled(s, Advance(i, event), maximum)
    ensures
      var s' := Apply(hash, s, Advance(i, event), maximum);
      Sourced(s'.files, s'.writers)
  {
    var w, s' := s.writers[i], Apply(hash, s, Advance(i, event), maximum);
    assert WriterOk(hash, s.files, s.processes, w, maximum);
    forall sha | IsSha256(sha) && StorageKey(sha) in s'.files ensures Requested(s'.writers, s'.files[StorageKey(sha)]) {
      WriterStepSources(hash, s.files, s.processes[w.pid], w, event, maximum, sha);
      hide WriterStep, WriterOk;
      if s'.files[StorageKey(sha)] == w.request.bytes {
        assert s'.writers[i].request.bytes == w.request.bytes;
      } else {
        RequestedStays(s.writers, s'.writers, s.files[StorageKey(sha)]);
      }
    }
  }

  /** What a step of `w` does not do to the others' files. */
  ghost predicate Spares(hash: Digest, files: Files, files': Files, w: Writer)
    requires Sha(hash)
  {
    && (forall k :: k in files && (w.HasTemp() ==> k != Temp(hash, w)) ==> k in files')
    && (forall k :: k in files && k in files' && (w.HasTemp() ==> k != Temp(hash, w)) ==>
          k != Destination(hash, w.request) ==> files'[k] == files[k])
  }

  lemma {:induction false} OtherWriterOk(
      hash: Digest, files: Files, files': Files, processes: map<nat, nat>, processes': map<nat, nat>, w: Writer,
      o: Writer, maximum: nat)
    requires Sha(hash) && Spares(hash, files, files', w) && WriterOk(hash, files, processes, o, maximum)
    requires forall p :: p in processes ==> p in processes' && processes[p] <= processes'[p]
    requires w.HasTemp() && o.HasTemp() && w.pid == o.pid ==> w.phase.sequence != o.phase.sequence
    ensures WriterOk(hash, files', processes', o, maximum)
  {
    var mine, theirs := hash(w.request.bytes), hash(o.request.bytes);
    assert IsSha256(mine) && IsSha256(theirs);
    if o.HasTemp() {
      TempIsNotKey(theirs, o.pid, o.phase.sequence, mine);
      if w.HasTemp() && Temp(hash, w) == Temp(hash, o) {
        TempInjective(mine, theirs, w.pid, o.pid, w.phase.sequence, o.phase.sequence);
      }
    }
    if w.HasTemp() { TempIsNotKey(mine, w.pid, w.phase.sequence, theirs); }
    hide TempKey, StorageKey, AcceptsPut;
  }

  /** The writer that moved is still all right. */
  lemma {:induction false} MovedWriterOk(
      hash: Digest, files: Files, processes: map<nat, nat>, w: Writer, event: Event, maximum: nat)
    requires Sha(hash) && !w.Finished() && WriterOk(hash, files, processes, w, maximum)
    requires event.Chunk? ==> w.phase.Write? && w.phase.written + event.size <= |w.request.bytes|
    requires event.Proceed? && w.phase.Write? ==> w.phase.written == |w.request.bytes|
    ensures
      var (files', phase, takes) := WriterStep(hash, files, processes[w.pid], w, event, maximum);
      var processes' := if takes then processes[w.pid := processes[w.pid] + 1] else processes;
      WriterOk(hash, files', processes', w.(phase := phase), maximum)
  {
    var sha := hash(w.request.bytes);
    assert IsSha256(sha);
    if w.HasTemp() { TempIsNotKey(sha, w.pid, w.phase.sequence, sha); }
    hide TempKey, StorageKey, AcceptsPut;
    if w.phase.Write? && event.Proceed? {
      assert w.request.bytes[..w.phase.written] == w.request.bytes;
    }
  }

  /** A number newly taken is larger than every number in use by the process. */
  lemma {:induction false} SeparateAfter(hash: Digest, s: State, i: nat, phase: Phase, takes: bool, maximum: nat)
    requires Sha(hash) && Inv(hash, s, maximum) && i < |s.writers| && !s.writers[i].Finished()
    requires takes ==> s.writers[i].pid in s.processes && phase == Create(s.processes[s.writers[i].pid])
    requires !takes && s.writers[i].(phase := phase).HasTemp() ==>
        s.writers[i].HasTemp() && phase.sequence == s.writers[i].phase.sequence
    ensures SeparateTemps(s.writers[i := s.writers[i].(phase := phase)])
  {
    var w := s.writers[i];
    forall j | 0 <= j < |s.writers| && j != i && w.(phase := phase).HasTemp() && s.writers[j].HasTemp()
        && s.writers[j].pid == w.pid
      ensures phase.sequence != s.writers[j].phase.sequence
    {
      assert WriterOk(hash, s.files, s.processes, s.writers[j], maximum);
    }
    hide WriterOk;
  }

  lemma {:induction false} StepShape(hash: Digest, files: Files, next: nat, w: Writer, event: Event, maximum: nat)
    requires Sha(hash) && !w.Finished()
    requires event.Chunk? ==> w.phase.Write? && w.phase.written + event.size <= |w.request.bytes|
    ensures
      var (_, phase, takes) := WriterStep(hash, files, next, w, event, maximum);
      && (takes ==> phase == Create(next))
      && (!takes && w.(phase := phase).HasTemp() ==> w.HasTemp() && phase.sequence == w.phase.sequence)
  {
    assert IsSha256(hash(w.request.bytes));
    hide Verified, TempKey, StorageKey;
  }

  lemma {:induction false} AdvanceKeeps(hash: Digest, s: State, i: nat, event: Event, maximum: nat)
    requires Sha(hash) && Inv(hash, s, maximum) && Enabled(s, Advance(i, event), maximum)
    ensures Inv(hash, Apply(hash, s, Advance(i, event), maximum), maximum)
  {
    var w := s.writers[i];
    assert WriterOk(hash, s.files, s.processes, w, maximum);
    var next := s.processes[w.pid];
    var (files', phase, takes) := WriterStep(hash, s.files, next, w, event, maximum);
    var s' := Apply(hash, s, Advance(i, event), maximum);
    WriterStepFiles(hash, s.files, next, w, event, maximum);
    assert Spares(hash, s.files, files', w);
    MovedWriterOk(hash, s.files, s.processes, w, event, maximum);
    StepShape(hash, s.files, next, w, event, maximum);
    SeparateAfter(hash, s, i, phase, takes, maximum);
    SourcedAfter(hash, s, i, event, maximum);
    hide WriterOk, WriterStep, Addressed, Spares, Sourced;
    forall j | 0 <= j < |s.writers| ensures WriterOk(hash, s'.files, s'.processes, s'.writers[j], maximum) {
      if j != i {
        assert WriterOk(hash, s.files, s.processes, s.writers[j], maximum);
        OtherWriterOk(hash, s.files, files', s.processes, s'.processes, w, s.writers[j], maximum);
      }
    }
  }

  lemma {:induction false} CrashKeeps(hash: Digest, s: State, pid: nat, maximum: nat)
    requires Sha(hash) && Inv(hash, s, maximum) && pid in s.processes
    ensures Inv(hash, Apply(hash, s, Crash(pid), maximum), maximum)
  {
    var s' := Apply(hash, s, Crash(pid), maximum);
    SourcedStays(s.files, s.writers, s'.writers);
    forall j | 0 <= j < |s.writers| ensures WriterOk(hash, s'.files, s'.processes, s'.writers[j], maximum) {
      assert WriterOk(hash, s.files, s.processes, s.writers[j], maximum);
      hide TempKey, StorageKey, AcceptsPut;
    }
  }

  lemma {:induction false} LaunchKeeps(hash: Digest, s: State, pid: nat, maximum: nat)
    requires Sha(hash) && Inv(hash, s, maximum) && pid !in s.processes
    ensures Inv(hash, Apply(hash, s, Launch(pid), maximum), maximum)
  {
    var s' := Apply(hash, s, Launch(pid), maximum);
    forall j | 0 <= j < |s.writers| ensures WriterOk(hash, s'.files, s'.processes, s'.writers[j], maximum) {
      assert WriterOk(hash, s.files, s.processes, s.writers[j], maximum);
      hide TempKey, StorageKey, AcceptsPut;
    }
  }

  lemma {:induction false} StepKeeps(hash: Digest, s: State, step: Step, maximum: nat)
    requires Sha(hash) && Inv(hash, s, maximum) && Enabled(s, step, maximum)
    ensures Inv(hash, Apply(hash, s, step, maximum), maximum)
  {
    match step
    case Launch(pid) => LaunchKeeps(hash, s, pid, maximum);
    case Crash(pid) => CrashKeeps(hash, s, pid, maximum);
    case Put(pid, r) => SourcedStays(s.files, s.writers, Apply(hash, s, step, maximum).writers);
    case Advance(i, event) => AdvanceKeeps(hash, s, i, event, maximum);
  }

  // ---------------------------------------------------------------- runs

  ghost predicate Possible(hash: Digest, s: State, steps: seq<Step>, maximum: nat)
    requires Sha(hash)
    decreases |steps|
  {
    steps == [] || (Enabled(s, steps[0], maximum)
      && Possible(hash, Apply(hash, s, steps[0], maximum), steps[1..], maximum))
  }

  ghost function After(hash: Digest, s: State, steps: seq<Step>, maximum: nat): State
    requires Sha(hash) && Possible(hash, s, steps, maximum)
    decreases |steps|
  {
    if steps == [] then s else After(hash, Apply(hash, s, steps[0], maximum), steps[1..], maximum)
  }

  /** Once an artifact is there it stays, and a stored call stays stored. */
  ghost predicate Retains(s: State, s': State) {
    && (forall sha :: IsSha256(sha) && StorageKey(sha) in s.files ==> StorageKey(sha) in s'.files)
    && |s.writers| <= |s'.writers|
    && (forall i :: 0 <= i < |s.writers| ==> s'.writers[i].request == s.writers[i].request)
    && (forall i :: 0 <= i < |s.writers| && s.writers[i].phase.Stored? ==> s'.writers[i].phase.Stored?)
  }

  lemma {:induction false} StepRetains(hash: Digest, s: State, step: Step, maximum: nat)
    requires Sha(hash) && Inv(hash, s, maximum) && Enabled(s, step, maximum)
    ensures Retains(s, Apply(hash, s, step, maximum))
  {
    if step.Advance? {
      var w := s.writers[step.i];
      var sha := hash(w.request.bytes);
      assert IsSha256(sha);
      assert WriterOk(hash, s.files, s.processes, w, maximum);
      WriterStepFiles(hash, s.files, s.processes[w.pid], w, step.event, maximum);
      hide WriterStep;
      forall other | IsSha256(other) && w.HasTemp() ensures StorageKey(other) != Temp(hash, w) {
        TempIsNotKey(sha, w.pid, w.phase.sequence, other);
      }
      hide StorageKey, TempKey;
    }
  }

  lemma {:induction false} RunKeeps(hash: Digest, s: State, steps: seq<Step>, maximum: nat)
    requires Sha(hash) && Inv(hash, s, maximum) && Possible(hash, s, steps, maximum)
    ensures Inv(hash, After(hash, s, steps, maximum), maximum)
    ensures Retains(s, After(hash, s, steps, maximum))
    decreases |steps|
  {
    if steps != [] {
      hide Inv, Enabled, Apply, Retains;
      var t := Apply(hash, s, steps[0], maximum);
      StepKeeps(hash, s, steps[0], maximum);
      StepRetains(hash, s, steps[0], maximum);
      RunKeeps(hash, t, steps[1..], maximum);
      RetainsTrans(s, t, After(hash, s, steps, maximum));
    }
  }

  lemma {:induction false} RetainsTrans(a: State, b: State, c: State)
    requires Retains(a, b) && Retains(b, c)
    ensures Retains(a, c)
  {
    hide StorageKey, IsSha256;
  }

  /** An empty directory and no process. */
  const START: State := State(map[], map[], [])

  lemma {:induction false} StartHolds(hash: Digest, maximum: nat)
    requires Sha(hash)
    ensures Inv(hash, START, maximum)
  {
  }

  // ---------------------------------------------------------------- reading back

  function DescriptorOf(hash: Digest, r: Request): Descriptor
    requires IsSha256(hash(r.bytes))
  {
    var sha := hash(r.bytes);
    Descriptor(ArtifactId(r.namespace, sha), sha, StorageKey(sha), r.mediaType, |r.bytes|, r.version)
  }

  /** read_verified */
  function ReadVerified(hash: Digest, files: Files, d: Descriptor, maximum: nat): Result<Bytes> {
    if !ValidDescriptor(d) || d.byteSize > maximum || !SafeKey(d.storageKey) || d.storageKey !in files then Err
    else if |files[d.storageKey]| != d.byteSize || hash(files[d.storageKey]) != d.sha256 then Err
    else Ok(files[d.storageKey])
  }

  /** Whatever has happened, the file under a digest's key is absent or hashes to the digest. */
  lemma {:induction false} StoreIsAddressed(hash: Digest, steps: seq<Step>, maximum: nat, sha: string)
    requires Sha(hash) && Possible(hash, START, steps, maximum) && IsSha256(sha)
    ensures
      var files := After(hash, START, steps, maximum).files;
      StorageKey(sha) in files ==> hash(files[StorageKey(sha)]) == sha
  {
    StartHolds(hash, maximum);
    RunKeeps(hash, START, steps, maximum);
  }

  /** No two calls of the run were asked to store different bytes with one digest. */
  ghost predicate NoCollision(hash: Digest, writers: seq<Writer>) {
    forall i, j :: 0 <= i < j < |writers| ==> !Collide(hash, writers[i].request.bytes, writers[j].request.bytes)
  }

  lemma {:induction false} NoCollisionBefore(hash: Digest, s: State, s': State)
    requires Retains(s, s') && NoCollision(hash, s'.writers)
    ensures NoCollision(hash, s.writers)
  {
    hide StorageKey, IsSha256;
    forall i, j | 0 <= i < j < |s.writers|
      ensures !Collide(hash, s.writers[i].request.bytes, s.writers[j].request.bytes)
    {
      assert !Collide(hash, s'.writers[i].request.bytes, s'.writers[j].request.bytes);
    }
  }

  /** The file under the key of a requested digest holds the requested bytes. */
  lemma {:induction false} HoldsWhatWasPut(hash: Digest, s: State, i: nat, maximum: nat)
    requires Sha(hash) && Inv(hash, s, maximum) && i < |s.writers| && NoCollision(hash, s.writers)
    ensures
      var r := s.writers[i].request;
      Destination(hash, r) in s.files ==> s.files[Destination(hash, r)] == r.bytes
  {
    var bytes := s.writers[i].request.bytes;
    var sha := hash(bytes);
    assert IsSha256(sha);
    if StorageKey(sha) in s.files {
      var found := s.files[StorageKey(sha)];
      assert hash(found) == sha && Requested(s.writers, found);
      var j :| 0 <= j < |s.writers| && s.writers[j].request.bytes == found;
      hide StorageKey, Inv;
      assert !Collide(hash, bytes, found) by {
        assert i < j ==> !Collide(hash, s.writers[i].request.bytes, s.writers[j].request.bytes);
        assert j < i ==> !Collide(hash, s.writers[j].request.bytes, s.writers[i].request.bytes);
      }
    }
  }

  /** Durability of a successful put: from the moment the call has returned, whatever other
      writers, crashes and relaunches follow, its descriptor is valid and reading it returns the
      bytes that were put, unless the run itself has exhibited a collision of the digest. */
  lemma {:induction false} PutThenRead(hash: Digest, steps: seq<Step>, more: seq<Step>, i: nat, maximum: nat)
    requires Sha(hash) && Possible(hash, START, steps, maximum)
    requires
      var s := After(hash, START, steps, maximum);
      i < |s.writers| && s.writers[i].phase.Stored? && Possible(hash, s, more, maximum)
    ensures
      var s := After(hash, START, steps, maximum);
      var t := After(hash, s, more, maximum);
      var d := DescriptorOf(hash, s.writers[i].request);
      && ValidDescriptor(d)
      && (ReadVerified(hash, t.files, d, maximum) == Ok(s.writers[i].request.bytes) || !NoCollision(hash, t.writers))
  {
    StartHolds(hash, maximum);
    RunKeeps(hash, START, steps, maximum);
    var s := After(hash, START, steps, maximum);
    RunKeeps(hash, s, more, maximum);
    var t := After(hash, s, more, maximum);
    hide Inv, Possible, After;
    ReadStored(hash, t, i, maximum);
  }

  lemma {:induction false} ReadStored(hash: Digest, s: State, i: nat, maximum: nat)
    requires Sha(hash) && Inv(hash, s, maximum) && i < |s.writers| && s.writers[i].phase.Stored?
    ensures
      var d := DescriptorOf(hash, s.writers[i].request);
      && ValidDescriptor(d)
      && (NoCollision(hash, s.writers) ==> ReadVerified(hash, s.files, d, maximum) == Ok(s.writers[i].request.bytes))
  {
    var w := s.writers[i];
    var sha := hash(w.request.bytes);
    assert WriterOk(hash, s.files, s.processes, w, maximum);
    assert IsSha256(sha);
    ArtifactIdSplits(w.request.namespace, sha);
    StorageKeyIsSafe(sha);
    if NoCollision(hash, s.writers) { HoldsWhatWasPut(hash, s, i, maximum); }
    hide StorageKey, SafeKey, ValidMetadata, ArtifactId, Inv, NoCollision;
  }

  /** Reading, over any run and with any descriptor, forged ones included: it returns the file under
      the descriptor's digest exactly when the descriptor is one that a put could have written, the
      file is there and has the stated size within the limit.  What it returns was put by some call
      of the run and has the stated digest. */
  lemma {:induction false} ReadNeverLies(hash: Digest, steps: seq<Step>, d: Descriptor, bytes: Bytes, maximum: nat)
    requires Sha(hash) && Possible(hash, START, steps, maximum)
    ensures
      var s := After(hash, START, steps, maximum);
      var r := ReadVerified(hash, s.files, d, maximum);
      && (r == Ok(bytes) <==>
            && ValidDescriptor(d) && |d.sha256| == 64 && StorageKey(d.sha256) in s.files
            && s.files[StorageKey(d.sha256)] == bytes && |bytes| == d.byteSize <= maximum)
      && (r == Ok(bytes) ==> hash(bytes) == d.sha256 && Requested(s.writers, bytes))
  {
    StartHolds(hash, maximum);
    RunKeeps(hash, START, steps, maximum);
    var s := After(hash, START, steps, maximum);
    assert Addressed(hash, s.files) && Sourced(s.files, s.writers);
    hide Inv, Possible, After, StorageKey, SafeKey, ValidMetadata, ArtifactId, Requested;
    if ValidDescriptor(d) {
      DescriptorShape(d);
      StorageKeyIsSafe(d.sha256);
    }
  }

  /** A verification of an artifact that a writer has seen never fails: the hash and the size
      always match. */
  lemma {:induction false} VerificationSucceeds(hash: Digest, s: State, i: nat, maximum: nat)
    requires Sha(hash) && Inv(hash, s, maximum) && i < |s.writers| && NoCollision(hash, s.writers)
    requires s.writers[i].phase.Verify? || s.writers[i].phase.Recover?
    ensures
      var r := s.writers[i].request;
      Verified(hash, s.files, Destination(hash, r), hash(r.bytes), |r.bytes|, maximum)
  {
    assert WriterOk(hash, s.files, s.processes, s.writers[i], maximum);
    assert IsSha256(hash(s.writers[i].request.bytes));
    HoldsWhatWasPut(hash, s, i, maximum);
    hide StorageKey, Inv, NoCollision;
  }

  // ---------------------------------------------------------------- a put without errors succeeds

  /** On the way to success. */
  predicate OnCourse(phase: Phase) {
    phase.Inspect? || phase.Create? || phase.Write? || phase.Rename? || phase.Verify? || phase.Stored?
  }

  /** No crashed process of this number has left a file under a temporary name that this one
      has yet to use. */
  ghost predicate Clear(hash: Digest, s: State, pid: nat)
    requires Sha(hash)
  {
    && pid in s.processes
    && (forall sha, q: nat :: IsSha256(sha) && q >= s.processes[pid] ==> TempKey(sha, pid, q) !in s.files)
    && (forall j :: 0 <= j < |s.writers| && s.writers[j].pid == pid && s.writers[j].phase.Create? ==>
                      Temp(hash, s.writers[j]) !in s.files)
  }

  /** No input/output error strikes writer `i`, and its process does not crash. */
  predicate Undisturbed(steps: seq<Step>, i: nat, pid: nat) {
    forall k :: 0 <= k < |steps| ==> steps[k] != Advance(i, IoError) && steps[k] != Crash(pid)
  }

  /** The steps writer `i` takes, empty writes aside. */
  function OwnSteps(steps: seq<Step>, i: nat): nat {
    if steps == [] then 0
    else (if steps[0].Advance? && steps[0].i == i && steps[0].event != Chunk(0) then 1 else 0) + OwnSteps(steps[1..], i)
  }

  /** How many such steps lie before it at most. */
  function StepsToGo(w: Writer): int {
    match w.phase
    case Inspect => |w.request.bytes| + 4
    case Create(_) => |w.request.bytes| + 3
    case Write(_, n) => |w.request.bytes| - n + 2
    case Rename(_) => 1
    case Verify => 1
    case _ => 0
  }

  /** A step adds no file but the writer's temporary file and its artifact. */
  lemma {:induction false} WriterStepAdds(
      hash: Digest, files: Files, next: nat, w: Writer, event: Event, maximum: nat, key: string)
    requires Sha(hash) && !w.Finished()
    requires event.Chunk? ==> w.phase.Write? && w.phase.written + event.size <= |w.request.bytes|
    requires key in WriterStep(hash, files, next, w, event, maximum).0
    ensures key in files || key == Destination(hash, w.request) || (w.HasTemp() && key == Temp(hash, w))
  {
    assert IsSha256(hash(w.request.bytes));
    hide StorageKey, TempKey;
  }

  /** A temporary name of the process that it does not own stays free when `w` moves. */
  lemma {:induction false} StaysFree(
      hash: Digest, files: Files, next: nat, w: Writer, event: Event, maximum: nat, sha: string, pid: nat, q: nat)
    requires Sha(hash) && !w.Finished() && IsSha256(sha) && TempKey(sha, pid, q) !in files
    requires event.Chunk? ==> w.phase.Write? && w.phase.written + event.size <= |w.request.bytes|
    requires w.HasTemp() && w.pid == pid ==> w.phase.sequence != q
    ensures TempKey(sha, pid, q) !in WriterStep(hash, files, next, w, event, maximum).0
  {
    var mine := hash(w.request.bytes);
    assert IsSha256(mine);
    TempIsNotKey(sha, pid, q, mine);
    if w.HasTemp() && TempKey(sha, pid, q) == Temp(hash, w) {
      TempInjective(sha, mine, pid, w.pid, q, w.phase.sequence);
    }
    hide StorageKey, TempKey, WriterStep;
    if TempKey(sha, pid, q) in WriterStep(hash, files, next, w, event, maximum).0 {
      WriterStepAdds(hash, files, next, w, event, maximum, TempKey(sha, pid, q));
    }
  }

  lemma {:induction false} AdvanceClear(hash: Digest, s: State, j: nat, event: Event, maximum: nat, pid: nat)
    requires Sha(hash) && Inv(hash, s, maximum) && Enabled(s, Advance(j, event), maximum) && Clear(hash, s, pid)
    ensures Clear(hash, Apply(hash, s, Advance(j, event), maximum), pid)
  {
    var w, s' := s.writers[j], Apply(hash, s, Advance(j, event), maximum);
    var next := s.processes[w.pid];
    assert WriterOk(hash, s.files, s.processes, w, maximum);
    StepShape(hash, s.files, next, w, event, maximum);
    forall sha, q: nat | IsSha256(sha) && q >= s'.processes[pid] ensures TempKey(sha, pid, q) !in s'.files {
      hide WriterStep, TempKey;
      StaysFree(hash, s.files, next, w, event, maximum, sha, pid, q);
    }
    forall k | 0 <= k < |s'.writers| && s'.writers[k].pid == pid && s'.writers[k].phase.Create?
      ensures Temp(hash, s'.writers[k]) !in s'.files
    {
      var o := s'.writers[k];
      var sha := hash(o.request.bytes);
      assert IsSha256(sha);
      if k == j {
        CreateIsFirst(hash, s.files, next, w, event, maximum);
      } else {
        assert s.writers[k] == o && Temp(hash, o) !in s.files;
        hide WriterStep, TempKey, WriterOk;
        StaysFree(hash, s.files, next, w, event, maximum, sha, pid, o.phase.sequence);
      }
    }
  }

  /** A writer reaches Create only by taking a number, which touches no file. */
  lemma {:induction false} CreateIsFirst(hash: Digest, files: Files, next: nat, w: Writer, event: Event, maximum: nat)
    requires Sha(hash) && !w.Finished()
    requires event.Chunk? ==> w.phase.Write? && w.phase.written + event.size <= |w.request.bytes|
    ensures
      var (files', phase, takes) := WriterStep(hash, files, next, w, event, maximum);
      phase.Create? ==> takes && phase.sequence == next && files' == files
  {
    assert IsSha256(hash(w.request.bytes));
    hide StorageKey, TempKey, Verified;
  }

  lemma {:induction false} StepClear(hash: Digest, s: State, step: Step, maximum: nat, pid: nat)
    requires Sha(hash) && Inv(hash, s, maximum) && Enabled(s, step, maximum) && Clear(hash, s, pid)
        && step != Crash(pid)
    ensures Clear(hash, Apply(hash, s, step, maximum), pid)
  {
    if step.Advance? {
      AdvanceClear(hash, s, step.i, step.event, maximum, pid);
    } else {
      hide Inv, TempKey;
    }
  }

  /** One step: the writer stays on course, and its own steps bring it nearer. */
  lemma {:induction false} StepOnCourse(hash: Digest, s: State, step: Step, i: nat, maximum: nat)
    requires Sha(hash) && Inv(hash, s, maximum) && Enabled(s, step, maximum) && i < |s.writers|
    requires NoCollision(hash, s.writers) && OnCourse(s.writers[i].phase) && Clear(hash, s, s.writers[i].pid)
    requires step != Advance(i, IoError) && step != Crash(s.writers[i].pid)
    ensures
      var w, w' := s.writers[i], Apply(hash, s, step, maximum).writers[i];
      && OnCourse(w'.phase) && w'.pid == w.pid && w'.request == w.request
      && 0 <= StepsToGo(w') <= StepsToGo(w) - OwnSteps([step], i)
  {
    var w := s.writers[i];
    assert WriterOk(hash, s.files, s.processes, w, maximum);
    assert IsSha256(hash(w.request.bytes));
    assert OwnSteps([step], i) == if step.Advance? && step.i == i && step.event != Chunk(0) then 1 else 0;
    if w.phase.Verify? { VerificationSucceeds(hash, s, i, maximum); }
    hide StorageKey, TempKey, Verified, Inv, NoCollision, OwnSteps;
  }

  lemma {:induction false} UndisturbedRest(steps: seq<Step>, i: nat, pid: nat)
    requires steps != [] && Undisturbed(steps, i, pid)
    ensures Undisturbed(steps[1..], i, pid) && steps[0] != Advance(i, IoError) && steps[0] != Crash(pid)
    ensures OwnSteps(steps, i) == OwnSteps([steps[0]], i) + OwnSteps(steps[1..], i)
  {
    assert [steps[0]][1..] == [];
  }

  /** Without an input/output error, whatever other writers and other processes do, a put never
      fails and is stored after at most `StepsToGo` steps of its own; unless the run exhibits a
      collision, or a crashed process of the same number left the very temporary name. */
  lemma {:induction false} PutSucceeds(hash: Digest, s: State, steps: seq<Step>, i: nat, maximum: nat)
    requires Sha(hash) && Inv(hash, s, maximum) && Possible(hash, s, steps, maximum) && i < |s.writers|
    requires OnCourse(s.writers[i].phase) && Clear(hash, s, s.writers[i].pid) && Undisturbed(steps, i, s.writers[i].pid)
    requires NoCollision(hash, After(hash, s, steps, maximum).writers)
    ensures i < |After(hash, s, steps, maximum).writers|
    ensures
      var w, w' := s.writers[i], After(hash, s, steps, maximum).writers[i];
      && OnCourse(w'.phase) && w'.request == w.request
      && 0 <= StepsToGo(w') <= StepsToGo(w) - OwnSteps(steps, i)
      && (OwnSteps(steps, i) >= StepsToGo(w) ==> w'.phase.Stored?)
    decreases |steps|
  {
    var w := s.writers[i];
    if steps == [] {
      assert WriterOk(hash, s.files, s.processes, w, maximum);
    } else {
      hide Inv, Enabled, Apply, Retains, Clear, NoCollision, OnCourse, StepsToGo, Undisturbed, OwnSteps;
      var t := Apply(hash, s, steps[0], maximum);
      UndisturbedRest(steps, i, w.pid);
      RunKeeps(hash, s, steps, maximum);
      NoCollisionBefore(hash, s, After(hash, s, steps, maximum));
      StepKeeps(hash, s, steps[0], maximum);
      StepRetains(hash, s, steps[0], maximum);
      StepClear(hash, s, steps[0], maximum, w.pid);
      StepOnCourse(hash, s, steps[0], i, maximum);
      assert i < |t.writers| by { RetainsLength(s, t); }
      PutSucceeds(hash, t, steps[1..], i, maximum);
    }
  }

  lemma {:induction false} RetainsLength(s: State, s': State)
    requires Retains(s, s')
    ensures |s.writers| <= |s'.writers|
  {
  }
}
