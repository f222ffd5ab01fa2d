/** Assembling and validating a document batch.

    The assembler checks the closure of all references, adds an issue for every failed page
    that has none and derives the completeness; the validator replays the checks.  Whatever the
    assembler returns the validator accepts, and assembling the parts of a batch again gives
    the same batch. */
module Batches {
  import opened Namespaces
  import Pages
  import Structures
  import Decimals
  import Snapshots

  datatype SourceBlob = SourceBlob(id: string, corpus: string, artifact: ArtifactRef)

  datatype TextArtifact = TextArtifact(
    id: string,
    corpus: string,
    sourceId: string,
    raw: ArtifactRef,
    normalized: ArtifactRef,
    mapping: ArtifactRef,
    pages: seq<Pages.Page>)

  datatype StructureRecord = StructureRecord(corpus: string, node: Structures.Node)

  /** A chunk: its span, its structure and parent nodes, and its other references. */
  datatype ChunkRecord = ChunkRecord(
    id: string,
    corpus: string,
    span: Pages.Span,
    structures: seq<string>,
    parents: seq<string>,
    references: seq<Target>)

  datatype PlainKind = Provisions | Versions | Editions | Regulations | Observations | Changes

  function KindOf(kind: PlainKind): RecordKind {
    match kind
    case Provisions => Provision
    case Versions => Version
    case Editions => Edition
    case Regulations => Regulation
    case Observations => Observation
    case Changes => Change
  }

  /** A record of another kind with the references its fields make. */
  datatype Record = Record(kind: PlainKind, id: string, corpus: string, references: seq<Target>)

  datatype Contents = Contents(
    batchId: string,
    corpus: string,
    sources: seq<SourceBlob>,
    texts: seq<TextArtifact>,
    structures: seq<StructureRecord>,
    others: seq<Record>,
    chunks: seq<ChunkRecord>,
    deps: seq<Snapshots.Entry<string>>,
    lookups: nat)

  // ---------------------------------------------------------------- what a batch brings in

  function SourceEntries(s: SourceBlob): seq<Entry> { [Local(s.id, s.corpus, Owner(Source, 0)), Artifact(s.artifact)] }

  function TextEntries(t: TextArtifact): seq<Entry> {
    [Local(t.id, t.corpus, Owner(Text, t.normalized.size)), Artifact(t.raw), Artifact(t.normalized),
      Artifact(t.mapping)]
  }

  function Concat<S, T>(items: seq<S>, f: S -> seq<T>): seq<T> {
    if items == [] then [] else Concat(items[..|items| - 1], f) + f(items[|items| - 1])
  }

  function StructureEntries(s: StructureRecord): seq<Entry> { [Local(s.node.id, s.corpus, Owner(Structure, 0))] }

  function PlainEntries(r: Record): seq<Entry> { [Local(r.id, r.corpus, Owner(KindOf(r.kind), 0))] }

  function ChunkEntries(c: ChunkRecord): seq<Entry> { [Local(c.id, c.corpus, Owner(Chunk, 0))] }

  /** Everything the batch brings in.  Whether it is accepted does not depend on the order. */
  function Entries(c: Contents): seq<Entry> {
    [Local(c.batchId, c.corpus, Owner(BatchRecord, 0))]
    + Concat(c.sources, SourceEntries)
    + Concat(c.texts, TextEntries)
    + Concat(c.structures, StructureEntries)
    + Concat(c.others, PlainEntries)
    + Concat(c.chunks, ChunkEntries)
  }

  function SpanTarget(span: Pages.Span): Target { Within(span.textId, span.end) }

  function Mapped<S, T>(items: seq<S>, f: S -> T): (r: seq<T>)
    ensures |r| == |items|
    ensures forall i :: 0 <= i < |r| ==> r[i] == f(items[i])
  {
    seq(|items|, i requires 0 <= i < |items| => f(items[i]))
  }

  function TextTargets(t: TextArtifact): seq<Target> { [Typed(Source, t.sourceId)] }

  function StructureTargets(s: StructureRecord): seq<Target> {
    Mapped(s.node.spans, SpanTarget) + Mapped(s.node.locators, (l: Pages.Locator) => Typed(Source, l.source))
  }

  function ChunkTargets(c: ChunkRecord): seq<Target> {
    [SpanTarget(c.span)] + Mapped(c.structures + c.parents, (id: string) => LocalStructure(id)) + c.references
  }

  function Targets(c: Contents): seq<Target> {
    Concat(c.texts, TextTargets)
    + Concat(c.structures, StructureTargets)
    + Concat(c.others, (r: Record) => r.references)
    + Concat(c.chunks, ChunkTargets)
  }

  function Nodes(structures: seq<StructureRecord>): (r: seq<Structures.Node>)
    ensures |r| == |structures|
    ensures forall i :: 0 <= i < |r| ==> r[i] == structures[i].node
  {
    seq(|structures|, i requires 0 <= i < |structures| => structures[i].node)
  }

  function PageEdges(texts: seq<TextArtifact>): nat {
    if texts == [] then 0 else PageEdges(texts[..|texts| - 1]) + Pages.Spans(texts[|texts| - 1].pages)
  }

  function LinkEdges(structures: seq<StructureRecord>): nat {
    if structures == [] then 0
    else
      var node := structures[|structures| - 1].node;
      LinkEdges(structures[..|structures| - 1]) + (if node.parent.Some? then 2 else 0) + 2 * |node.children|
  }

  function Edges(c: Contents): nat {
    |c.deps| + c.lookups + |Targets(c)| + PageEdges(c.texts) + LinkEdges(c.structures)
  }

  /** The manifest's fingerprints. */
  function DepMap(deps: seq<Snapshots.Entry<string>>): Fingerprints { Snapshots.AsMap(deps) }

  // ---------------------------------------------------------------- closure

  ghost predicate AllResolve(c: Contents) {
    forall i :: 0 <= i < |Targets(c)| ==> Resolves(IndexOf(Entries(c)), DepMap(c.deps), Targets(c)[i])
  }

  ghost predicate AllTiled(texts: seq<TextArtifact>) {
    forall i :: 0 <= i < |texts| ==> Pages.PagesOk(texts[i].id, texts[i].normalized.size, texts[i].pages)
  }

  /** BatchIndexes::build and validate_reference_closure succeed. */
  ghost predicate Closed(c: Contents, maximumEdges: nat) {
    && Snapshots.UniqueIds(c.deps)
    && Acceptable(DepMap(c.deps), c.corpus, Entries(c))
    && Edges(c) <= maximumEdges
    && AllResolve(c)
    && AllTiled(c.texts)
    && Structures.Forest(Nodes(c.structures))
  }

  method CheckTargets(c: Contents, index: Index, edges: nat, maximum: nat) returns (ok: bool)
    requires index == IndexOf(Entries(c))
    ensures ok <==> edges + |Targets(c)| <= maximum && AllResolve(c)
  {
    hide Entries, Targets, IndexOf, Resolves, DepMap;
    var targets, deps := Targets(c), DepMap(c.deps);
    var count := edges;
    for i := 0 to |targets|
      invariant count == edges + i && (i > 0 ==> count <= maximum)
      invariant forall j :: 0 <= j < i ==> Resolves(index, deps, targets[j])
    {
      count := count + 1;
      if count > maximum || !Resolves(index, deps, targets[i]) { return false; }
    }
    ok := count <= maximum;
  }

  lemma {:induction false} PageEdgesPrefix(texts: seq<TextArtifact>, k: nat)
    requires k <= |texts|
    ensures PageEdges(texts[..k]) <= PageEdges(texts)
    ensures k < |texts| ==> PageEdges(texts[..k + 1]) == PageEdges(texts[..k]) + Pages.Spans(texts[k].pages)
    decreases |texts| - k
  {
    if k < |texts| {
      PageEdgesPrefix(texts, k + 1);
      assert texts[..k + 1][..k] == texts[..k];
    } else {
      assert texts[..k] == texts;
    }
  }

  method CheckTexts(texts: seq<TextArtifact>, edges: nat, maximum: nat) returns (ok: bool)
    requires edges <= maximum
    ensures ok <==> edges + PageEdges(texts) <= maximum && AllTiled(texts)
  {
    hide PageEdges, Pages.PagesOk, Pages.Spans;
    var count := edges;
    assert PageEdges(texts[..0]) == 0 by { NoPageEdges(texts); }
    for k := 0 to |texts|
      invariant count == edges + PageEdges(texts[..k]) <= maximum
      invariant forall i :: 0 <= i < k ==> Pages.PagesOk(texts[i].id, texts[i].normalized.size, texts[i].pages)
    {
      PageEdgesPrefix(texts, k);
      PageEdgesPrefix(texts, k + 1);
      var verdict;
      verdict, count := Pages.CheckPages(texts[k].id, texts[k].normalized.size, texts[k].pages, count, maximum);
      if !verdict.Accepted? { return false; }
    }
    assert texts[..|texts|] == texts;
    ok := true;
  }

  lemma {:induction false} NoPageEdges(texts: seq<TextArtifact>)
    ensures PageEdges(texts[..0]) == 0
  {
    assert texts[..0] == [];
  }

  /** The two checks together accept exactly the closed batches. */
  method ValidateClosure(c: Contents, maximum: nat) returns (ok: bool)
    ensures ok <==> Closed(c, maximum)
  {
    hide Entries, Targets, IndexOf, DepMap, AllResolve, AllTiled, Structures.Forest, Acceptable, Represents,
      Snapshots.UniqueIds, LinkEdges, PageEdges;
    Snapshots.IdsCount(c.deps);
    if |Snapshots.Ids(c.deps)| != |c.deps| { return false; }
    var indexes := new BatchIndexes(DepMap(c.deps));
    ok := indexes.Build(Entries(c), c.corpus);
    if !ok { return; }
    var edges := |c.deps| + c.lookups;
    if edges > maximum { return false; }
    ok := CheckTexts(c.texts, edges, maximum);
    if !ok { return; }
    edges := edges + PageEdges(c.texts) + LinkEdges(c.structures);
    if edges > maximum { return false; }
    var verdict := Structures.ValidateStructures(Nodes(c.structures));
    if !verdict.Accepted? { return false; }
    ok := CheckTargets(c, Index(indexes.local, indexes.artifacts), edges, maximum);
  }

  // ---------------------------------------------------------------- page issues

  datatype Severity = Info | Warning | Error

  datatype Issue = Issue(
    code: string,
    severity: Severity,
    recordId: string,
    fieldPath: string,
    evidence: seq<string>,
    disposition: string)

  type IssueKey = (string, string, string)

  function KeyOf(issue: Issue): IssueKey { (issue.code, issue.recordId, issue.fieldPath) }

  function Keys(issues: seq<Issue>): set<IssueKey> { set i | 0 <= i < |issues| :: KeyOf(issues[i]) }

  function FieldPath(index: nat): string { "page_results[" + Decimals.Decimal(index) + "]" }

  function PageKey(textId: string, index: nat): IssueKey { ("PAGE_EXTRACTION_INCOMPLETE", textId, FieldPath(index)) }

  /** A page that did not succeed. */
  datatype Failure = Failure(textId: string, index: nat)

  function PageFailures(textId: string, pages: seq<Pages.Page>): seq<Failure> {
    if pages == [] then []
    else
      var n := |pages| - 1;
      PageFailures(textId, pages[..n]) + (if pages[n].status.Succeeded? then [] else [Failure(textId, n)])
  }

  function Failures(texts: seq<TextArtifact>): seq<Failure> {
    if texts == [] then []
    else Failures(texts[..|texts| - 1]) + PageFailures(texts[|texts| - 1].id, texts[|texts| - 1].pages)
  }

  /** The evidence carried by the failed page's errors comes with the page. */
  function IssueFor(f: Failure, severity: Severity, evidence: Failure -> seq<string>): Issue {
    Issue("PAGE_EXTRACTION_INCOMPLETE", severity, f.textId, FieldPath(f.index), evidence(f),
      "retain_partial_and_require_followup")
  }

  /** append_missing_page_issues over the failed pages in order. */
  function Appended(
      issues: seq<Issue>, failures: seq<Failure>, severity: Severity, evidence: Failure -> seq<string>): seq<Issue> {
    if failures == [] then issues
    else
      var n := |failures| - 1;
      var done := Appended(issues, failures[..n], severity, evidence);
      if PageKey(failures[n].textId, failures[n].index) in Keys(done) then done
      else done + [IssueFor(failures[n], severity, evidence)]
  }

  /** missing_page_issue_count */
  function MissingCount(issues: seq<Issue>, failures: seq<Failure>): nat {
    if failures == [] then 0
    else
      var n := |failures| - 1;
      MissingCount(issues, failures[..n])
        + (if PageKey(failures[n].textId, failures[n].index) in Keys(issues) then 0 else 1)
  }

  lemma {:induction false} KeysAppend(issues: seq<Issue>, issue: Issue)
    ensures Keys(issues + [issue]) == Keys(issues) + {KeyOf(issue)}
  {
    var more := issues + [issue];
    assert more[|issues|] == issue;
    forall i | 0 <= i < |issues| ensures KeyOf(issues[i]) in Keys(more) { assert more[i] == issues[i]; }
  }

  lemma {:induction false} PageKeyInjective(a: string, i: nat, b: string, j: nat)
    requires PageKey(a, i) == PageKey(b, j)
    ensures a == b && i == j
  {
    var x, y := FieldPath(i), FieldPath(j);
    assert x[13..|x| - 1] == Decimals.Decimal(i) && y[13..|y| - 1] == Decimals.Decimal(j);
    Decimals.DecimalInjective(i, j);
  }

  ghost predicate DistinctFailures(failures: seq<Failure>) {
    forall i, j :: 0 <= i < j < |failures| ==> failures[i] != failures[j]
  }

  function FailureKeys(failures: seq<Failure>): set<IssueKey> {
    set i | 0 <= i < |failures| :: PageKey(failures[i].textId, failures[i].index)
  }

  lemma {:induction false} FailureKeysAppend(failures: seq<Failure>, n: nat)
    requires n < |failures|
    ensures FailureKeys(failures[..n + 1]) == FailureKeys(failures[..n])
        + {PageKey(failures[n].textId, failures[n].index)}
  {
    var a, b := failures[..n + 1], failures[..n];
    assert a[n] == failures[n];
    forall i | 0 <= i < n ensures PageKey(b[i].textId, b[i].index) in FailureKeys(a) { assert a[i] == b[i]; }
  }

  /** Afterwards every failed page has its issue, every earlier issue is still there and nothing
      else has been added. */
  lemma {:induction false} AppendedKeys(
      issues: seq<Issue>, failures: seq<Failure>, severity: Severity, evidence: Failure -> seq<string>)
    ensures Keys(Appended(issues, failures, severity, evidence)) == Keys(issues) + FailureKeys(failures)
    ensures issues <= Appended(issues, failures, severity, evidence)
  {
    if failures != [] {
      var n := |failures| - 1;
      AppendedKeys(issues, failures[..n], severity, evidence);
      FailureKeysAppend(failures, n);
      assert failures[..n + 1] == failures;
      var done := Appended(issues, failures[..n], severity, evidence);
      KeysAppend(done, IssueFor(failures[n], severity, evidence));
      hide Keys, FailureKeys;
    }
  }

  /** The count taken before appending is the number of issues appended. */
  lemma {:induction false} AppendedCount(
      issues: seq<Issue>, failures: seq<Failure>, severity: Severity, evidence: Failure -> seq<string>)
    requires DistinctFailures(failures)
    ensures |Appended(issues, failures, severity, evidence)| == |issues| + MissingCount(issues, failures)
  {
    if failures != [] {
      var n := |failures| - 1;
      AppendedCount(issues, failures[..n], severity, evidence);
      AppendedKeys(issues, failures[..n], severity, evidence);
      var key := PageKey(failures[n].textId, failures[n].index);
      if key in FailureKeys(failures[..n]) {
        var i :| 0 <= i < n && PageKey(failures[..n][i].textId, failures[..n][i].index) == key;
        PageKeyInjective(failures[i].textId, failures[i].index, failures[n].textId, failures[n].index);
      }
      hide Keys;
    }
  }

  /** Nothing is appended when every failed page has its issue. */
  lemma {:induction false} AppendedNothing(
      issues: seq<Issue>, failures: seq<Failure>, severity: Severity, evidence: Failure -> seq<string>)
    requires FailureKeys(failures) <= Keys(issues)
    ensures Appended(issues, failures, severity, evidence) == issues && MissingCount(issues, failures) == 0
  {
    if failures != [] {
      var n := |failures| - 1;
      FailureKeysAppend(failures, n);
      assert failures[..n + 1] == failures;
      hide Keys, FailureKeys;
      AppendedNothing(issues, failures[..n], severity, evidence);
    }
  }

  method AppendPageIssues(
      textId: string, pages: seq<Pages.Page>, issues: seq<Issue>, existing: set<IssueKey>, severity: Severity,
      evidence: Failure -> seq<string>, ghost start: seq<Issue>, ghost before: seq<Failure>)
    returns (issues': seq<Issue>, existing': set<IssueKey>)
    requires existing == Keys(issues) && issues == Appended(start, before, severity, evidence)
    ensures existing' == Keys(issues')
        && issues' == Appended(start, before + PageFailures(textId, pages), severity, evidence)
  {
    hide Keys, Appended, PageFailures;
    issues', existing' := issues, existing;
    assert pages[..0] == [];
    assert before + PageFailures(textId, []) == before by { NoPageFailures(textId); }
    for p := 0 to |pages|
      invariant existing' == Keys(issues')
      invariant issues' == Appended(start, before + PageFailures(textId, pages[..p]), severity, evidence)
    {
      ghost var done := before + PageFailures(textId, pages[..p]);
      PageFailuresStep(textId, pages, p);
      assert before + (PageFailures(textId, pages[..p]) + [Failure(textId, p)]) == done + [Failure(textId, p)];
      if !pages[p].status.Succeeded? {
        var f := Failure(textId, p);
        AppendedStep(start, done, f, severity, evidence);
        if PageKey(textId, p) !in existing' {
          KeysAppend(issues', IssueFor(f, severity, evidence));
          issues', existing' := issues' + [IssueFor(f, severity, evidence)], existing' + {PageKey(textId, p)};
        }
      }
    }
    assert pages[..|pages|] == pages;
  }

  lemma {:induction false} NoPageFailures(textId: string)
    ensures PageFailures(textId, []) == []
  {
  }

  lemma {:induction false} PageFailuresStep(textId: string, pages: seq<Pages.Page>, p: nat)
    requires p < |pages|
    ensures
      var done := PageFailures(textId, pages[..p]);
      PageFailures(textId, pages[..p + 1]) == if pages[p].status.Succeeded? then done else done + [Failure(textId, p)]
  {
    assert pages[..p + 1][..p] == pages[..p];
  }

  lemma {:induction false} AppendedStep(
      start: seq<Issue>, done: seq<Failure>, f: Failure, severity: Severity, evidence: Failure -> seq<string>)
    ensures
      var issues := Appended(start, done, severity, evidence);
      Appended(start, done + [f], severity, evidence)
      == if PageKey(f.textId, f.index) in Keys(issues) then issues else issues + [IssueFor(f, severity, evidence)]
  {
    assert (done + [f])[..|done|] == done;
  }

  /** append_missing_page_issues */
  method AppendMissing(
      texts: seq<TextArtifact>, issues: seq<Issue>, severity: Severity, evidence: Failure -> seq<string>)
    returns (r: seq<Issue>)
    ensures r == Appended(issues, Failures(texts), severity, evidence)
  {
    r := issues;
    var existing := Keys(issues);
    assert texts[..0] == [];
    for t := 0 to |texts|
      invariant existing == Keys(r) && r == Appended(issues, Failures(texts[..t]), severity, evidence)
    {
      assert texts[..t + 1][..t] == texts[..t];
      r, existing := AppendPageIssues(texts[t].id, texts[t].pages, r, existing, severity, evidence, issues,
        Failures(texts[..t]));
    }
    assert texts[..|texts|] == texts;
  }

  ghost predicate DistinctTexts(texts: seq<TextArtifact>) {
    forall i, j :: 0 <= i < j < |texts| ==> texts[i].id != texts[j].id
  }

  lemma {:induction false} PageFailuresIn(textId: string, pages: seq<Pages.Page>)
    ensures forall i :: 0 <= i < |PageFailures(textId, pages)| ==>
                          var f := PageFailures(textId, pages)[i]; f.textId == textId && f.index < |pages|
    ensures DistinctFailures(PageFailures(textId, pages))
  {
    if pages != [] { PageFailuresIn(textId, pages[..|pages| - 1]); }
  }

  function TextIds(texts: seq<TextArtifact>): set<string> { set k | 0 <= k < |texts| :: texts[k].id }

  lemma {:induction false} FailuresIn(texts: seq<TextArtifact>, i: nat)
    requires i < |Failures(texts)|
    ensures Failures(texts)[i].textId in TextIds(texts)
  {
    var front, last := texts[..|texts| - 1], texts[|texts| - 1];
    PageFailuresIn(last.id, last.pages);
    if i < |Failures(front)| {
      FailuresIn(front, i);
      var k :| 0 <= k < |front| && front[k].id == Failures(front)[i].textId;
      assert texts[k].id == Failures(texts)[i].textId;
    } else {
      assert texts[|texts| - 1].id == Failures(texts)[i].textId;
    }
  }

  lemma {:induction false} FailuresDistinct(texts: seq<TextArtifact>)
    requires DistinctTexts(texts)
    ensures DistinctFailures(Failures(texts))
  {
    if texts != [] {
      var front, last := texts[..|texts| - 1], texts[|texts| - 1];
      FailuresDistinct(front);
      PageFailuresIn(last.id, last.pages);
      var a, b := Failures(front), PageFailures(last.id, last.pages);
      assert Failures(texts) == a + b;
      forall i, j | 0 <= i < |a| && 0 <= j < |b| ensures a[i] != b[j] {
        FailuresIn(front, i);
        var k :| 0 <= k < |front| && front[k].id == a[i].textId;
        assert texts[k].id != texts[|texts| - 1].id;
      }
      hide Failures, PageFailures;
    }
  }

  // ---------------------------------------------------------------- completeness

  datatype Completeness = NoneComplete | Partial | Complete

  predicate AnyPage(texts: seq<TextArtifact>, succeeded: bool) {
    exists t, p :: 0 <= t < |texts| && 0 <= p < |texts[t].pages| && texts[t].pages[p].status.Succeeded? == succeeded
  }

  predicate Troubled(issues: seq<Issue>) {
    exists i :: 0 <= i < |issues| && (issues[i].severity.Warning? || issues[i].severity.Error?)
  }

  function DeriveCompleteness(c: Contents, issues: seq<Issue>): Completeness {
    if c.texts == [] || (!AnyPage(c.texts, true) && c.chunks == []) then NoneComplete
    else if AnyPage(c.texts, false) || Troubled(issues) then Partial
    else Complete
  }

  function PageSeverity(texts: seq<TextArtifact>): Severity { if AnyPage(texts, true) then Warning else Error }

  ghost predicate NoPageSucceeded(texts: seq<TextArtifact>) {
    forall t, p :: 0 <= t < |texts| && 0 <= p < |texts[t].pages| ==> !texts[t].pages[p].status.Succeeded?
  }

  ghost predicate EveryPageSucceeded(texts: seq<TextArtifact>) {
    forall t, p :: 0 <= t < |texts| && 0 <= p < |texts[t].pages| ==> texts[t].pages[p].status.Succeeded?
  }

  /** What each completeness says.  Nothing: there is no text, or neither a page that succeeded
      nor a chunk.  Complete: there is something, every page succeeded and no issue is worse than
      information.  Partial: everything else. */
  ghost predicate Completes(c: Contents, issues: seq<Issue>, r: Completeness) {
    && (r.NoneComplete? <==> c.texts == [] || (NoPageSucceeded(c.texts) && c.chunks == []))
    && (r.Complete? <==>
          && c.texts != [] && (!NoPageSucceeded(c.texts) || c.chunks != [])
          && EveryPageSucceeded(c.texts) && forall i :: 0 <= i < |issues| ==> issues[i].severity.Info?)
  }

  /** derive_completeness, which counts the pages of either outcome. */
  method CompletenessOf(c: Contents, issues: seq<Issue>) returns (r: Completeness)
    ensures Completes(c, issues, r)
    ensures r == DeriveCompleteness(c, issues)
  {
    assert AnyPage(c.texts, true) <==> !NoPageSucceeded(c.texts);
    assert AnyPage(c.texts, false) <==> !EveryPageSucceeded(c.texts);
    hide NoPageSucceeded, EveryPageSucceeded;
    hide AnyPage;
    var succeeded, failed := 0, 0;
    NoPage(c.texts);
    for t := 0 to |c.texts|
      invariant (succeeded > 0 <==> AnyPage(c.texts[..t], true)) && (failed > 0 <==> AnyPage(c.texts[..t], false))
      invariant succeeded >= 0 && failed >= 0
    {
      var pages := c.texts[t].pages;
      ghost var s0, f0 := succeeded, failed;
      for p := 0 to |pages|
        invariant succeeded >= s0 && failed >= f0
        invariant succeeded > s0 <==> exists q :: 0 <= q < p && pages[q].status.Succeeded?
        invariant failed > f0 <==> exists q :: 0 <= q < p && !pages[q].status.Succeeded?
      {
        if pages[p].status.Succeeded? { succeeded := succeeded + 1; } else { failed := failed + 1; }
      }
      AnyPageStep(c.texts, t);
    }
    assert c.texts[..|c.texts|] == c.texts;
    if c.texts == [] || (succeeded == 0 && c.chunks == []) { return NoneComplete; }
    r := if failed > 0 || Troubled(issues) then Partial else Complete;
  }

  lemma {:induction false} NoPage(texts: seq<TextArtifact>)
    ensures !AnyPage(texts[..0], true) && !AnyPage(texts[..0], false)
  {
  }

  lemma {:induction false} AnyPageStep(texts: seq<TextArtifact>, t: nat)
    requires t < |texts|
    ensures
      var pages := texts[t].pages;
      && (AnyPage(texts[..t + 1], true)
          <==> AnyPage(texts[..t], true) || exists p :: 0 <= p < |pages| && pages[p].status.Succeeded?)
      && (AnyPage(texts[..t + 1], false)
          <==> AnyPage(texts[..t], false) || exists p :: 0 <= p < |pages| && !pages[p].status.Succeeded?)
  {
    var a, b, pages := texts[..t + 1], texts[..t], texts[t].pages;
    assert a[t] == texts[t];
    assert forall i :: 0 <= i < t ==> a[i] == b[i];
    forall outcome: bool
      ensures AnyPage(a, outcome)
          <==> AnyPage(b, outcome) || exists p :: 0 <= p < |pages| && pages[p].status.Succeeded? == outcome
    {
      if AnyPage(b, outcome) {
        var i, p :| 0 <= i < |b| && 0 <= p < |b[i].pages| && b[i].pages[p].status.Succeeded? == outcome;
        assert a[i].pages[p].status.Succeeded? == outcome;
      }
      if p :| 0 <= p < |pages| && pages[p].status.Succeeded? == outcome {
        assert a[t].pages[p].status.Succeeded? == outcome;
      }
    }
  }

  // ---------------------------------------------------------------- assembly and validation

  datatype Parts = Parts(contents: Contents, issues: seq<Issue>)

  datatype Batch = Batch(contents: Contents, issues: seq<Issue>, completeness: Completeness)

  datatype Config = Config(maximumRecords: nat, maximumEdges: nat)

  /** Tests of messages on the wire. */
  datatype Tests = Tests(
    context: Contents -> bool,
    records: Contents -> bool,
    issue: Issue -> bool,
    batch: Batch -> bool)

  /** What the models rely on: a valid batch has a valid context, and in valid records no span ends
      before it starts. */
  ghost predicate Sane(w: Tests) {
    && (forall b :: w.batch(b) ==> w.context(b.contents))
    && (forall c, t :: w.records(c) && 0 <= t < |c.texts| ==> Pages.WireValid(c.texts[t].pages))
  }

  /** Wire validation of messages is not modelled; it is any sane set of tests. */
  type Wire = w: Tests | Sane(w)
    ghost witness Tests((_: Contents) => false, (_: Contents) => false, (_: Issue) => false, (_: Batch) => false)

  datatype Result<T> = Ok(value: T) | Err(reason: string)

  function RecordCount(c: Contents, issues: nat): nat {
    1 + |c.sources| + |c.texts| + |c.structures| + |c.others| + |c.chunks| + issues
  }

  predicate AllWire(wire: Wire, issues: seq<Issue>) { forall i :: 0 <= i < |issues| ==> wire.issue(issues[i]) }

  ghost function Assemble(p: Parts, config: Config, wire: Wire, evidence: Failure -> seq<string>): Result<Batch> {
    var c := p.contents;
    var total := RecordCount(c, |p.issues|);
    if config.maximumRecords == 0 || config.maximumEdges == 0 then Err("config")
    else if !Snapshots.ValidId(c.batchId) then Err("batch_id")
    else if !wire.context(c) then Err("wire")
    else if !Snapshots.ValidId(c.corpus) then Err("context.corpus_id")
    else if c.sources == [] then Err("sources")
    else if total > config.maximumRecords then Err("record limit")
    else if !wire.records(c) || !AllWire(wire, p.issues) then Err("wire")
    else if !Closed(c, config.maximumEdges) then Err("closure")
    else if total + MissingCount(p.issues, Failures(c.texts)) > config.maximumRecords then Err("record limit")
    else
      var issues := Appended(p.issues, Failures(c.texts), PageSeverity(c.texts), evidence);
      var batch := Batch(c, issues, DeriveCompleteness(c, issues));
      if !AllWire(wire, issues) || !wire.batch(batch) then Err("wire") else Ok(batch)
  }

  ghost predicate Validates(b: Batch, config: Config, wire: Wire) {
    var c := b.contents;
    && config.maximumRecords > 0 && config.maximumEdges > 0
    && wire.batch(b)
    && Snapshots.ValidId(c.batchId) && Snapshots.ValidId(c.corpus) && c.sources != []
    && RecordCount(c, |b.issues|) <= config.maximumRecords
    && wire.records(c) && AllWire(wire, b.issues)
    && Closed(c, config.maximumEdges)
    && FailureKeys(Failures(c.texts)) <= Keys(b.issues)
    && b.completeness == DeriveCompleteness(c, b.issues)
  }

  /** validate_document_batch */
  method ValidateBatch(b: Batch, config: Config, wire: Wire) returns (ok: bool)
    ensures ok <==> Validates(b, config, wire)
  {
    hide Closed, Keys, FailureKeys, Failures, Snapshots.ValidId, AllWire;
    var c := b.contents;
    if config.maximumRecords == 0 || config.maximumEdges == 0 || !wire.batch(b) { return false; }
    if !Snapshots.ValidId(c.batchId) || !Snapshots.ValidId(c.corpus) || c.sources == [] { return false; }
    if RecordCount(c, |b.issues|) > config.maximumRecords { return false; }
    if !wire.records(c) || !AllWire(wire, b.issues) { return false; }
    ok := ValidateClosure(c, config.maximumEdges);
    if !ok || !(FailureKeys(Failures(c.texts)) <= Keys(b.issues)) { return false; }
    var completeness := CompletenessOf(c, b.issues);
    ok := b.completeness == completeness;
  }

  lemma {:induction false} ConcatAt<S, T>(items: seq<S>, f: S -> seq<T>, i: nat, k: nat) returns (a: nat)
    requires i < |items| && k < |f(items[i])|
    ensures a < |Concat(items, f)| && Concat(items, f)[a] == f(items[i])[k]
    ensures a >= |Concat(items[..i], f)| && a == |Concat(items[..i], f)| + k
  {
    var front := items[..|items| - 1];
    if i < |front| {
      a := ConcatAt(front, f, i, k);
      assert front[..i] == items[..i];
    } else {
      a := |Concat(front, f)| + k;
      assert items[..i] == front;
    }
  }

  lemma {:induction false} ConcatLonger<S, T>(items: seq<S>, f: S -> seq<T>, i: nat, j: nat)
    requires i < j <= |items| && |f(items[i])| > 0
    ensures |Concat(items[..i], f)| < |Concat(items[..j], f)|
    decreases j
  {
    assert items[..j][..j - 1] == items[..j - 1];
    if i < j - 1 { ConcatLonger(items, f, i, j - 1); } else { assert items[..i] == items[..j - 1]; }
  }

  /** Accepted identities make the text artifacts distinct. */
  lemma {:induction false} TextsAreDistinct(c: Contents)
    requires Acceptable(DepMap(c.deps), c.corpus, Entries(c))
    ensures DistinctTexts(c.texts)
  {
    var base := 1 + |Concat(c.sources, SourceEntries)|;
    forall i, j | 0 <= i < j < |c.texts| ensures c.texts[i].id != c.texts[j].id {
      var a := ConcatAt(c.texts, TextEntries, i, 0);
      var b := ConcatAt(c.texts, TextEntries, j, 0);
      ConcatLonger(c.texts, TextEntries, i, j);
      TextEntry(c, a);
      TextEntry(c, b);
      hide Entries, Concat;
      assert Compatible(Entries(c)[base + a], Entries(c)[base + b]);
    }
  }

  lemma {:induction false} TextEntry(c: Contents, a: nat)
    requires a < |Concat(c.texts, TextEntries)|
    ensures 1 + |Concat(c.sources, SourceEntries)| + a < |Entries(c)|
    ensures Entries(c)[1 + |Concat(c.sources, SourceEntries)| + a] == Concat(c.texts, TextEntries)[a]
  {
    hide Concat;
  }

  /** What assembling returns, validating accepts under the same limits. */
  lemma {:induction false} AssembledValidates(p: Parts, config: Config, wire: Wire, evidence: Failure -> seq<string>)
    requires Assemble(p, config, wire, evidence).Ok?
    ensures Validates(Assemble(p, config, wire, evidence).value, config, wire)
  {
    var c := p.contents;
    hide Closed, Snapshots.ValidId, AllWire, DeriveCompleteness, PageSeverity;
    assert Closed(c, config.maximumEdges);
    assert DistinctTexts(c.texts) by { ClosedTexts(c, config.maximumEdges); }
    FailuresDistinct(c.texts);
    AppendedCount(p.issues, Failures(c.texts), PageSeverity(c.texts), evidence);
    AppendedKeys(p.issues, Failures(c.texts), PageSeverity(c.texts), evidence);
    hide Appended, Keys, FailureKeys, Failures, MissingCount, DistinctFailures;
  }

  lemma {:induction false} ClosedTexts(c: Contents, maximum: nat)
    requires Closed(c, maximum)
    ensures DistinctTexts(c.texts)
  {
    hide Acceptable, Entries, AllResolve, AllTiled, Structures.Forest, DistinctTexts;
    TextsAreDistinct(c);
  }

  /** The completeness of a validated batch says what its pages, chunks and issues are. */
  lemma {:induction false} CompletenessIsTrue(b: Batch, config: Config, wire: Wire)
    requires Validates(b, config, wire)
    ensures Completes(b.contents, b.issues, b.completeness)
  {
    hide Closed, Keys, FailureKeys, Failures, Snapshots.ValidId, AllWire;
    var texts := b.contents.texts;
    assert AnyPage(texts, true) <==> !NoPageSucceeded(texts);
    assert AnyPage(texts, false) <==> !EveryPageSucceeded(texts);
  }

  // ---------------------------------------------------------------- the issues of an assembled batch

  /** A page of a batch that did not succeed. */
  ghost predicate FailedPage(texts: seq<TextArtifact>, t: nat, p: nat) {
    t < |texts| && p < |texts[t].pages| && !texts[t].pages[p].status.Succeeded?
  }

  lemma {:induction false} PageFailuresExactly(textId: string, pages: seq<Pages.Page>, f: Failure)
    ensures f in PageFailures(textId, pages)
      <==> f.textId == textId && f.index < |pages| && !pages[f.index].status.Succeeded?
  {
    if pages != [] {
      var n := |pages| - 1;
      PageFailuresExactly(textId, pages[..n], f);
      assert f.index < n ==> pages[..n][f.index] == pages[f.index];
    }
  }

  /** The failure is that of a page. */
  ghost predicate IsFailure(texts: seq<TextArtifact>, f: Failure) {
    exists t: nat :: FailedPage(texts, t, f.index) && texts[t].id == f.textId
  }

  lemma {:induction false} IsFailureSplit(texts: seq<TextArtifact>, f: Failure)
    requires texts != []
    ensures
      var n := |texts| - 1;
      IsFailure(texts, f) <==> IsFailure(texts[..n], f) || (FailedPage(texts, n, f.index) && texts[n].id == f.textId)
  {
    var n := |texts| - 1;
    var front := texts[..n];
    assert forall t: nat :: t < n ==> (FailedPage(front, t, f.index) <==> FailedPage(texts, t, f.index));
    assert forall t: nat :: FailedPage(front, t, f.index) ==> t < n;
    assert forall t: nat :: FailedPage(texts, t, f.index) ==> t < n || t == n;
    hide FailedPage;
    if t: nat :| FailedPage(front, t, f.index) && front[t].id == f.textId {
      assert FailedPage(texts, t, f.index) && texts[t].id == f.textId;
    }
    if t: nat :| FailedPage(texts, t, f.index) && texts[t].id == f.textId {
      assert t < n ==> FailedPage(front, t, f.index) && front[t].id == f.textId;
    }
  }

  /** The list of failures has exactly the failed pages. */
  lemma {:induction false} FailuresExactly(texts: seq<TextArtifact>, f: Failure)
    ensures f in Failures(texts) <==> IsFailure(texts, f)
  {
    if texts != [] {
      var n := |texts| - 1;
      FailuresExactly(texts[..n], f);
      FailuresSplit(texts);
      IsFailureSplit(texts, f);
      PageFailuresExactly(texts[n].id, texts[n].pages, f);
      hide Failures, PageFailures, IsFailure;
    }
  }

  lemma {:induction false} FailuresSplit(texts: seq<TextArtifact>)
    requires texts != []
    ensures
      var n := |texts| - 1;
      Failures(texts) == Failures(texts[..n]) + PageFailures(texts[n].id, texts[n].pages)
  {
  }

  /** What is appended is the issue of a failure that had none. */
  lemma {:induction false} AppendedAre(
      issues: seq<Issue>, failures: seq<Failure>, severity: Severity, evidence: Failure -> seq<string>, i: nat)
    requires |issues| <= i < |Appended(issues, failures, severity, evidence)|
    ensures exists f ::
        f in failures && Appended(issues, failures, severity, evidence)[i] == IssueFor(f, severity, evidence)
  {
    var n := |failures| - 1;
    var done := Appended(issues, failures[..n], severity, evidence);
    if i < |done| {
      AppendedAre(issues, failures[..n], severity, evidence, i);
      var f :| f in failures[..n] && done[i] == IssueFor(f, severity, evidence);
      assert f in failures;
    } else {
      assert failures[n] in failures;
    }
  }

  /** An issue as assembly writes it for a failed page: a warning while some page of the batch
      succeeded, and otherwise an error. */
  ghost predicate TellsOf(issue: Issue, texts: seq<TextArtifact>, t: nat, p: nat, evidence: Failure -> seq<string>) {
    && FailedPage(texts, t, p)
    && issue.code == "PAGE_EXTRACTION_INCOMPLETE" && issue.recordId == texts[t].id
    && issue.fieldPath == "page_results[" + Decimals.Decimal(p) + "]"
    && issue.severity == (if NoPageSucceeded(texts) then Error else Warning)
    && issue.evidence == evidence(Failure(texts[t].id, p))
    && issue.disposition == "retain_partial_and_require_followup"
  }

  ghost predicate TellsOfSome(issue: Issue, texts: seq<TextArtifact>, evidence: Failure -> seq<string>) {
    exists t: nat, p: nat :: TellsOf(issue, texts, t, p, evidence)
  }

  /** The issues given come first, then one for every failed page that had none. */
  ghost predicate IssuesTell(
      given: seq<Issue>, issues: seq<Issue>, texts: seq<TextArtifact>, evidence: Failure -> seq<string>)
  {
    && given <= issues
    && (forall i :: |given| <= i < |issues| ==> TellsOfSome(issues[i], texts, evidence))
    && (forall t: nat, k: nat :: FailedPage(texts, t, k) ==> PageKey(texts[t].id, k) in Keys(issues))
  }

  lemma {:induction false} AppendedTell(given: seq<Issue>, texts: seq<TextArtifact>, evidence: Failure -> seq<string>)
    ensures IssuesTell(given, Appended(given, Failures(texts), PageSeverity(texts), evidence), texts, evidence)
  {
    var severity, failures := PageSeverity(texts), Failures(texts);
    var issues := Appended(given, failures, severity, evidence);
    assert severity == if NoPageSucceeded(texts) then Error else Warning;
    hide Appended, PageSeverity, Failures, Keys, NoPageSucceeded, FailedPage;
    AppendedKeys(given, failures, severity, evidence);
    forall i | |given| <= i < |issues| ensures TellsOfSome(issues[i], texts, evidence) {
      AppendedAre(given, failures, severity, evidence, i);
      var f :| f in failures && issues[i] == IssueFor(f, severity, evidence);
      FailuresExactly(texts, f);
      var t: nat :| FailedPage(texts, t, f.index) && texts[t].id == f.textId;
      assert TellsOf(issues[i], texts, t, f.index, evidence);
    }
    forall t: nat, k: nat | FailedPage(texts, t, k) ensures t < |texts| && PageKey(texts[t].id, k) in Keys(issues) {
      assert t < |texts| by { FailedInside(texts, t, k); }
      var f := Failure(texts[t].id, k);
      FailuresExactly(texts, f);
      var j :| 0 <= j < |failures| && failures[j] == f;
      assert PageKey(f.textId, f.index) in FailureKeys(failures);
    }
  }

  lemma {:induction false} FailedInside(texts: seq<TextArtifact>, t: nat, p: nat)
    requires FailedPage(texts, t, p)
    ensures t < |texts| && p < |texts[t].pages|
  {
  }

  /** The issues of an assembled batch. */
  lemma {:induction false} AssembledIssues(p: Parts, config: Config, wire: Wire, evidence: Failure -> seq<string>)
    requires Assemble(p, config, wire, evidence).Ok?
    ensures
      var b := Assemble(p, config, wire, evidence).value;
      b.contents == p.contents && IssuesTell(p.issues, b.issues, p.contents.texts, evidence)
  {
    hide Closed, Appended, AllWire, IssuesTell, Failures, PageSeverity, MissingCount, DeriveCompleteness,
      Snapshots.ValidId;
    AppendedTell(p.issues, p.contents.texts, evidence);
  }

  /** A validated batch assembles from its own parts to itself: assembly is idempotent. */
  lemma {:induction false} ReassemblesToItself(b: Batch, config: Config, wire: Wire, evidence: Failure -> seq<string>)
    requires Validates(b, config, wire)
    ensures Assemble(Parts(b.contents, b.issues), config, wire, evidence) == Ok(b)
  {
    var failures := Failures(b.contents.texts);
    AppendedNothing(b.issues, failures, PageSeverity(b.contents.texts), evidence);
    hide Appended, Keys, FailureKeys, Failures, MissingCount, Closed, Snapshots.ValidId, AllWire, DeriveCompleteness;
  }

  /** A batch reported complete has no failed page in any artifact and no warning or error. */
  lemma {:induction false} CompleteMeansNoFailure(b: Batch, config: Config, wire: Wire, t: nat, p: nat)
    requires Validates(b, config, wire) && b.completeness.Complete?
    requires t < |b.contents.texts| && p < |b.contents.texts[t].pages|
    ensures b.contents.texts[t].pages[p].status.Succeeded? && !Troubled(b.issues)
  {
    hide Closed, Keys, FailureKeys, Failures, Snapshots.ValidId, AllWire;
    assert b.contents.texts[t].pages[p].status.Succeeded? == false ==> AnyPage(b.contents.texts, false);
  }
}
