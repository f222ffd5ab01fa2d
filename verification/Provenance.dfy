/** The evidence of a chunk in a complete document batch.

    Provenance finds a chunk's pages by binary search and an early stop, and its ancestors by
    following parent links.  Nothing it looks up is checked again here: that the lookups succeed
    follows from the validation of the batch. */
module Provenance {
  import opened Wrappers
  import opened Namespaces
  import opened Batches
  import Pages
  import Structures
  import Snapshots

  // ---------------------------------------------------------------- what validation gives

  lemma {:induction false} ConcatIn<S, T>(items: seq<S>, f: S -> seq<T>, x: T)
    ensures x in Concat(items, f) <==> exists i :: 0 <= i < |items| && x in f(items[i])
  {
    if items != [] {
      var front, n := items[..|items| - 1], |items| - 1;
      ConcatIn(front, f, x);
      if i :| 0 <= i < n && x in f(front[i]) { assert x in f(items[i]); }
      if i :| 0 <= i < |items| && x in f(items[i]) { assert i < n ==> x in f(front[i]); }
    }
  }

  /** The normalized size the index holds for a text is the text's own. */
  lemma {:induction false} TextIsOwned(c: Contents, t: nat)
    requires Acceptable(DepMap(c.deps), c.corpus, Entries(c)) && t < |c.texts|
    ensures
      var index := IndexOf(Entries(c));
      c.texts[t].id in index.local && index.local[c.texts[t].id] == Owner(Text, c.texts[t].normalized.size)
  {
    var text := c.texts[t];
    var e := Local(text.id, text.corpus, Owner(Text, text.normalized.size));
    assert TextEntries(text)[0] == e;
    ConcatIn(c.texts, TextEntries, e);
    assert e in Entries(c);
    AcceptableRepresents(DepMap(c.deps), c.corpus, Entries(c));
    hide Entries, IndexOf, Acceptable;
    var i :| 0 <= i < |Entries(c)| && Entries(c)[i] == e;
  }

  /** A local identity of a kind is a record of the batch of that kind. */
  lemma {:induction false} OwnerIsRecord(c: Contents, id: string) returns (e: Entry)
    requires Acceptable(DepMap(c.deps), c.corpus, Entries(c)) && id in IndexOf(Entries(c)).local
    ensures e in Entries(c) && e.Local? && e.id == id && e.owner == IndexOf(Entries(c)).local[id]
  {
    AcceptableRepresents(DepMap(c.deps), c.corpus, Entries(c));
    hide Entries, IndexOf, Acceptable;
    var i :| 0 <= i < |Entries(c)| && Entries(c)[i].Local? && Entries(c)[i].id == id;
    e := Entries(c)[i];
  }

  ghost predicate HasText(c: Contents, id: string) { exists t :: 0 <= t < |c.texts| && c.texts[t].id == id }

  ghost predicate HasNode(c: Contents, id: string) {
    exists s :: 0 <= s < |c.structures| && c.structures[s].node.id == id
  }

  /** Where an entry comes from. */
  lemma {:induction false} EntryOf(c: Contents, e: Entry)
    requires e in Entries(c) && e.Local?
    ensures e.owner.kind == Text ==> HasText(c, e.id)
    ensures e.owner.kind == Structure ==> HasNode(c, e.id)
  {
    ConcatIn(c.sources, SourceEntries, e);
    ConcatIn(c.texts, TextEntries, e);
    ConcatIn(c.structures, StructureEntries, e);
    ConcatIn(c.others, PlainEntries, e);
    ConcatIn(c.chunks, ChunkEntries, e);
    hide Concat;
  }

  lemma {:induction false} ChunkResolves(c: Contents, k: nat, target: Target)
    requires AllResolve(c) && k < |c.chunks| && target in ChunkTargets(c.chunks[k])
    ensures Resolves(IndexOf(Entries(c)), DepMap(c.deps), target)
  {
    ConcatIn(c.chunks, ChunkTargets, target);
    assert target in Targets(c) by { hide Concat, ChunkTargets; }
    hide Targets, IndexOf, Entries, Resolves, ChunkTargets;
    var i :| 0 <= i < |Targets(c)| && Targets(c)[i] == target;
  }

  /** A chunk ends within its text, and a chunk whose text is not in the batch names something
      the manifest fingerprints. */
  lemma {:induction false} ChunkEndsInText(c: Contents, maximum: nat, k: nat)
    requires Closed(c, maximum) && k < |c.chunks|
    ensures forall t :: 0 <= t < |c.texts| && c.texts[t].id == c.chunks[k].span.textId ==>
                          c.chunks[k].span.end <= c.texts[t].normalized.size
    ensures !HasText(c, c.chunks[k].span.textId) ==> Outside(Entries(c), DepMap(c.deps), c.chunks[k].span.textId)
  {
    var span, index := c.chunks[k].span, IndexOf(Entries(c));
    assert ChunkTargets(c.chunks[k])[0] == Within(span.textId, span.end);
    ChunkResolves(c, k, Within(span.textId, span.end));
    AcceptableRepresents(DepMap(c.deps), c.corpus, Entries(c));
    ExternalMeans(index, DepMap(c.deps), Entries(c), span.textId);
    hide Entries, IndexOf, Acceptable, Represents, AllResolve, AllTiled, Structures.Forest, Outside, Edges;
    forall t | 0 <= t < |c.texts| && c.texts[t].id == span.textId ensures span.end <= c.texts[t].normalized.size {
      TextIsOwned(c, t);
    }
    if IsKind(index, Text, span.textId) {
      var e := OwnerIsRecord(c, span.textId);
      EntryOf(c, e);
    }
  }

  /** The structures and parents a chunk names are structures of the batch. */
  lemma {:induction false} ChunkNodesExist(c: Contents, maximum: nat, k: nat, id: string)
    requires Closed(c, maximum) && k < |c.chunks| && id in c.chunks[k].structures + c.chunks[k].parents
    ensures HasNode(c, id)
  {
    var chunk := c.chunks[k];
    var i :| 0 <= i < |chunk.structures + chunk.parents| && (chunk.structures + chunk.parents)[i] == id;
    assert ChunkTargets(chunk)[1 + i] == LocalStructure(id);
    ChunkResolves(c, k, LocalStructure(id));
    hide Entries, IndexOf, Acceptable, AllResolve, AllTiled, Structures.Forest, Edges;
    var e := OwnerIsRecord(c, id);
    EntryOf(c, e);
  }

  // ---------------------------------------------------------------- the index

  datatype ChunkIndex = ChunkIndex(
    chunks: map<string, ChunkRecord>,
    texts: map<string, TextArtifact>,
    structures: Structures.Nodes)

  function ChunkId(c: ChunkRecord): string { c.id }

  function TextId(t: TextArtifact): string { t.id }

  /** The index of a validated, complete batch. */
  ghost predicate Opened(index: ChunkIndex, b: Batch, config: Config, wire: Wire) {
    && Validates(b, config, wire) && b.completeness.Complete? && b.contents.chunks != []
    && index.chunks == Structures.ById(b.contents.chunks, ChunkId)
    && index.texts == Structures.ById(b.contents.texts, TextId)
    && index.structures == Structures.ById(Nodes(b.contents.structures), Structures.NodeId)
  }

  /** ChunkProvenanceIndex::new */
  method Open(b: Batch, config: Config, wire: Wire) returns (r: Option<ChunkIndex>)
    ensures r.Some? <==> Validates(b, config, wire) && b.completeness.Complete? && b.contents.chunks != []
    ensures r.Some? ==> Opened(r.value, b, config, wire)
  {
    hide Validates;
    var ok := ValidateBatch(b, config, wire);
    if !ok || !b.completeness.Complete? || b.contents.chunks == [] { return None; }
    r := Some(ChunkIndex(
      Structures.ById(b.contents.chunks, ChunkId),
      Structures.ById(b.contents.texts, TextId),
      Structures.ById(Nodes(b.contents.structures), Structures.NodeId)));
  }

  /** Pages that are numbered from one and all succeeded. */
  ghost predicate AllSucceeded(pages: seq<Pages.Page>) {
    forall p :: 0 <= p < |pages| ==> pages[p].number == p + 1 && pages[p].status.Succeeded?
  }

  /** What an indexed text is like: its pages tile it, run forward and all succeeded. */
  ghost predicate Sound(text: TextArtifact) {
    && Pages.PagesOk(text.id, text.normalized.size, text.pages) && Pages.WireValid(text.pages)
    && AllSucceeded(text.pages)
  }

  lemma {:induction false} TextIsSound(b: Batch, config: Config, wire: Wire, t: nat)
    requires Validates(b, config, wire) && b.completeness.Complete? && t < |b.contents.texts|
    ensures Sound(b.contents.texts[t])
  {
    var text := b.contents.texts[t];
    assert Closed(b.contents, config.maximumEdges) && wire.records(b.contents);
    assert Sane(wire) && AllTiled(b.contents.texts);
    assert Pages.WireValid(text.pages) && Pages.PagesOk(text.id, text.normalized.size, text.pages);
    hide Validates, Closed;
    forall p | 0 <= p < |text.pages| ensures text.pages[p].number == p + 1 && text.pages[p].status.Succeeded? {
      CompleteMeansNoFailure(b, config, wire, t, p);
      assert Pages.PageOk(text.id, text.normalized.size, text.pages, p);
    }
  }

  /** Everything a lookup of a chunk leads to. */
  lemma {:induction false} ChunkLeadsTo(index: ChunkIndex, b: Batch, config: Config, wire: Wire, id: string)
    requires Opened(index, b, config, wire) && id in index.chunks
    ensures
      var chunk := index.chunks[id];
      && (chunk.span.textId !in index.texts ==>
          Outside(Entries(b.contents), DepMap(b.contents.deps), chunk.span.textId))
      && (chunk.span.textId in index.texts ==>
            var text := index.texts[chunk.span.textId];
            text.id == chunk.span.textId && Sound(text) && chunk.span.end <= text.normalized.size)
      && forall i :: 0 <= i < |chunk.structures| ==> chunk.structures[i] in index.structures
  {
    var c, chunk := b.contents, index.chunks[id];
    Structures.ByIdHolds(c.chunks, ChunkId);
    Structures.ByIdHolds(c.texts, TextId);
    Structures.ByIdHolds(Nodes(c.structures), Structures.NodeId);
    var k: nat :| k < |c.chunks| && c.chunks[k] == chunk;
    assert Closed(c, config.maximumEdges);
    ChunkEndsInText(c, config.maximumEdges, k);
    if chunk.span.textId in index.texts {
      var t: nat :| t < |c.texts| && c.texts[t] == index.texts[chunk.span.textId];
      TextIsSound(b, config, wire, t);
    }
    hide Validates, Closed, Sound, Structures.ById, Outside, Entries;
    forall i | 0 <= i < |chunk.structures| ensures chunk.structures[i] in index.structures {
      ChunkNodesExist(c, config.maximumEdges, k, chunk.structures[i]);
      var s :| 0 <= s < |c.structures| && c.structures[s].node.id == chunk.structures[i];
      assert Structures.NodeId(Nodes(c.structures)[s]) == chunk.structures[i];
    }
  }

  /** Every indexed node has one line to its root. */
  ghost predicate IsLine(nodes: Structures.Nodes, x: string, line: seq<string>) {
    Structures.Follows(nodes, line) && Structures.Simple(line) && line[0] == x
  }

  lemma {:induction false} NodeHasLine(index: ChunkIndex, b: Batch, config: Config, wire: Wire, x: string)
    returns (line: seq<string>)
    requires Opened(index, b, config, wire) && x in index.structures
    ensures IsLine(index.structures, x, line)
  {
    var nodes := Nodes(b.contents.structures);
    assert Closed(b.contents, config.maximumEdges);
    hide Validates;
    assert Structures.Forest(nodes);
    Structures.NodesById(nodes);
    hide Structures.Forest, Structures.NodesOf, Closed;
    line := Structures.ForestLine(nodes, index.structures, x);
  }

  // ---------------------------------------------------------------- locators

  /** A locator that names another source or a page the text does not have. */
  predicate Foreign(l: Pages.Locator, text: TextArtifact) {
    l.source != text.sourceId || l.page == 0 || l.page > |text.pages|
  }

  function OnPage(locators: seq<Pages.Locator>, number: nat): seq<Pages.Locator> {
    if locators == [] then []
    else
      var n := |locators| - 1;
      OnPage(locators[..n], number) + (if locators[n].page == number then [locators[n]] else [])
  }

  /** A page's evidence: the structure's locators on it, or else the page as a whole. */
  function LocatorsFor(locators: seq<Pages.Locator>, source: string, page: Pages.Page): seq<Pages.Locator> {
    var own := OnPage(locators, page.number);
    if own == [] then [Pages.Locator(source, page.number, "")] else own
  }

  type Groups = map<nat, seq<Pages.Locator>>

  ghost predicate Grouped(groups: Groups, locators: seq<Pages.Locator>) {
    forall n: nat :: if n in groups then groups[n] == OnPage(locators, n) != [] else OnPage(locators, n) == []
  }

  /** Groups the locators of the direct structure by page, refusing a foreign one. */
  method Group(locators: seq<Pages.Locator>, text: TextArtifact) returns (ok: bool, groups: Groups)
    requires AllSucceeded(text.pages)
    ensures ok <==> forall i :: 0 <= i < |locators| ==> !Foreign(locators[i], text)
    ensures ok ==> Grouped(groups, locators)
  {
    hide Grouped;
    groups := map[];
    NoGroups(locators);
    for i := 0 to |locators|
      invariant forall j :: 0 <= j < i ==> !Foreign(locators[j], text)
      invariant Grouped(groups, locators[..i])
    {
      var l := locators[i];
      if l.source != text.sourceId || l.page == 0 || l.page > |text.pages|
         || text.pages[l.page - 1].number != l.page || !text.pages[l.page - 1].status.Succeeded?
      {
        return false, groups;
      }
      GroupOne(groups, locators, i);
      groups := groups[l.page := (if l.page in groups then groups[l.page] else []) + [l]];
    }
    assert locators[..|locators|] == locators;
    ok := true;
  }

  lemma {:induction false} NoGroups(locators: seq<Pages.Locator>)
    ensures Grouped(map[], locators[..0])
  {
  }

  lemma {:induction false} GroupOne(groups: Groups, locators: seq<Pages.Locator>, i: nat)
    requires i < |locators| && Grouped(groups, locators[..i])
    ensures
      var l := locators[i];
      Grouped(groups[l.page := (if l.page in groups then groups[l.page] else []) + [l]], locators[..i + 1])
  {
    assert locators[..i + 1][..i] == locators[..i];
    forall n: nat
      ensures OnPage(locators[..i + 1], n)
        == OnPage(locators[..i], n) + (if locators[i].page == n then [locators[i]] else [])
    {
    }
    hide OnPage;
  }

  /** The locators of the kept pages, in order. */
  method Locate(kept: seq<Pages.Page>, groups: Groups, source: string, ghost locators: seq<Pages.Locator>)
    returns (r: seq<Pages.Locator>)
    requires Grouped(groups, locators)
    requires forall p, q :: 0 <= p < q < |kept| ==> kept[p].number != kept[q].number
    ensures r == Concat(kept, page => LocatorsFor(locators, source, page))
    ensures kept != [] ==> r != []
  {
    hide OnPage;
    ghost var f := page => LocatorsFor(locators, source, page);
    var left := groups;
    r := [];
    assert kept[..0] == [];
    for p := 0 to |kept|
      invariant r == Concat(kept[..p], f) && (p > 0 ==> r != [])
      invariant forall q :: p <= q < |kept| ==>
                              && (kept[q].number in left <==> kept[q].number in groups)
                              && (kept[q].number in left ==> left[kept[q].number] == groups[kept[q].number])
    {
      assert kept[..p + 1][..p] == kept[..p];
      var n := kept[p].number;
      assert Concat(kept[..p + 1], f) == r + LocatorsFor(locators, source, kept[p]);
      if n in left {
        r := r + left[n];
        left := left - {n};
      } else {
        r := r + [Pages.Locator(source, n, "")];
      }
    }
    assert kept[..|kept|] == kept;
  }

  // ---------------------------------------------------------------- projection

  datatype Error =
    | MissingChunk
    | InvalidSpan
    | MissingTextArtifact
    | MissingStructure
    | ForeignStructure
    | InvalidParentChain
    | ForeignLocator

  datatype Projection = Projected(span: Pages.Span, locators: seq<Pages.Locator>) | Refused(error: Error)

  predicate Contains(x: Structures.Node, span: Pages.Span) {
    exists i :: 0 <= i < |x.spans| && x.spans[i].start <= span.start && x.spans[i].end >= span.end
  }

  /** The chunk's list of parents is its structure's line, documents left out, root first. */
  ghost predicate ParentsMatch(nodes: Structures.Nodes, chunk: ChunkRecord, line: seq<string>) {
    && Structures.LineSuits(nodes, line, chunk.span.textId)
    && chunk.parents == Structures.Reversed(Structures.Shown(nodes, line))
  }

  /** What evidence for a chunk takes. */
  ghost predicate Provable(index: ChunkIndex, chunk: ChunkRecord) {
    && chunk.span.start < chunk.span.end && chunk.span.textId != "" && chunk.span.textId in index.texts
    && |chunk.structures| == 1 && chunk.structures[0] in index.structures
    && var direct := index.structures[chunk.structures[0]];
    && Structures.OfText(direct, chunk.span.textId) && Contains(direct, chunk.span)
    && (forall i :: 0 <= i < |direct.locators| ==> !Foreign(direct.locators[i], index.texts[chunk.span.textId]))
    && exists line :: IsLine(index.structures, chunk.structures[0], line) && ParentsMatch(index.structures, chunk, line)
  }

  /** The pages from `first` on are exactly those that overlap the span; they cover it and all of
      them succeeded. */
  ghost predicate IsWindow(pages: seq<Pages.Page>, span: Pages.Span, first: nat, count: nat) {
    && 0 < count && first + count <= |pages|
    && (forall p :: 0 <= p < |pages| ==>
                      (Pages.Overlaps(pages[p], span.textId, span.start, span.end) <==> first <= p < first + count))
    && Pages.PageEnd(pages, first) <= span.start && span.end <= Pages.PageEnd(pages, first + count)
    && (forall p :: first <= p < first + count ==> pages[p].status.Succeeded?)
  }

  /** What a projection returns: the locators of exactly those pages, at least one. */
  ghost predicate IsEvidence(
      text: TextArtifact,
      direct: Structures.Node,
      span: Pages.Span,
      first: nat,
      count: nat,
      locators: seq<Pages.Locator>)
  {
    && IsWindow(text.pages, span, first, count) && locators != []
    && locators == Concat(text.pages[first..first + count], page => LocatorsFor(direct.locators, text.sourceId, page))
  }

  ghost predicate HasForeign(index: ChunkIndex, chunk: ChunkRecord) {
    && |chunk.structures| == 1 && chunk.structures[0] in index.structures && chunk.span.textId in index.texts
    && var direct := index.structures[chunk.structures[0]];
    exists i :: 0 <= i < |direct.locators| && Foreign(direct.locators[i], index.texts[chunk.span.textId])
  }

  // ---------------------------------------------------------------- what the tests mean

  /** A structure contains a span when one of its own spans holds every byte of it. */
  lemma {:induction false} ContainsMeans(x: Structures.Node, span: Pages.Span)
    requires span.start < span.end
    ensures Contains(x, span)
      <==> exists i :: 0 <= i < |x.spans|
             && Pages.Holds(x.spans[i], span.start) && Pages.Holds(x.spans[i], span.end - 1)
  {
    if i :| 0 <= i < |x.spans| && x.spans[i].start <= span.start && x.spans[i].end >= span.end {
      assert Pages.Holds(x.spans[i], span.start) && Pages.Holds(x.spans[i], span.end - 1);
    }
  }

  /** A chunk's parents match when every ancestor of its structure lies in the chunk's text and has a
      known kind, and the chunk lists exactly the ancestors that are not documents, once each, the
      farthest first. */
  lemma {:induction false} ParentsFromRoot(nodes: Structures.Nodes, chunk: ChunkRecord, line: seq<string>)
    requires chunk.structures != [] && IsLine(nodes, chunk.structures[0], line)
    ensures
      var shown := Structures.Shown(nodes, line);
      ParentsMatch(nodes, chunk, line)
      <==> && (forall k :: 0 < k < |line| ==>
                 Structures.OfText(nodes[line[k]], chunk.span.textId) && !nodes[line[k]].kind.Unknown?)
           && |chunk.parents| == |shown|
           && (forall i :: 0 <= i < |shown| ==> chunk.parents[i] == shown[|shown| - 1 - i])
    ensures ParentsMatch(nodes, chunk, line) ==>
      forall x :: x in chunk.parents <==> x in line[1..] && !nodes[x].kind.Document?
  {
    hide Structures.Shown, Structures.Reversed, Structures.OfText, Structures.Simple, Structures.Next;
    var shown := Structures.Shown(nodes, line);
    TurnedExactly(shown, chunk.parents);
    assert forall k :: 0 <= k < |line| ==> line[k] in nodes;
    hide Structures.Follows;
    if ParentsMatch(nodes, chunk, line) {
      forall x ensures x in chunk.parents <==> x in line[1..] && !nodes[x].kind.Document? {
        Structures.ShownExactly(nodes, line, x);
        TurnedMembers(shown, chunk.parents, x);
      }
    }
  }

  lemma {:induction false} TurnedExactly(a: seq<string>, b: seq<string>)
    ensures b == Structures.Reversed(a) <==> |b| == |a| && forall i :: 0 <= i < |a| ==> b[i] == a[|a| - 1 - i]
  {
    var turned := Structures.Reversed(a);
    Structures.ReversedLength(a);
    forall i | 0 <= i < |a| ensures turned[i] == a[|a| - 1 - i] { Structures.ReversedAt(a, i); }
    hide Structures.Reversed;
    if |b| == |a| && forall i :: 0 <= i < |a| ==> b[i] == a[|a| - 1 - i] { assert b == turned; }
  }

  lemma {:induction false} TurnedMembers(a: seq<string>, b: seq<string>, x: string)
    requires |a| == |b| && forall i :: 0 <= i < |a| ==> b[i] == a[|a| - 1 - i]
    ensures x in a <==> x in b
  {
    if i :| 0 <= i < |a| && a[i] == x { assert b[|a| - 1 - i] == x; }
  }

  /** A locator is foreign unless it names the text's source and one of its pages. */
  lemma {:induction false} ForeignMeans(l: Pages.Locator, text: TextArtifact)
    requires AllSucceeded(text.pages)
    ensures !Foreign(l, text)
      <==> l.source == text.sourceId && exists p :: 0 <= p < |text.pages| && text.pages[p].number == l.page
  {
    if !Foreign(l, text) { assert text.pages[l.page - 1].number == l.page; }
  }

  lemma {:induction false} OnPageExactly(locators: seq<Pages.Locator>, number: nat, l: Pages.Locator)
    ensures l in OnPage(locators, number) <==> l in locators && l.page == number
  {
    if locators != [] {
      var n := |locators| - 1;
      OnPageExactly(locators[..n], number, l);
      assert locators == locators[..n] + [locators[n]];
    }
  }

  /** The evidence names exactly the pages of the window: every locator in it stands on one of them,
      every one of them has a locator, and a locator of the structure is part of it exactly when its
      page is one of them. */
  lemma {:induction false} EvidenceNamesWindow(
      text: TextArtifact, direct: Structures.Node, span: Pages.Span, first: nat, count: nat,
      locators: seq<Pages.Locator>, l: Pages.Locator)
    requires IsEvidence(text, direct, span, first, count, locators)
    ensures l in locators ==>
      (exists p :: first <= p < first + count && text.pages[p].number == l.page)
      && (l in direct.locators || l.source == text.sourceId)
    ensures l in direct.locators ==>
      (l in locators <==> exists p :: first <= p < first + count && text.pages[p].number == l.page)
    ensures forall p :: first <= p < first + count ==>
      exists m :: m in locators && m.page == text.pages[p].number
  {
    var kept := text.pages[first..first + count];
    var f := (page: Pages.Page) => LocatorsFor(direct.locators, text.sourceId, page);
    assert locators == Concat(kept, f) by {
      ConcatSame(kept, page => LocatorsFor(direct.locators, text.sourceId, page), f);
    }
    assert forall i :: 0 <= i < count ==> kept[i] == text.pages[first + i];
    hide Concat, IsEvidence, IsWindow, OnPage;
    ConcatIn(kept, f, l);
    if i :| 0 <= i < count && l in f(kept[i]) {
      OnPageExactly(direct.locators, kept[i].number, l);
      assert text.pages[first + i].number == l.page;
    }
    if l in direct.locators {
      if p :| first <= p < first + count && text.pages[p].number == l.page {
        OnPageExactly(direct.locators, kept[p - first].number, l);
        assert l in f(kept[p - first]);
      }
    }
    forall p | first <= p < first + count ensures exists m :: m in locators && m.page == text.pages[p].number {
      var page := kept[p - first];
      var m := f(page)[0];
      OnPageExactly(direct.locators, page.number, m);
      ConcatIn(kept, f, m);
      assert m in f(page);
    }
  }

  lemma {:induction false} ConcatSame<S, T>(items: seq<S>, f: S -> seq<T>, g: S -> seq<T>)
    requires forall x :: f(x) == g(x)
    ensures Concat(items, f) == Concat(items, g)
  {
    if items != [] { ConcatSame(items[..|items| - 1], f, g); }
  }

  // ---------------------------------------------------------------- projecting

  /** The page half of a projection.  No kept page can have failed and there is always a locator,
      so it is refused only for a foreign locator of the structure. */
  method LocatePages(text: TextArtifact, direct: Structures.Node, span: Pages.Span)
    returns (ok: bool, locators: seq<Pages.Locator>, ghost first: nat, ghost count: nat)
    requires Sound(text) && text.id == span.textId && span.start < span.end <= text.normalized.size
    ensures ok <==> forall i :: 0 <= i < |direct.locators| ==> !Foreign(direct.locators[i], text)
    ensures ok ==> IsEvidence(text, direct, span, first, count, locators)
  {
    hide Foreign, Grouped, Pages.Overlaps, Pages.PageEnd, Pages.PagesOk, Pages.WireValid, Concat;
    var groups;
    first, count, locators := 0, 0, [];
    ok, groups := Group(direct.locators, text);
    if !ok { return; }
    var from, kept := Pages.PageWindow(text.id, text.normalized.size, text.pages, span.start, span.end);
    first, count := from, |kept|;
    locators := Locate(kept, groups, text.sourceId, direct.locators);
  }

  /** ChunkProvenanceIndex::project, without the provision versions. */
  method Project(index: ChunkIndex, id: string, ghost b: Batch, ghost config: Config, ghost wire: Wire)
    returns (r: Projection, ghost first: nat, ghost count: nat)
    requires Opened(index, b, config, wire)
    ensures r.Projected? <==> id in index.chunks && Provable(index, index.chunks[id])
    ensures r.Projected? ==>
      var chunk := index.chunks[id];
      var text, direct := index.texts[chunk.span.textId], index.structures[chunk.structures[0]];
      r.span == chunk.span && IsEvidence(text, direct, chunk.span, first, count, r.locators)
    ensures r.Refused? ==> !r.error.MissingStructure?
    ensures r == Refused(MissingChunk) <==> id !in index.chunks
    ensures r == Refused(MissingTextArtifact) ==>
      Outside(Entries(b.contents), DepMap(b.contents.deps), index.chunks[id].span.textId)
    ensures r == Refused(ForeignLocator) ==> HasForeign(index, index.chunks[id])
  {
    hide Outside, Entries, DepMap, Structures.OfText, Contains, Sound, IsEvidence, IsLine, ParentsMatch, Foreign,
      Opened;
    first, count := 0, 0;
    if id !in index.chunks { return Refused(MissingChunk), first, count; }
    var chunk := index.chunks[id];
    var span := chunk.span;
    ChunkLeadsTo(index, b, config, wire, id);
    if span.start >= span.end || span.textId == "" { return Refused(InvalidSpan), first, count; }
    if span.textId !in index.texts { return Refused(MissingTextArtifact), first, count; }
    var text := index.texts[span.textId];
    if |chunk.structures| != 1 { return Refused(InvalidParentChain), first, count; }
    var direct := index.structures[chunk.structures[0]];
    if !Structures.OfText(direct, span.textId) || !Contains(direct, span) {
      return Refused(ForeignStructure), first, count;
    }
    var ok, locators;
    ok, locators, first, count := LocatePages(text, direct, span);
    if !ok { return Refused(ForeignLocator), first, count; }
    ghost var line := NodeHasLine(index, b, config, wire, chunk.structures[0]);
    var walk := FindParents(index.structures, chunk, line);
    r := if walk.Some? then Refused(walk.value) else Projected(span, locators);
  }

  /** The other half: the walk to the root and the comparison with the chunk's own list. */
  method FindParents(nodes: Structures.Nodes, chunk: ChunkRecord, ghost line: seq<string>)
    returns (error: Option<Error>)
    requires chunk.structures != [] && IsLine(nodes, chunk.structures[0], line)
    ensures error.None? <==> exists l :: IsLine(nodes, chunk.structures[0], l) && ParentsMatch(nodes, chunk, l)
    ensures error.Some? ==> error.value.ForeignStructure? || error.value.InvalidParentChain?
  {
    OneLine(nodes, chunk, line);
    hide Structures.Simple, Structures.LineSuits, Structures.Shown, Structures.Reversed;
    var walk := Structures.Ancestors(nodes, chunk.structures[0], chunk.span.textId, line);
    hide IsLine;
    if walk.Failed? {
      return Some(if walk.error.ForeignStructure? then ForeignStructure else InvalidParentChain);
    }
    error := if chunk.parents != walk.parents then Some(InvalidParentChain) else None;
  }

  lemma {:induction false} OneLine(nodes: Structures.Nodes, chunk: ChunkRecord, line: seq<string>)
    requires chunk.structures != [] && IsLine(nodes, chunk.structures[0], line)
    ensures (exists l :: IsLine(nodes, chunk.structures[0], l) && ParentsMatch(nodes, chunk, l))
        <==> ParentsMatch(nodes, chunk, line)
  {
    hide ParentsMatch;
    forall l | IsLine(nodes, chunk.structures[0], l) ensures l == line {
      Structures.LineIsUnique(nodes, l, line);
    }
  }
}
