/** Page spans of a text artifact and the pages under a chunk.

    An accepted artifact's spans tile its text: they follow each other without gap or overlap
    from the first byte to the last.  That is what lets provenance find the pages of a chunk by
    binary search and a scan that stops early. */
module Pages {

  datatype Status = Succeeded | Failed | Other

  datatype Span = Span(textId: string, start: nat, end: nat)

  datatype Page = Page(number: nat, status: Status, errors: nat, spans: seq<Span>)

  /** Where in a source something is found. */
  datatype Locator = Locator(source: string, page: nat, details: string)

  // ---------------------------------------------------------------- what is accepted

  /** Record validity on the wire: a span does not end before it starts. */
  ghost predicate Forward(spans: seq<Span>) {
    forall i :: 0 <= i < |spans| ==> spans[i].start <= spans[i].end
  }

  ghost predicate WireValid(pages: seq<Page>) {
    forall p :: 0 <= p < |pages| ==> Forward(pages[p].spans)
  }

  /** Spans of one text, each starting where the one before ends. */
  ghost predicate Chain(textId: string, spans: seq<Span>, from: nat) {
    forall i :: 0 <= i < |spans| ==> spans[i].textId == textId && spans[i].start == StartAt(spans, from, i)
  }

  /** Where span `i` has to start. */
  function StartAt(spans: seq<Span>, from: nat, i: nat): nat
    requires i <= |spans|
  {
    if i == 0 then from else spans[i - 1].end
  }

  function EndOf(spans: seq<Span>, from: nat): nat { if spans == [] then from else spans[|spans| - 1].end }

  function PageEnd(pages: seq<Page>, k: nat): nat
    requires k <= |pages|
  {
    if k == 0 then 0 else EndOf(pages[k - 1].spans, PageEnd(pages, k - 1))
  }

  ghost predicate PageShape(page: Page, index: nat) {
    && page.number == index + 1
    && (page.status.Succeeded? || page.status.Failed?)
    && (page.status.Succeeded? ==> page.errors == 0)
    && (page.status.Failed? ==> page.errors > 0)
    && page.spans != []
  }

  ghost predicate HasText(spans: seq<Span>) {
    exists i :: 0 <= i < |spans| && spans[i].start < spans[i].end
  }

  ghost predicate PageOk(textId: string, size: nat, pages: seq<Page>, p: nat)
    requires p < |pages|
  {
    && PageShape(pages[p], p)
    && SpansOk(textId, size, pages[p].spans, PageEnd(pages, p))
    && (pages[p].status.Succeeded? ==> HasText(pages[p].spans))
  }

  /** The pages cover the text exactly. */
  ghost predicate PagesOk(textId: string, size: nat, pages: seq<Page>) {
    (forall p :: 0 <= p < |pages| ==> PageOk(textId, size, pages, p)) && PageEnd(pages, |pages|) == size
  }

  // ---------------------------------------------------------------- the check

  datatype Verdict = Accepted | Rejected(field: string) | TooManyEdges

  function Spans(pages: seq<Page>): nat {
    if pages == [] then 0 else Spans(pages[..|pages| - 1]) + |pages[|pages| - 1].spans|
  }

  ghost predicate SpansOk(textId: string, size: nat, spans: seq<Span>, from: nat) {
    Chain(textId, spans, from) && forall i :: 0 <= i < |spans| ==> spans[i].end <= size
  }

  method CheckSpans(textId: string, size: nat, spans: seq<Span>, from: nat, edges: nat, maximum: nat)
    returns (verdict: Verdict, end: nat, edges': nat, text: bool)
    requires edges <= maximum
    ensures verdict.Accepted? <==> edges + |spans| <= maximum && SpansOk(textId, size, spans, from)
    ensures verdict.Accepted? ==> end == EndOf(spans, from) && edges' == edges + |spans| && (text <==> HasText(spans))
  {
    hide SpansOk, HasText;
    end, edges', text := from, edges, false;
    NoSpans(textId, size, from);
    assert spans[..0] == [];
    for i := 0 to |spans|
      invariant edges' == edges + i <= maximum && end == EndOf(spans[..i], from)
      invariant SpansOk(textId, size, spans[..i], from) && (text <==> HasText(spans[..i]))
    {
      edges' := edges' + 1;
      if edges' > maximum { return TooManyEdges, end, edges', text; }
      SpansPrefixOk(textId, size, spans, i + 1, from);
      SpansAppend(textId, size, spans, i, from);
      TextAppend(spans, i);
      if !(spans[i].textId == textId && spans[i].end <= size && spans[i].start == end) {
        return Rejected("text_artifact.page_results.spans"), end, edges', text;
      }
      text := text || spans[i].start < spans[i].end;
      end := spans[i].end;
    }
    assert spans[..|spans|] == spans;
    verdict := Accepted;
  }

  lemma {:induction false} NoSpans(textId: string, size: nat, from: nat)
    ensures SpansOk(textId, size, [], from) && !HasText([])
  {
  }

  lemma {:induction false} SpansPrefixOk(textId: string, size: nat, spans: seq<Span>, i: nat, from: nat)
    requires i <= |spans|
    ensures SpansOk(textId, size, spans, from) ==> SpansOk(textId, size, spans[..i], from)
  {
  }

  lemma {:induction false} SpansAppend(textId: string, size: nat, spans: seq<Span>, i: nat, from: nat)
    requires i < |spans| && SpansOk(textId, size, spans[..i], from)
    ensures SpansOk(textId, size, spans[..i + 1], from)
      <==> spans[i].textId == textId && spans[i].end <= size && spans[i].start == EndOf(spans[..i], from)
  {
    var done, more := spans[..i], spans[..i + 1];
    assert more[i] == spans[i];
    assert forall j :: 0 <= j < i ==> more[j] == done[j];
  }

  lemma {:induction false} TextAppend(spans: seq<Span>, i: nat)
    requires i < |spans|
    ensures HasText(spans[..i + 1]) <==> HasText(spans[..i]) || spans[i].start < spans[i].end
  {
    var done, more := spans[..i], spans[..i + 1];
    assert more[i] == spans[i];
    if HasText(done) {
      var j :| 0 <= j < i && done[j].start < done[j].end;
      assert more[j].start < more[j].end;
    }
    if j :| 0 <= j < i && more[j].start < more[j].end {
      assert done[j].start < done[j].end;
    }
  }

  lemma {:induction false} SpansPrefix(pages: seq<Page>, k: nat)
    requires k <= |pages|
    ensures Spans(pages[..k]) <= Spans(pages)
    ensures k < |pages| ==> Spans(pages[..k + 1]) == Spans(pages[..k]) + |pages[k].spans|
    decreases |pages| - k
  {
    if k < |pages| {
      SpansPrefix(pages, k + 1);
      assert pages[..k + 1][..k] == pages[..k];
    } else {
      assert pages[..k] == pages;
    }
  }

  /** The page part of validate_reference_closure for one text artifact: it accepts exactly the
      artifacts whose pages are numbered, well formed and tile the text, within the edge limit. */
  method CheckPages(textId: string, size: nat, pages: seq<Page>, edges: nat, maximum: nat)
    returns (verdict: Verdict, edges': nat)
    requires edges <= maximum
    ensures verdict.Accepted? <==> edges + Spans(pages) <= maximum && PagesOk(textId, size, pages)
    ensures verdict.Accepted? ==> edges' == edges + Spans(pages)
  {
    var end := 0;
    edges' := edges;
    for p := 0 to |pages|
      invariant edges' == edges + Spans(pages[..p]) <= maximum && end == PageEnd(pages, p)
      invariant forall q :: 0 <= q < p ==> PageOk(textId, size, pages, q)
    {
      var page := pages[p];
      SpansPrefix(pages, p);
      SpansPrefix(pages, p + 1);
      hide PageOk, Spans, PageEnd, SpansOk, HasText, EndOf;
      if page.number != p + 1 || page.status.Other? || (page.status.Succeeded? && page.errors != 0)
         || (page.status.Failed? && page.errors == 0) || page.spans == []
      {
        BadPage(textId, size, pages, p);
        return Rejected("page_result"), edges';
      }
      var text;
      ghost var from := end;
      verdict, end, edges', text := CheckSpans(textId, size, page.spans, end, edges', maximum);
      BadPage(textId, size, pages, p);
      if !verdict.Accepted? { return; }
      if page.status.Succeeded? && !text { return Rejected("succeeded page evidence"), edges'; }
    }
    assert pages[..|pages|] == pages;
    verdict := if end == size then Accepted else Rejected("page span normalized coverage");
  }

  lemma {:induction false} BadPage(textId: string, size: nat, pages: seq<Page>, p: nat)
    requires p < |pages|
    ensures
      var page := pages[p];
      PageOk(textId, size, pages, p)
      <==> && page.number == p + 1 && !page.status.Other? && (page.status.Succeeded? ==> page.errors == 0)
           && (page.status.Failed? ==> page.errors > 0) && page.spans != []
           && SpansOk(textId, size, page.spans, PageEnd(pages, p))
           && (page.status.Succeeded? ==> HasText(page.spans))
    ensures PageEnd(pages, p + 1) == EndOf(pages[p].spans, PageEnd(pages, p))
  {
  }

  // ---------------------------------------------------------------- tiling

  lemma {:induction false} ChainGrows(textId: string, spans: seq<Span>, from: nat, i: nat, j: nat)
    requires Chain(textId, spans, from) && Forward(spans) && i <= j < |spans|
    ensures from <= spans[i].start <= spans[i].end && spans[i].start <= spans[j].start && spans[i].end <= spans[j].end
    ensures i < j ==> spans[i].end <= spans[j].start
  {
    if i < j {
      ChainGrows(textId, spans, from, i, j - 1);
    } else if i > 0 {
      ChainGrows(textId, spans, from, i - 1, i - 1);
    }
  }

  lemma {:induction false} PagesGrow(textId: string, size: nat, pages: seq<Page>, p: nat, q: nat)
    requires PagesOk(textId, size, pages) && WireValid(pages) && p <= q <= |pages|
    ensures PageEnd(pages, p) <= PageEnd(pages, q)
  {
    if p < q {
      PagesGrow(textId, size, pages, p, q - 1);
      var spans := pages[q - 1].spans;
      assert PageOk(textId, size, pages, q - 1);
      ChainGrows(textId, spans, PageEnd(pages, q - 1), 0, |spans| - 1);
    }
  }

  ghost predicate Holds(span: Span, byte: nat) { span.start <= byte < span.end }

  /** The page and the span of a byte. */
  lemma {:induction false} SpanOf(textId: string, spans: seq<Span>, from: nat, byte: nat) returns (i: nat)
    requires Chain(textId, spans, from) && from <= byte < EndOf(spans, from)
    ensures i < |spans| && Holds(spans[i], byte)
  {
    var n := |spans| - 1;
    if spans[n].start <= byte {
      i := n;
    } else {
      var front := spans[..n];
      assert Chain(textId, front, from);
      assert EndOf(front, from) == spans[n].start;
      i := SpanOf(textId, front, from, byte);
    }
  }

  lemma {:induction false} PageOf(textId: string, size: nat, pages: seq<Page>, byte: nat, k: nat) returns (p: nat)
    requires PagesOk(textId, size, pages) && k <= |pages| && byte < PageEnd(pages, k)
    ensures p < k && PageEnd(pages, p) <= byte < PageEnd(pages, p + 1)
  {
    if PageEnd(pages, k - 1) <= byte {
      p := k - 1;
    } else {
      p := PageOf(textId, size, pages, byte, k - 1);
    }
  }

  /** Every byte of the text lies in a span of a page... */
  lemma {:induction false} BytesAreCovered(textId: string, size: nat, pages: seq<Page>, byte: nat)
    returns (p: nat, i: nat)
    requires PagesOk(textId, size, pages) && byte < size
    ensures p < |pages| && i < |pages[p].spans| && Holds(pages[p].spans[i], byte)
  {
    p := PageOf(textId, size, pages, byte, |pages|);
    assert PageOk(textId, size, pages, p);
    i := SpanOf(textId, pages[p].spans, PageEnd(pages, p), byte);
  }

  /** ...and in no other. */
  lemma {:induction false} SpansAreDisjoint(
      textId: string, size: nat, pages: seq<Page>, byte: nat, p: nat, i: nat, q: nat, j: nat)
    requires PagesOk(textId, size, pages) && WireValid(pages)
    requires p < |pages| && i < |pages[p].spans| && Holds(pages[p].spans[i], byte)
    requires q < |pages| && j < |pages[q].spans| && Holds(pages[q].spans[j], byte)
    ensures p == q && i == j
  {
    hide PagesOk, WireValid, Chain, Forward, PageEnd;
    InPage(textId, size, pages, p, i);
    InPage(textId, size, pages, q, j);
    if p < q {
      PagesGrow(textId, size, pages, p + 1, q);
    } else if q < p {
      PagesGrow(textId, size, pages, q + 1, p);
    } else if i < j {
      ChainGrows(textId, pages[p].spans, PageEnd(pages, p), i, j);
    } else if j < i {
      ChainGrows(textId, pages[p].spans, PageEnd(pages, p), j, i);
    }
  }

  lemma {:induction false} InPage(textId: string, size: nat, pages: seq<Page>, p: nat, i: nat)
    requires PagesOk(textId, size, pages) && WireValid(pages) && p < |pages| && i < |pages[p].spans|
    ensures Chain(textId, pages[p].spans, PageEnd(pages, p)) && Forward(pages[p].spans)
    ensures PageEnd(pages, p) <= pages[p].spans[i].start <= pages[p].spans[i].end <= PageEnd(pages, p + 1)
  {
    hide PagesOk, WireValid, Chain, PageEnd;
    PageFacts(textId, size, pages, p);
    ChainGrows(textId, pages[p].spans, PageEnd(pages, p), i, |pages[p].spans| - 1);
  }

  // ---------------------------------------------------------------- the pages of a chunk

  predicate Touches(span: Span, textId: string, lo: nat, hi: nat) {
    span.textId == textId && span.start < hi && span.end > lo
  }

  /** The test of a full scan: some span of the page overlaps the chunk. */
  predicate Overlaps(page: Page, textId: string, lo: nat, hi: nat) {
    exists i :: 0 <= i < |page.spans| && Touches(page.spans[i], textId, lo, hi)
  }

  predicate EndsBefore(page: Page, lo: nat) {
    page.spans != [] && page.spans[|page.spans| - 1].end <= lo
  }

  predicate StartsAfter(page: Page, hi: nat) {
    page.spans != [] && page.spans[0].start >= hi
  }

  /** slice::partition_point on a partitioned list. */
  method PartitionPoint(pages: seq<Page>, lo: nat) returns (k: nat)
    requires forall p, q :: 0 <= p < q < |pages| && EndsBefore(pages[q], lo) ==> EndsBefore(pages[p], lo)
    ensures k <= |pages|
    ensures forall p :: 0 <= p < k ==> EndsBefore(pages[p], lo)
    ensures forall p :: k <= p < |pages| ==> !EndsBefore(pages[p], lo)
  {
    k := 0;
    var high := |pages|;
    while k < high
      invariant k <= high <= |pages|
      invariant forall p :: 0 <= p < k ==> EndsBefore(pages[p], lo)
      invariant forall p :: high <= p < |pages| ==> !EndsBefore(pages[p], lo)
    {
      var mid := (k + high) / 2;
      if EndsBefore(pages[mid], lo) { k := mid + 1; } else { high := mid; }
    }
  }

  lemma {:induction false} PageFacts(textId: string, size: nat, pages: seq<Page>, p: nat)
    requires PagesOk(textId, size, pages) && WireValid(pages) && p < |pages|
    ensures Chain(textId, pages[p].spans, PageEnd(pages, p)) && Forward(pages[p].spans) && pages[p].spans != []
    ensures PageEnd(pages, p + 1) == pages[p].spans[|pages[p].spans| - 1].end
  {
    assert PageOk(textId, size, pages, p);
  }

  /** In tiled pages both tests speak of page boundaries, and a page between them overlaps. */
  lemma {:induction false} PageTests(textId: string, size: nat, pages: seq<Page>, p: nat, lo: nat, hi: nat)
    requires PagesOk(textId, size, pages) && WireValid(pages) && p < |pages| && lo < hi
    ensures EndsBefore(pages[p], lo) <==> PageEnd(pages, p + 1) <= lo
    ensures StartsAfter(pages[p], hi) <==> PageEnd(pages, p) >= hi
    ensures Overlaps(pages[p], textId, lo, hi) <==> !EndsBefore(pages[p], lo) && !StartsAfter(pages[p], hi)
  {
    hide PagesOk, WireValid, Chain, Forward, PageEnd;
    var spans := pages[p].spans;
    PageFacts(textId, size, pages, p);
    if Overlaps(pages[p], textId, lo, hi) {
      var i :| 0 <= i < |spans| && Touches(spans[i], textId, lo, hi);
      ChainGrows(textId, spans, PageEnd(pages, p), 0, i);
      ChainGrows(textId, spans, PageEnd(pages, p), i, |spans| - 1);
    }
    FirstStart(textId, spans, PageEnd(pages, p));
    if !EndsBefore(pages[p], lo) && !StartsAfter(pages[p], hi) {
      var i := FirstEndingAfter(textId, spans, PageEnd(pages, p), lo, hi, |spans| - 1);
      assert Touches(spans[i], textId, lo, hi);
    }
  }

  lemma {:induction false} FirstStart(textId: string, spans: seq<Span>, from: nat)
    requires Chain(textId, spans, from) && spans != []
    ensures spans[0].start == from
  {
  }

  lemma {:induction false} FirstEndingAfter(textId: string, spans: seq<Span>, from: nat, lo: nat, hi: nat, k: nat)
    returns (i: nat)
    requires Chain(textId, spans, from) && k < |spans| && spans[k].end > lo && from < hi && lo < hi
    ensures i < |spans| && Touches(spans[i], textId, lo, hi)
  {
    if k == 0 || spans[k - 1].end <= lo {
      i := k;
    } else {
      i := FirstEndingAfter(textId, spans, from, lo, hi, k - 1);
    }
  }

  /** What provenance collects: the pages it keeps, in order. */
  method PageWindow(textId: string, size: nat, pages: seq<Page>, lo: nat, hi: nat) returns (first: nat, kept: seq<Page>)
    requires PagesOk(textId, size, pages) && WireValid(pages) && lo < hi <= size
    ensures first + |kept| <= |pages| && kept == pages[first..first + |kept|]
    ensures forall p :: 0 <= p < |pages| ==> (Overlaps(pages[p], textId, lo, hi) <==> first <= p < first + |kept|)
    ensures kept != [] && PageEnd(pages, first) <= lo && hi <= PageEnd(pages, first + |kept|)
  {
    hide PagesOk, WireValid, PageOk, EndsBefore, StartsAfter, Overlaps, PageEnd;
    forall p | 0 <= p < |pages|
      ensures EndsBefore(pages[p], lo) <==> PageEnd(pages, p + 1) <= lo
      ensures StartsAfter(pages[p], hi) <==> PageEnd(pages, p) >= hi
      ensures Overlaps(pages[p], textId, lo, hi) <==> !EndsBefore(pages[p], lo) && !StartsAfter(pages[p], hi)
    {
      PageTests(textId, size, pages, p, lo, hi);
    }
    forall p: nat, q: nat | p <= q <= |pages| ensures PageEnd(pages, p) <= PageEnd(pages, q) {
      PagesGrow(textId, size, pages, p, q);
    }
    forall p, q | 0 <= p < q < |pages| && EndsBefore(pages[q], lo) ensures EndsBefore(pages[p], lo) {
      assert PageEnd(pages, p + 1) <= PageEnd(pages, q + 1);
    }
    first := PartitionPoint(pages, lo);
    assert PageEnd(pages, first) <= lo by {
      if first == 0 { NoPageEnd(pages); } else { assert EndsBefore(pages[first - 1], lo); }
    }
    kept := [];
    var p := first;
    while p < |pages| && !StartsAfter(pages[p], hi)
      invariant first <= p <= |pages| && kept == pages[first..p]
      invariant forall q :: first <= q < p ==> Overlaps(pages[q], textId, lo, hi)
    {
      // every page reached here overlaps the chunk: the source's `continue` never runs
      assert Overlaps(pages[p], textId, lo, hi);
      kept := kept + [pages[p]];
      p := p + 1;
    }
    WindowCovers(textId, size, pages, lo, hi, first, p);
  }

  lemma {:induction false} NoPageEnd(pages: seq<Page>)
    ensures PageEnd(pages, 0) == 0
  {
  }

  lemma {:induction false} WindowCovers(
      textId: string, size: nat, pages: seq<Page>, lo: nat, hi: nat, first: nat, p: nat)
    requires PagesOk(textId, size, pages) && WireValid(pages) && lo < hi <= size && first <= p <= |pages|
    requires PageEnd(pages, first) <= lo
    requires first < |pages| ==> PageEnd(pages, first + 1) > lo
    requires p < |pages| ==> PageEnd(pages, p) >= hi
    ensures first < p && PageEnd(pages, first) <= lo && hi <= PageEnd(pages, p)
  {
    hide WireValid, PageOk;
    assert p < |pages| || p == |pages|;
  }
}
