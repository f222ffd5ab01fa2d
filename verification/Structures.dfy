/** The structure nodes of a document batch: a forest of parent and child links.

    Accepted links are exact inverses of each other, the linear-time cycle check succeeds
    exactly when every chain of parents ends in a root, and so the walk to the ancestors that
    provenance makes never meets a node twice and never misses one. */
module Structures {
  import opened Wrappers
  import Pages

  datatype Kind = Document | Inner | Unknown

  /** A structure node with its links, its source spans and its page locators. */
  datatype Node = Node(
    id: string,
    kind: Kind,
    parent: Option<string>,
    children: seq<string>,
    spans: seq<Pages.Span>,
    locators: seq<Pages.Locator>)

  type Parents = map<string, Option<string>>

  // ---------------------------------------------------------------- chains of parents

  function Up(parents: Parents, x: string): Option<string> { if x in parents then parents[x] else None }

  function Climb(parents: Parents, x: string, k: nat): Option<string>
    decreases k
  {
    if k == 0 then Some(x)
    else match Up(parents, x) case None => None case Some(p) => Climb(parents, p, k - 1)
  }

  /** The chain from `x` ends in a root after at most `n` links. */
  predicate RootedIn(parents: Parents, x: string, n: nat)
    decreases n
  {
    match Up(parents, x) case None => true case Some(p) => n > 0 && RootedIn(parents, p, n - 1)
  }

  ghost predicate Rooted(parents: Parents, x: string) { exists n: nat :: RootedIn(parents, x, n) }

  ghost predicate Above(parents: Parents, x: string, y: string) {
    exists k: nat :: k > 0 && Climb(parents, x, k) == Some(y)
  }

  lemma {:induction false} RootedUp(parents: Parents, x: string)
    ensures Up(parents, x).None? ==> Rooted(parents, x)
    ensures Up(parents, x).Some? ==> (Rooted(parents, x) <==> Rooted(parents, Up(parents, x).value))
  {
    if Up(parents, x).None? {
      assert RootedIn(parents, x, 0);
    } else {
      var p := Up(parents, x).value;
      if n: nat :| RootedIn(parents, p, n) { assert RootedIn(parents, x, n + 1); }
      if n: nat :| RootedIn(parents, x, n) { assert RootedIn(parents, p, n - 1); }
    }
  }

  lemma {:induction false} ClimbOne(parents: Parents, x: string, k: nat)
    requires Climb(parents, x, k).Some?
    ensures Climb(parents, x, k + 1) == Up(parents, Climb(parents, x, k).value)
    decreases k
  {
    if k > 0 {
      ClimbOne(parents, Up(parents, x).value, k - 1);
    }
  }

  lemma {:induction false} AboveUp(parents: Parents, x: string, y: string)
    requires Up(parents, y).Some?
    ensures Above(parents, y, Up(parents, y).value)
    ensures Above(parents, x, y) ==> Above(parents, x, Up(parents, y).value)
  {
    assert Climb(parents, y, 1) == Up(parents, y) by {
      assert Climb(parents, Up(parents, y).value, 0) == Up(parents, y);
    }
    if k: nat :| k > 0 && Climb(parents, x, k) == Some(y) {
      ClimbOne(parents, x, k);
    }
  }

  lemma {:induction false} RootedAfter(parents: Parents, x: string, k: nat, n: nat)
    requires RootedIn(parents, x, n) && Climb(parents, x, k).Some?
    ensures k <= n && RootedIn(parents, Climb(parents, x, k).value, n - k)
    decreases k
  {
    if k > 0 {
      RootedAfter(parents, Up(parents, x).value, k - 1, n - 1);
    }
  }

  lemma {:induction false} CycleHasNoRoot(parents: Parents, x: string, k: nat, n: nat)
    requires k > 0 && Climb(parents, x, k) == Some(x)
    ensures !RootedIn(parents, x, n)
  {
    if RootedIn(parents, x, n) {
      RootedAfter(parents, x, k, n);
      CycleHasNoRoot(parents, x, k, n - k);
    }
  }

  // ---------------------------------------------------------------- the cycle check

  /** Following parents from what is settled ends in a root. */
  ghost predicate Settled(parents: Parents, resolved: set<string>) {
    forall x :: x in resolved ==> Rooted(parents, x)
  }

  ghost predicate Leads(parents: Parents, visiting: set<string>, current: Option<string>) {
    forall x :: x in visiting ==>
      && (current.None? || Rooted(parents, current.value) ==> Rooted(parents, x))
      && (current.Some? ==> Above(parents, x, current.value))
  }

  lemma {:induction false} LeadsUp(parents: Parents, visiting: set<string>, id: string)
    requires Leads(parents, visiting, Some(id))
    ensures Leads(parents, visiting + {id}, Up(parents, id))
  {
    RootedUp(parents, id);
    hide Rooted, Above;
    if Up(parents, id).Some? {
      forall x | x in visiting + {id} ensures Above(parents, x, Up(parents, id).value) {
        AboveUp(parents, x, id);
      }
    }
  }

  lemma {:induction false} LessLeft(all: set<string>, visiting: set<string>, id: string)
    requires id in all && id !in visiting
    ensures |all - (visiting + {id})| < |all - visiting|
  {
    assert all - visiting == (all - (visiting + {id})) + {id};
  }

  /** One walk up from `start`, until a root, a settled node or a node of the same walk. */
  method WalkUp(parents: Parents, start: string, resolved: set<string>)
    returns (path: set<string>, cycle: Option<string>)
    requires start in parents && Settled(parents, resolved)
    requires forall x :: x in parents && parents[x].Some? ==> parents[x].value in parents
    ensures cycle.None? ==> Settled(parents, resolved + path) && start in resolved + path && path <= parents.Keys
    ensures cycle.Some? ==> cycle.value in parents && !Rooted(parents, cycle.value)
  {
    hide Rooted, Above, Settled, Leads;
    path := {};
    var current := Some(start);
    assert Leads(parents, {}, current) by { NoneLead(parents, start); }
    while current.Some? && current.value !in resolved
      invariant path <= parents.Keys && (current.Some? ==> current.value in parents)
      invariant Leads(parents, path, current)
      invariant start in path || current == Some(start)
      decreases |parents.Keys - path|
    {
      var id := current.value;
      if id in path {
        LeadsToItself(parents, path, id);
        return path, Some(id);
      }
      LeadsUp(parents, path, id);
      LessLeft(parents.Keys, path, id);
      path := path + {id};
      current := Up(parents, id);
    }
    LeadsToRoot(parents, path, current, resolved);
    cycle := None;
  }

  lemma {:induction false} NoneLead(parents: Parents, start: string)
    ensures Leads(parents, {}, Some(start))
  {
  }

  lemma {:induction false} LeadsToItself(parents: Parents, visiting: set<string>, id: string)
    requires Leads(parents, visiting, Some(id)) && id in visiting
    ensures !Rooted(parents, id)
  {
    var k: nat :| k > 0 && Climb(parents, id, k) == Some(id);
    forall n: nat ensures !RootedIn(parents, id, n) { CycleHasNoRoot(parents, id, k, n); }
  }

  lemma {:induction false} LeadsToRoot(
      parents: Parents, visiting: set<string>, current: Option<string>, resolved: set<string>)
    requires Leads(parents, visiting, current) && Settled(parents, resolved)
        && (current.None? || current.value in resolved)
    ensures Settled(parents, resolved + visiting)
  {
    hide Rooted, Above;
  }

  /** validate_structure_cycles succeeds exactly when every chain of parents ends in a root;
      every node is walked once, whatever the order. */
  method CheckCycles(parents: Parents) returns (cycle: Option<string>)
    requires forall x :: x in parents && parents[x].Some? ==> parents[x].value in parents
    ensures cycle.None? <==> forall x :: x in parents ==> Rooted(parents, x)
    ensures cycle.Some? ==> cycle.value in parents && !Rooted(parents, cycle.value)
  {
    hide Rooted, Above, Leads;
    var resolved: set<string> := {};
    var todo := parents.Keys;
    while todo != {}
      invariant todo <= parents.Keys && Settled(parents, resolved) && parents.Keys <= todo + resolved
      decreases |todo|
    {
      var start :| start in todo;
      if start !in resolved {
        var path;
        path, cycle := WalkUp(parents, start, resolved);
        if cycle.Some? { return; }
        resolved := resolved + path;
      }
      todo := todo - {start};
    }
    cycle := None;
  }

  // ---------------------------------------------------------------- links

  ghost predicate UniqueNodes(nodes: seq<Node>) {
    forall i, j :: 0 <= i < j < |nodes| ==> nodes[i].id != nodes[j].id
  }

  function ParentsOf(nodes: seq<Node>): Parents {
    if nodes == [] then map[]
    else ParentsOf(nodes[..|nodes| - 1])[nodes[|nodes| - 1].id := nodes[|nodes| - 1].parent]
  }

  lemma {:induction false} ParentsAre(nodes: seq<Node>)
    requires UniqueNodes(nodes)
    ensures forall i :: 0 <= i < |nodes| ==>
        nodes[i].id in ParentsOf(nodes) && ParentsOf(nodes)[nodes[i].id] == nodes[i].parent
    ensures forall x :: x in ParentsOf(nodes) ==> exists i :: 0 <= i < |nodes| && nodes[i].id == x
  {
    if nodes != [] {
      var front, last := nodes[..|nodes| - 1], nodes[|nodes| - 1];
      var m, n := ParentsOf(front), ParentsOf(nodes);
      assert n == m[last.id := last.parent];
      ParentsAre(front);
      hide ParentsOf;
      forall i | 0 <= i < |nodes| ensures nodes[i].id in n && n[nodes[i].id] == nodes[i].parent {
        if i < |front| { assert front[i] == nodes[i]; }
      }
      forall x | x in n ensures exists i :: 0 <= i < |nodes| && nodes[i].id == x {
        if x in m {
          var i :| 0 <= i < |front| && front[i].id == x;
          assert nodes[i].id == x;
        } else {
          assert nodes[|nodes| - 1].id == x;
        }
      }
    }
  }

  /** The flat list of child entries: (child, parent that lists it). */
  function Listings(nodes: seq<Node>): seq<(string, string)> {
    if nodes == [] then []
    else
      var last := nodes[|nodes| - 1];
      Listings(nodes[..|nodes| - 1]) + seq(|last.children|,
        k requires 0 <= k < |last.children| => (last.children[k], last.id))
  }

  /** No node is listed twice, whether by one parent or by two. */
  ghost predicate ListedOnce(nodes: seq<Node>) {
    Fresh(Listings(nodes))
  }

  predicate Lists(nodes: seq<Node>, parent: string, child: string) {
    exists a :: 0 <= a < |Listings(nodes)| && Listings(nodes)[a] == (child, parent)
  }

  /** What the closure check demands of a node's links. */
  ghost predicate LinksOk(nodes: seq<Node>, x: Node) {
    var parents := ParentsOf(nodes);
    && (x.parent.Some? ==> x.parent.value in parents && Lists(nodes, x.parent.value, x.id))
    && (forall k :: 0 <= k < |x.children| ==> x.children[k] in parents && parents[x.children[k]] == Some(x.id))
  }

  ghost predicate Forest(nodes: seq<Node>) {
    && UniqueNodes(nodes) && ListedOnce(nodes)
    && (forall i :: 0 <= i < |nodes| ==> LinksOk(nodes, nodes[i]))
    && (forall x :: x in ParentsOf(nodes) ==> Rooted(ParentsOf(nodes), x))
  }

  lemma {:induction false} ListingOf(nodes: seq<Node>, a: nat) returns (i: nat, k: nat)
    requires a < |Listings(nodes)|
    ensures i < |nodes| && k < |nodes[i].children| && Listings(nodes)[a] == (nodes[i].children[k], nodes[i].id)
  {
    var front := nodes[..|nodes| - 1];
    if a < |Listings(front)| {
      i, k := ListingOf(front, a);
    } else {
      i, k := |nodes| - 1, a - |Listings(front)|;
    }
  }

  lemma {:induction false} ListsOf(nodes: seq<Node>, i: nat, k: nat) returns (a: nat)
    requires i < |nodes| && k < |nodes[i].children|
    ensures a < |Listings(nodes)| && Listings(nodes)[a] == (nodes[i].children[k], nodes[i].id)
  {
    var front := nodes[..|nodes| - 1];
    if i < |front| {
      a := ListsOf(front, i, k);
    } else {
      a := |Listings(front)| + k;
    }
  }

  /** In an accepted forest parent links and child lists are exact inverses: a node names a
      parent exactly when that parent lists it. */
  lemma {:induction false} LinksAreInverse(nodes: seq<Node>, i: nat, p: nat)
    requires Forest(nodes) && i < |nodes| && p < |nodes|
    ensures nodes[i].parent == Some(nodes[p].id) <==> nodes[i].id in nodes[p].children
  {
    ParentsAre(nodes);
    assert LinksOk(nodes, nodes[i]) && LinksOk(nodes, nodes[p]);
    if nodes[i].parent == Some(nodes[p].id) {
      var a :| 0 <= a < |Listings(nodes)| && Listings(nodes)[a] == (nodes[i].id, nodes[p].id);
      var q, k := ListingOf(nodes, a);
      assert nodes[q].id == nodes[p].id;
      assert q == p;
    }
    if nodes[i].id in nodes[p].children {
      var k :| 0 <= k < |nodes[p].children| && nodes[p].children[k] == nodes[i].id;
    }
  }

  /** No parent lists a node twice. */
  lemma {:induction false} ChildrenAreDistinct(nodes: seq<Node>, p: nat, k: nat, m: nat)
    requires Forest(nodes) && p < |nodes| && k < m < |nodes[p].children|
    ensures nodes[p].children[k] != nodes[p].children[m]
  {
    var front := nodes[..p + 1];
    ListingsPrefix(nodes, p + 1);
    var base := |Listings(nodes[..p])|;
    assert front[..p] == nodes[..p];
    assert Listings(front)[base + k].0 == nodes[p].children[k];
    assert Listings(front)[base + m].0 == nodes[p].children[m];
    assert Listings(nodes)[base + k] == Listings(front)[base + k]
        && Listings(nodes)[base + m] == Listings(front)[base + m];
  }

  lemma {:induction false} ListingsPrefix(nodes: seq<Node>, k: nat)
    requires k <= |nodes|
    ensures Listings(nodes[..k]) <= Listings(nodes)
    decreases |nodes| - k
  {
    if k < |nodes| {
      ListingsPrefix(nodes, k + 1);
      assert nodes[..k + 1][..k] == nodes[..k];
    } else {
      assert nodes[..k] == nodes;
    }
  }

  // ---------------------------------------------------------------- validation

  datatype Verdict = Accepted | Rejected(reason: string)

  /** The two maps BatchIndexes keeps for structures. */
  datatype Index = Index(parents: Parents, listed: map<string, string>)

  /** What an entry list says about a map built from it. */
  ghost predicate Records(m: map<string, string>, entries: seq<(string, string)>) {
    && (forall a :: 0 <= a < |entries| ==> entries[a].0 in m && m[entries[a].0] == entries[a].1)
    && (forall c :: c in m ==> exists a :: 0 <= a < |entries| && entries[a] == (c, m[c]))
  }

  ghost predicate Fresh(entries: seq<(string, string)>) {
    forall a, b :: 0 <= a < b < |entries| ==> entries[a].0 != entries[b].0
  }

  lemma {:induction false} RecordOne(m: map<string, string>, entries: seq<(string, string)>, e: (string, string))
    requires Records(m, entries) && Fresh(entries)
    ensures e.0 in m ==> !Fresh(entries + [e])
    ensures e.0 !in m ==> Fresh(entries + [e]) && Records(m[e.0 := e.1], entries + [e])
  {
    var more := entries + [e];
    assert more[|entries|] == e;
    if e.0 in m {
      var a :| 0 <= a < |entries| && entries[a] == (e.0, m[e.0]);
      assert more[a].0 == more[|entries|].0;
    } else {
      var n := m[e.0 := e.1];
      forall c | c in n ensures exists a :: 0 <= a < |more| && more[a] == (c, n[c]) {
        if c == e.0 {
          assert more[|entries|] == (c, n[c]);
        } else {
          var a :| 0 <= a < |entries| && entries[a] == (c, m[c]);
          assert more[a] == (c, n[c]);
        }
      }
    }
  }

  lemma {:induction false} FreshPrefix(a: seq<(string, string)>, b: seq<(string, string)>)
    requires a <= b && Fresh(b)
    ensures Fresh(a)
  {
  }

  function ChildEntries(x: Node): (r: seq<(string, string)>)
    ensures |r| == |x.children|
  {
    seq(|x.children|, k requires 0 <= k < |x.children| => (x.children[k], x.id))
  }

  method ListChildren(x: Node, listed: map<string, string>, ghost before: seq<(string, string)>)
    returns (ok: bool, listed': map<string, string>)
    requires Records(listed, before) && Fresh(before)
    ensures ok <==> Fresh(before + ChildEntries(x))
    ensures ok ==> Records(listed', before + ChildEntries(x))
  {
    hide Records, Fresh;
    listed' := listed;
    ghost var entries := ChildEntries(x);
    assert before + entries[..0] == before;
    for k := 0 to |x.children|
      invariant Fresh(before + entries[..k]) && Records(listed', before + entries[..k])
    {
      ghost var done := before + entries[..k];
      RecordOne(listed', done, entries[k]);
      assert done + [entries[k]] == before + entries[..k + 1];
      assert before + entries[..k + 1] <= before + entries;
      if x.children[k] in listed' {
        if Fresh(before + entries) { FreshPrefix(before + entries[..k + 1], before + entries); }
        return false, listed';
      }
      listed' := listed'[x.children[k] := x.id];
    }
    assert before + entries[..|x.children|] == before + entries;
    ok := true;
  }

  lemma {:induction false} ListingsExtend(nodes: seq<Node>, k: nat)
    requires k < |nodes|
    ensures Listings(nodes[..k + 1]) == Listings(nodes[..k]) + ChildEntries(nodes[k])
    ensures ParentsOf(nodes[..k + 1]) == ParentsOf(nodes[..k])[nodes[k].id := nodes[k].parent]
    ensures Fresh(Listings(nodes)) ==> Fresh(Listings(nodes[..k + 1]))
  {
    assert nodes[..k + 1][..k] == nodes[..k];
    ListingsPrefix(nodes, k + 1);
    if Fresh(Listings(nodes)) { FreshPrefix(Listings(nodes[..k + 1]), Listings(nodes)); }
  }

  lemma {:induction false} NewNode(nodes: seq<Node>, k: nat)
    requires k < |nodes| && UniqueNodes(nodes[..k])
    ensures UniqueNodes(nodes) ==> UniqueNodes(nodes[..k + 1])
    ensures UniqueNodes(nodes[..k + 1]) <==> nodes[k].id !in ParentsOf(nodes[..k])
  {
    var done, more := nodes[..k], nodes[..k + 1];
    ParentsAre(done);
    assert more[k] == nodes[k];
    assert forall i :: 0 <= i < k ==> more[i] == done[i];
    hide ParentsOf;
    if nodes[k].id in ParentsOf(done) {
      var i :| 0 <= i < k && done[i].id == nodes[k].id;
      assert more[i].id == more[k].id;
    }
  }

  /** The structure part of BatchIndexes::build. */
  method IndexNodes(nodes: seq<Node>) returns (verdict: Verdict, index: Index)
    ensures verdict.Accepted? <==> UniqueNodes(nodes) && Fresh(Listings(nodes))
    ensures verdict.Accepted? ==> index.parents == ParentsOf(nodes) && Records(index.listed, Listings(nodes))
  {
    hide Records, Fresh, ParentsOf, UniqueNodes;
    index := Index(map[], map[]);
    NoNodes(nodes);
    for k := 0 to |nodes|
      invariant UniqueNodes(nodes[..k]) && Fresh(Listings(nodes[..k]))
      invariant index.parents == ParentsOf(nodes[..k]) && Records(index.listed, Listings(nodes[..k]))
    {
      NewNode(nodes, k);
      ListingsExtend(nodes, k);
      if nodes[k].id in index.parents { return Rejected("duplicate record ID"), index; }
      var ok, listed := ListChildren(nodes[k], index.listed, Listings(nodes[..k]));
      if !ok { return Rejected("structure child listed by multiple parents"), index; }
      index := Index(index.parents[nodes[k].id := nodes[k].parent], listed);
    }
    assert nodes[..|nodes|] == nodes;
    verdict := Accepted;
  }

  lemma {:induction false} NoNodes(nodes: seq<Node>)
    ensures UniqueNodes(nodes[..0]) && Fresh(Listings(nodes[..0])) && ParentsOf(nodes[..0]) == map[]
        && Records(map[], Listings(nodes[..0]))
  {
    assert nodes[..0] == [];
  }

  /** The link checks for one node, against the index. */
  method CheckLinks(x: Node, index: Index, ghost nodes: seq<Node>) returns (ok: bool)
    requires index.parents == ParentsOf(nodes) && Records(index.listed, Listings(nodes)) && Fresh(Listings(nodes))
    ensures ok <==> LinksOk(nodes, x)
  {
    hide ParentsOf;
    ghost var parents := ParentsOf(nodes);
    assert x.parent.Some? ==> (Lists(nodes, x.parent.value, x.id)
        <==> x.id in index.listed && index.listed[x.id] == x.parent.value) by {
      if x.parent.Some? { ListedMeansLists(index.listed, nodes, x.parent.value, x.id); }
    }
    hide Records, Fresh, Lists;
    if x.parent.Some? && !(x.parent.value in index.parents && x.id in index.listed
        && index.listed[x.id] == x.parent.value) {
      return false;
    }
    for k := 0 to |x.children|
      invariant forall j :: 0 <= j < k ==> x.children[j] in parents && parents[x.children[j]] == Some(x.id)
    {
      if x.children[k] !in index.parents || index.parents[x.children[k]] != Some(x.id) { return false; }
    }
    ok := true;
  }

  lemma {:induction false} ListedMeansLists(listed: map<string, string>, nodes: seq<Node>, p: string, c: string)
    requires Records(listed, Listings(nodes))
    ensures Lists(nodes, p, c) <==> c in listed && listed[c] == p
  {
    if Lists(nodes, p, c) {
      var a :| 0 <= a < |Listings(nodes)| && Listings(nodes)[a] == (c, p);
      assert Listings(nodes)[a].0 in listed;
    }
  }

  /** Indexing, link checks and cycle check together accept exactly the forests. */
  method ValidateStructures(nodes: seq<Node>) returns (verdict: Verdict)
    ensures verdict.Accepted? <==> Forest(nodes)
  {
    hide Records, ParentsOf, UniqueNodes, LinksOk, Rooted;
    var index;
    assert ListedOnce(nodes) <==> Fresh(Listings(nodes));
    verdict, index := IndexNodes(nodes);
    if !verdict.Accepted? { return; }
    for k := 0 to |nodes|
      invariant forall i :: 0 <= i < k ==> LinksOk(nodes, nodes[i])
    {
      var ok := CheckLinks(nodes[k], index, nodes);
      if !ok { return Rejected("structure links"); }
    }
    ParentsAreNodes(nodes);
    var cycle := CheckCycles(index.parents);
    verdict := if cycle.None? then Accepted else Rejected("structure cycle");
  }

  lemma {:induction false} ParentsAreNodes(nodes: seq<Node>)
    requires UniqueNodes(nodes) && forall i :: 0 <= i < |nodes| ==> LinksOk(nodes, nodes[i])
    ensures forall x :: x in ParentsOf(nodes) && ParentsOf(nodes)[x].Some? ==>
        ParentsOf(nodes)[x].value in ParentsOf(nodes)
  {
    ParentsAre(nodes);
    hide ParentsOf, Lists;
    forall x | x in ParentsOf(nodes) && ParentsOf(nodes)[x].Some?
      ensures ParentsOf(nodes)[x].value in ParentsOf(nodes)
    {
      var i :| 0 <= i < |nodes| && nodes[i].id == x;
      assert LinksOk(nodes, nodes[i]);
    }
  }

  // ---------------------------------------------------------------- the walk to the ancestors

  /** The chain from `x` to its root. */
  function Line(parents: Parents, x: string, n: nat): (r: seq<string>)
    requires RootedIn(parents, x, n)
    ensures 0 < |r| <= n + 1 && r[0] == x
    decreases n
  {
    match Up(parents, x) case None => [x] case Some(p) => [x] + Line(parents, p, n - 1)
  }

  lemma {:induction false} LineAt(parents: Parents, x: string, n: nat, k: nat)
    requires RootedIn(parents, x, n) && k < |Line(parents, x, n)|
    ensures Climb(parents, x, k) == Some(Line(parents, x, n)[k])
    ensures Up(parents, Line(parents, x, n)[k]) == if k + 1 < |Line(parents, x, n)|
        then Some(Line(parents, x, n)[k + 1]) else None
    decreases n
  {
    if k > 0 { LineAt(parents, Up(parents, x).value, n - 1, k - 1); }
  }

  lemma {:induction false} ClimbSum(parents: Parents, x: string, j: nat, k: nat)
    requires Climb(parents, x, j).Some?
    ensures Climb(parents, x, j + k) == Climb(parents, Climb(parents, x, j).value, k)
    decreases j
  {
    if j > 0 { ClimbSum(parents, Up(parents, x).value, j - 1, k); }
  }

  /** No node occurs twice on its own line. */
  lemma {:induction false} LineIsSimple(parents: Parents, x: string, n: nat, j: nat, k: nat)
    requires RootedIn(parents, x, n) && j < k < |Line(parents, x, n)|
    ensures Line(parents, x, n)[j] != Line(parents, x, n)[k]
  {
    var line := Line(parents, x, n);
    LineAt(parents, x, n, j);
    LineAt(parents, x, n, k);
    if line[j] == line[k] {
      ClimbSum(parents, x, j, k - j);
      RootedAfter(parents, x, j, n);
      CycleHasNoRoot(parents, line[j], k - j, n - j);
    }
  }

  type Nodes = map<string, Node>

  ghost predicate NodesOf(nodes: seq<Node>, byId: Nodes) {
    && byId.Keys == ParentsOf(nodes).Keys
    && forall i :: 0 <= i < |nodes| ==> nodes[i].id in byId && byId[nodes[i].id] == nodes[i]
  }

  /** Records collected by their identities. */
  function ById<T>(items: seq<T>, id: T -> string): map<string, T> {
    if items == [] then map[]
    else ById(items[..|items| - 1], id)[id(items[|items| - 1]) := items[|items| - 1]]
  }

  lemma {:induction false} ByIdHolds<T>(items: seq<T>, id: T -> string)
    ensures forall i :: 0 <= i < |items| ==> id(items[i]) in ById(items, id)
    ensures forall x :: x in ById(items, id) ==> ById(items, id)[x] in items && id(ById(items, id)[x]) == x
  {
    if items != [] {
      var front, last := items[..|items| - 1], items[|items| - 1];
      var m, n := ById(front, id), ById(items, id);
      assert n == m[id(last) := last];
      ByIdHolds(front, id);
      hide ById;
      forall i | 0 <= i < |items| ensures id(items[i]) in n {
        if i < |front| { assert front[i] == items[i]; }
      }
    }
  }

  function NodeId(x: Node): string { x.id }

  lemma {:induction false} NodesById(nodes: seq<Node>)
    requires UniqueNodes(nodes)
    ensures NodesOf(nodes, ById(nodes, NodeId))
  {
    if nodes != [] {
      var front, last := nodes[..|nodes| - 1], nodes[|nodes| - 1];
      var m, n := ById(front, NodeId), ById(nodes, NodeId);
      assert n == m[last.id := last] && ParentsOf(nodes) == ParentsOf(front)[last.id := last.parent];
      NodesById(front);
      hide ById, ParentsOf;
      forall i | 0 <= i < |nodes| ensures nodes[i].id in n && n[nodes[i].id] == nodes[i] {
        if i < |front| { assert front[i] == nodes[i]; }
      }
    }
  }

  datatype WalkError = Revisited | MissingStructure | ForeignStructure | UnknownKind

  datatype Walk = Found(parents: seq<string>) | Failed(error: WalkError)

  /** A node all of whose spans, and it has some, lie in the text. */
  predicate OfText(x: Node, textId: string) {
    x.spans != [] && forall i :: 0 <= i < |x.spans| ==> x.spans[i].textId == textId
  }

  /** An ancestor that belongs to the chunk's text and has a known kind. */
  predicate Suits(x: Node, textId: string) {
    OfText(x, textId) && !x.kind.Unknown?
  }

  ghost predicate LineSuits(byId: Nodes, line: seq<string>, textId: string) {
    forall k :: 0 < k < |line| ==> line[k] in byId && Suits(byId[line[k]], textId)
  }

  /** The ancestors that are not whole documents, nearest first. */
  function Shown(byId: Nodes, line: seq<string>): seq<string> {
    if |line| <= 1 then []
    else
      var last := line[|line| - 1];
      Shown(byId, line[..|line| - 1]) + (if last in byId && byId[last].kind.Document? then [] else [last])
  }

  function Reversed(s: seq<string>): seq<string> { if s == [] then [] else [s[|s| - 1]] + Reversed(s[..|s| - 1]) }

  /** The last comes first. */
  lemma {:induction false} ReversedAt(s: seq<string>, i: nat)
    requires i < |s|
    ensures |Reversed(s)| == |s| && Reversed(s)[i] == s[|s| - 1 - i]
  {
    ReversedLength(s[..|s| - 1]);
    if i > 0 { ReversedAt(s[..|s| - 1], i - 1); }
  }

  lemma {:induction false} ReversedLength(s: seq<string>)
    ensures |Reversed(s)| == |s|
  {
    if s != [] { ReversedLength(s[..|s| - 1]); }
  }

  /** Shown are exactly the ancestors that are not documents, each once and in the order of the line. */
  lemma {:induction false} ShownExactly(byId: Nodes, line: seq<string>, x: string)
    requires line != []
    ensures x in Shown(byId, line) <==> x in line[1..] && !(x in byId && byId[x].kind.Document?)
    ensures Simple(line) ==> Simple(Shown(byId, line))
    ensures forall k :: 1 <= k <= |line| ==> Shown(byId, line[..k]) <= Shown(byId, line)
  {
    if |line| > 1 {
      var n := |line| - 1;
      var front := line[..n];
      ShownExactly(byId, front, x);
      assert line[1..] == front[1..] + [line[n]];
      if Simple(line) {
        assert Simple(front);
        ShownWithin(byId, front, line[n]);
      }
      forall k | 1 <= k <= |line| ensures Shown(byId, line[..k]) <= Shown(byId, line) {
        if k <= n { assert line[..k] == front[..k]; } else { assert line[..k] == line; }
      }
    } else {
      assert line[1..] == [] && line[..1] == line;
    }
  }

  lemma {:induction false} ShownWithin(byId: Nodes, line: seq<string>, x: string)
    requires x !in line
    ensures x !in Shown(byId, line)
  {
    if |line| > 1 { ShownWithin(byId, line[..|line| - 1], x); }
  }

  /** A line through the index: each node's parent is the next one. */
  ghost predicate Follows(byId: Nodes, line: seq<string>) {
    && |line| > 0
    && (forall k :: 0 <= k < |line| ==> line[k] in byId && byId[line[k]].id == line[k])
    && (forall k :: 0 <= k < |line| ==> byId[line[k]].parent == Next(line, k))
  }

  function Next(line: seq<string>, k: nat): Option<string> { if k + 1 < |line| then Some(line[k + 1]) else None }

  ghost predicate Simple(line: seq<string>) {
    forall j, k :: 0 <= j < k < |line| ==> line[j] != line[k]
  }

  lemma {:induction false} IndexedNodes(nodes: seq<Node>, byId: Nodes)
    requires Forest(nodes) && NodesOf(nodes, byId)
    ensures forall y :: y in byId ==> byId[y].id == y && byId[y].parent == Up(ParentsOf(nodes), y)
    ensures forall y :: y in byId && byId[y].parent.Some? ==> byId[y].parent.value in byId
  {
    ParentsAre(nodes);
    ParentsAreNodes(nodes);
    hide ParentsOf, Forest;
    forall y | y in byId ensures byId[y].id == y && byId[y].parent == Up(ParentsOf(nodes), y) {
      var i :| 0 <= i < |nodes| && nodes[i].id == y;
    }
  }

  /** In an accepted batch every node has a line to its root, without repetition. */
  lemma {:induction false} ForestLine(nodes: seq<Node>, byId: Nodes, x: string) returns (line: seq<string>)
    requires Forest(nodes) && NodesOf(nodes, byId) && x in byId
    ensures Follows(byId, line) && Simple(line) && line[0] == x
  {
    var parents := ParentsOf(nodes);
    assert Rooted(parents, x);
    var n: nat :| RootedIn(parents, x, n);
    IndexedNodes(nodes, byId);
    line := Line(parents, x, n);
    hide Forest, NodesOf, ParentsOf, Line, RootedIn;
    forall j, k | 0 <= j < k < |line| ensures line[j] != line[k] { LineIsSimple(parents, x, n, j, k); }
    forall k | 0 <= k < |line| ensures line[k] in byId && Up(parents, line[k]) == Next(line, k) {
      LineAt(parents, x, n, k);
      LineInside(parents, byId, x, n, k);
    }
  }

  /** A node has only one line. */
  lemma {:induction false} LineIsUnique(byId: Nodes, a: seq<string>, b: seq<string>)
    requires Follows(byId, a) && Follows(byId, b) && a[0] == b[0]
    ensures a == b
  {
    LinesAgree(byId, b, a, |b| - 1);
    hide Follows;
    forall k | 0 <= k < |a| ensures k < |b| && a[k] == b[k] { LinesAgree(byId, a, b, k); }
  }

  lemma {:induction false} LinesAgree(byId: Nodes, a: seq<string>, b: seq<string>, k: nat)
    requires Follows(byId, a) && Follows(byId, b) && a[0] == b[0] && k < |a|
    ensures k < |b| && a[k] == b[k]
  {
    if k > 0 {
      LinesAgree(byId, a, b, k - 1);
      assert byId[a[k - 1]].parent == Next(a, k - 1) && byId[b[k - 1]].parent == Next(b, k - 1);
    }
  }

  lemma {:induction false} LineInside(parents: Parents, byId: Nodes, x: string, n: nat, k: nat)
    requires RootedIn(parents, x, n) && x in byId && k < |Line(parents, x, n)|
    requires forall y :: y in byId ==> byId[y].parent == Up(parents, y)
    requires forall y :: y in byId && byId[y].parent.Some? ==> byId[y].parent.value in byId
    ensures Line(parents, x, n)[k] in byId
    decreases n
  {
    if k > 0 { LineInside(parents, byId, Up(parents, x).value, n - 1, k - 1); }
  }

  /** For a node of an accepted batch, whose line to the root ForestLine gives, the walk never
      revisits a node and never misses one.  It fails only on an ancestor outside the chunk's
      text or of unknown kind, and otherwise returns the ancestors, documents left out, from
      the root down. */
  method Ancestors(byId: Nodes, direct: string, textId: string, ghost line: seq<string>) returns (r: Walk)
    requires Follows(byId, line) && Simple(line) && line[0] == direct
    ensures r.Failed? ==> r.error.ForeignStructure? || r.error.UnknownKind?
    ensures r.Found? <==> LineSuits(byId, line, textId)
    ensures r.Found? ==> r.parents == Reversed(Shown(byId, line))
  {
    hide Shown, Reversed, OfText;
    var expected: seq<string> := [];
    var current := byId[direct];
    var visited: set<string> := {};
    ghost var k := 0;
    assert Shown(byId, line[..1]) == [] by { ShownOne(byId, line); }
    while current.parent.Some?
      invariant k < |line| && current == byId[line[k]]
      invariant visited == Members(line[..k]) && expected == Shown(byId, line[..k + 1])
      invariant forall j :: 0 < j <= k ==> Suits(byId[line[j]], textId)
      decreases |line| - k
    {
      // neither exit of the source can be taken here
      assert current.id !in visited;
      assert current.parent.value in byId;
      MembersGrow(line, k);
      visited := visited + {current.id};
      var parentId := current.parent.value;
      var parent := byId[parentId];
      if !OfText(parent, textId) {
        return Failed(ForeignStructure);
      }
      if parent.kind.Unknown? { return Failed(UnknownKind); }
      ShownGrows(byId, line, k + 1);
      if !parent.kind.Document? { expected := expected + [parentId]; }
      current := parent;
      k := k + 1;
    }
    assert line[..k + 1] == line;
    var reverse := Reverse(expected);
    r := Found(reverse);
  }

  function Members(s: seq<string>): set<string> { set i | 0 <= i < |s| :: s[i] }

  lemma {:induction false} MembersGrow(s: seq<string>, k: nat)
    requires k < |s|
    ensures Members(s[..k + 1]) == Members(s[..k]) + {s[k]}
  {
    var a, b := s[..k + 1], s[..k];
    assert a[k] == s[k];
    forall i | 0 <= i < k ensures b[i] in Members(a) { assert a[i] == b[i]; }
  }

  lemma {:induction false} ShownOne(byId: Nodes, line: seq<string>)
    requires |line| > 0
    ensures Shown(byId, line[..1]) == []
  {
  }

  lemma {:induction false} ShownGrows(byId: Nodes, line: seq<string>, k: nat)
    requires 0 < k < |line| && line[k] in byId
    ensures Shown(byId, line[..k + 1]) == Shown(byId, line[..k])
        + (if byId[line[k]].kind.Document? then [] else [line[k]])
  {
    assert line[..k + 1][..k] == line[..k];
  }

  method Reverse(s: seq<string>) returns (r: seq<string>)
    ensures r == Reversed(s)
  {
    r := [];
    assert s[|s|..] == [];
    for k := 0 to |s|
      invariant Reversed(s) == Reversed(s[k..]) + r
    {
      ReversedCons(s[k..]);
      assert s[k..][1..] == s[k + 1..];
      r := [s[k]] + r;
    }
  }

  lemma {:induction false} ReversedCons(s: seq<string>)
    requires s != []
    ensures Reversed(s) == Reversed(s[1..]) + [s[0]]
  {
    if |s| > 1 {
      var front := s[..|s| - 1];
      ReversedCons(front);
      assert s[1..][..|s| - 2] == front[1..];
    } else {
      assert s[..0] == [] && s[1..] == [];
    }
  }
}
