/** The managed peer edges of the swarm: a wrap-around graph over the base agents
    present, and one edge from each present burst child to its present parent
    (examples/003-swarm-stress-pack/scenario.ts). */
module SwarmGraph {
  import opened Strings
  import opened Circulant

  datatype Edge = Edge(a: string, b: string)

  datatype Child = Child(identity: string, parent: string)

  datatype Roster = Roster(base: seq<string>, burst: seq<Child>)

  /** The two identities in string order. */
  function Link(a: string, b: string): Edge {
    if LexLe(a, b) then Edge(a, b) else Edge(b, a)
  }

  function Key(e: Edge): string {
    e.a + "::" + e.b
  }

  predicate NoColon(s: string) {
    ':' !in s
  }

  ghost predicate Distinct(s: seq<string>) {
    forall i, j :: 0 <= i < j < |s| ==> s[i] != s[j]
  }

  /** What the generators guarantee. */
  ghost predicate ValidRoster(r: Roster) {
    && Distinct(r.base)
    && (forall i, j :: 0 <= i < j < |r.burst| ==> r.burst[i].identity != r.burst[j].identity)
    && (forall x :: x in r.base ==> NoColon(x))
    && (forall c :: c in r.burst ==> NoColon(c.identity) && c.identity !in r.base && c.parent in r.base)
  }

  lemma LinkIsUnordered(a: string, b: string)
    ensures Link(a, b) == Link(b, a)
    ensures {Link(a, b).a, Link(a, b).b} == {a, b}
  {
    LexTotal(a, b);
    if LexLe(a, b) && LexLe(b, a) { LexAntisymmetric(a, b); }
  }

  lemma KeyIsInjective(e: Edge, f: Edge)
    requires NoColon(e.a) && NoColon(f.a) && Key(e) == Key(f)
    ensures e == f
  {
    var k := Key(e);
    assert k[|e.a|] == ':' && k[|f.a|] == ':';
    assert forall i :: 0 <= i < |e.a| ==> k[i] == e.a[i];
    assert forall i :: 0 <= i < |f.a| ==> k[i] == f.a[i];
    assert k[..|e.a|] == e.a && k[..|f.a|] == f.a && k[|e.a| + 2..] == e.b && k[|f.a| + 2..] == f.b;
  }

  // ----- A keyed map of edges is a set of edges -----

  ghost predicate Represents(edges: map<string, Edge>, s: set<Edge>) {
    && (forall e :: e in s ==> Key(e) in edges && edges[Key(e)] == e)
    && (forall k :: k in edges ==> edges[k] in s && Key(edges[k]) == k)
  }

  lemma AddRepresents(edges: map<string, Edge>, s: set<Edge>, e: Edge)
    requires Represents(edges, s) && NoColon(e.a) && forall f :: f in s ==> NoColon(f.a)
    ensures Represents(edges[Key(e) := e], s + {e})
  {
    forall f | f in s && Key(f) == Key(e) ensures f == e {
      KeyIsInjective(e, f);
    }
  }

  lemma {:induction false} RepresentsSize(edges: map<string, Edge>, s: set<Edge>)
    requires Represents(edges, s)
    ensures |edges| == |s|
    decreases |s|
  {
    if e :| e in s {
      var k := Key(e);
      assert edges.Keys == (edges - {k}).Keys + {k};
      RepresentsSize(edges - {k}, s - {e});
    } else {
      assert edges == map[];
    }
  }

  // ----- The edges as a set -----

  ghost predicate Indices(ps: set<Pair>, n: nat) {
    forall p :: p in ps ==> p.0 < p.1 < n
  }

  ghost function BaseEdges(base: seq<string>, ps: set<Pair>): set<Edge>
    requires Indices(ps, |base|)
  {
    set p | p in ps :: Link(base[p.0], base[p.1])
  }

  /** Edges of the first `k` burst children whose parent is present too. */
  ghost function BurstEdges(burst: seq<Child>, targets: set<string>, k: nat): set<Edge>
    requires k <= |burst|
  {
    if k == 0 then {}
    else if IsPresent(burst[k - 1], targets) then
      BurstEdges(burst, targets, k - 1) + {Link(burst[k - 1].identity, burst[k - 1].parent)}
    else BurstEdges(burst, targets, k - 1)
  }

  predicate IsPresent(c: Child, targets: set<string>) {
    c.identity in targets && c.parent in targets
  }

  function PresentChildren(burst: seq<Child>, targets: set<string>, k: nat): nat
    requires k <= |burst|
  {
    if k == 0 then 0
    else PresentChildren(burst, targets, k - 1) + if IsPresent(burst[k - 1], targets) then 1 else 0
  }

  function Filter(base: seq<string>, targets: set<string>): (present: seq<string>)
    ensures forall x :: x in present <==> x in base && x in targets
  {
    if base == [] then []
    else if base[|base| - 1] in targets then Filter(base[..|base| - 1], targets) + [base[|base| - 1]]
    else Filter(base[..|base| - 1], targets)
  }

  lemma {:induction false} FilterIsDistinct(base: seq<string>, targets: set<string>)
    requires Distinct(base)
    ensures Distinct(Filter(base, targets))
  {
    if base != [] {
      FilterIsDistinct(base[..|base| - 1], targets);
      assert base[|base| - 1] !in base[..|base| - 1];
    }
  }

  lemma RowsAreIndices(n: nat, h: nat)
    ensures Indices(Rows(n, h, n), n)
  {
    forall p | p in Rows(n, h, n) ensures p.0 < p.1 < n { RowsAreProper(n, h, n, p); }
  }

  /** Every managed edge for the targets. */
  ghost function EdgeSet(r: Roster, targets: set<string>, h: nat): set<Edge> {
    var base := Filter(r.base, targets);
    RowsAreIndices(|base|, h);
    BaseEdges(base, Rows(|base|, h, |base|)) + BurstEdges(r.burst, targets, |r.burst|)
  }

  // ----- Counting -----

  lemma LinksDiffer(base: seq<string>, p: Pair, q: Pair)
    requires Distinct(base) && p.0 < p.1 < |base| && q.0 < q.1 < |base|
    requires Link(base[p.0], base[p.1]) == Link(base[q.0], base[q.1])
    ensures p == q
  {
    LinkIsUnordered(base[p.0], base[p.1]);
    LinkIsUnordered(base[q.0], base[q.1]);
    assert base[p.0] in {base[q.0], base[q.1]} && base[p.1] in {base[q.0], base[q.1]};
  }

  lemma {:induction false} BaseEdgesSize(base: seq<string>, ps: set<Pair>)
    requires Distinct(base) && Indices(ps, |base|)
    ensures |BaseEdges(base, ps)| == |ps|
    decreases |ps|
  {
    if p :| p in ps {
      var rest := ps - {p};
      BaseEdgesSize(base, rest);
      var e := Link(base[p.0], base[p.1]);
      assert BaseEdges(base, ps) == BaseEdges(base, rest) + {e};
      if e in BaseEdges(base, rest) {
        var q :| q in rest && e == Link(base[q.0], base[q.1]);
        LinksDiffer(base, p, q);
      }
    }
  }

  /** An edge of the first `k` children ends at one of them. */
  lemma {:induction false} BurstEdgeHasChild(burst: seq<Child>, targets: set<string>, k: nat, e: Edge) returns (j: nat)
    requires k <= |burst| && e in BurstEdges(burst, targets, k)
    ensures j < k && e == Link(burst[j].identity, burst[j].parent)
    ensures burst[j].identity in {e.a, e.b} && IsPresent(burst[j], targets)
  {
    if IsPresent(burst[k - 1], targets) && e == Link(burst[k - 1].identity, burst[k - 1].parent) {
      j := k - 1;
      LinkIsUnordered(burst[j].identity, burst[j].parent);
    } else {
      j := BurstEdgeHasChild(burst, targets, k - 1, e);
    }
  }

  lemma {:induction false} BurstEdgesSize(r: Roster, targets: set<string>, k: nat)
    requires ValidRoster(r) && k <= |r.burst|
    ensures |BurstEdges(r.burst, targets, k)| == PresentChildren(r.burst, targets, k)
  {
    if k > 0 {
      BurstEdgesSize(r, targets, k - 1);
      var c := r.burst[k - 1];
      var e := Link(c.identity, c.parent);
      if e in BurstEdges(r.burst, targets, k - 1) {
        var j := BurstEdgeHasChild(r.burst, targets, k - 1, e);
        LinkIsUnordered(c.identity, c.parent);
      }
    }
  }

  lemma BurstIsNotBase(r: Roster, targets: set<string>, ps: set<Pair>, e: Edge)
    requires ValidRoster(r) && Indices(ps, |Filter(r.base, targets)|)
    requires e in BaseEdges(Filter(r.base, targets), ps)
    ensures e !in BurstEdges(r.burst, targets, |r.burst|)
  {
    var base := Filter(r.base, targets);
    var p :| p in ps && e == Link(base[p.0], base[p.1]);
    LinkIsUnordered(base[p.0], base[p.1]);
    assert base[p.0] in base && base[p.1] in base;
    if e in BurstEdges(r.burst, targets, |r.burst|) {
      var j := BurstEdgeHasChild(r.burst, targets, |r.burst|, e);
    }
  }

  /** Exactly n·h edges between n base agents when n > 2h, all n(n-1)/2 otherwise,
      plus one for each present child whose parent is present. */
  lemma EdgeSetSize(r: Roster, targets: set<string>, h: nat)
    requires ValidRoster(r)
    ensures |EdgeSet(r, targets, h)| ==
            EdgeCount(|Filter(r.base, targets)|, h) + PresentChildren(r.burst, targets, |r.burst|)
  {
    var base := Filter(r.base, targets);
    var n := |base|;
    RowsAreIndices(n, h);
    FilterIsDistinct(r.base, targets);
    var inner, outer := BaseEdges(base, Rows(n, h, n)), BurstEdges(r.burst, targets, |r.burst|);
    forall e | e in inner ensures e !in outer { BurstIsNotBase(r, targets, Rows(n, h, n), e); }
    assert inner !! outer;
    BaseEdgesSize(base, Rows(n, h, n));
    EdgesCounted(n, h);
    BurstEdgesSize(r, targets, |r.burst|);
  }

  // ----- The loops -----

  /** Adds one edge under its key; unknown identities and self loops are dropped. */
  method AddEdge(edges: map<string, Edge>, targets: set<string>, a: string, b: string, ghost s: set<Edge>)
    returns (more: map<string, Edge>)
    requires NoColon(a) && NoColon(b) && Represents(edges, s) && forall f :: f in s ==> NoColon(f.a)
    ensures Represents(more, if a in targets && b in targets && a != b then s + {Link(a, b)} else s)
  {
    if a !in targets || b !in targets || a == b {
      return edges;
    }
    var e := Link(a, b);
    AddRepresents(edges, s, e);
    more := edges[Key(e) := e];
  }

  lemma EdgesHaveNoColon(r: Roster, targets: set<string>, ps: set<Pair>, k: nat, e: Edge)
    requires ValidRoster(r) && Indices(ps, |Filter(r.base, targets)|) && k <= |r.burst|
    requires e in BaseEdges(Filter(r.base, targets), ps) + BurstEdges(r.burst, targets, k)
    ensures NoColon(e.a)
  {
    var base := Filter(r.base, targets);
    if e in BaseEdges(base, ps) {
      var p :| p in ps && e == Link(base[p.0], base[p.1]);
      assert base[p.0] in base && base[p.1] in base;
    } else {
      var j := BurstEdgeHasChild(r.burst, targets, k, e);
      assert r.burst[j] in r.burst;
    }
  }

  lemma PartialIndices(n: nat, h: nat, i: nat, o: nat)
    requires i < n && o <= h
    ensures Indices(Rows(n, h, i) + Row(n, i, o), n)
  {
    forall p | p in Rows(n, h, i) ensures p.0 < p.1 < n { RowsAreProper(n, h, i, p); }
    forall p | p in Row(n, i, o) ensures p.0 < p.1 < n { InRow(n, i, o, p); }
  }

  /** One inner-loop step, as a set of edges. */
  lemma StepAddsEdge(base: seq<string>, targets: set<string>, h: nat, i: nat, o: nat)
    requires Distinct(base) && (forall x :: x in base ==> x in targets) && i < |base| && 1 <= o <= h
    requires Indices(Rows(|base|, h, i) + Row(|base|, i, o - 1), |base|)
             && Indices(Rows(|base|, h, i) + Row(|base|, i, o), |base|)
    ensures var n := |base|;
            var j := Ahead(n, i, o);
            var before := BaseEdges(base, Rows(n, h, i) + Row(n, i, o - 1));
            var after := BaseEdges(base, Rows(n, h, i) + Row(n, i, o));
            && base[i] in targets && base[j] in targets
            && after == if base[i] != base[j] then before + {Link(base[i], base[j])} else before
  {
    var n := |base|;
    var j := Ahead(n, i, o);
    assert base[i] in base && base[j] in base;
    var ps, p := Rows(n, h, i) + Row(n, i, o - 1), Unordered(i, j);
    assert Rows(n, h, i) + Row(n, i, o) == ps + StepEdge(n, i, o);
    LinkIsUnordered(base[i], base[j]);
    assert base[i] == base[j] ==> i == j;
  }

  method ComputeEdges(r: Roster, targets: set<string>, h: nat) returns (edges: map<string, Edge>)
    requires ValidRoster(r)
    ensures Represents(edges, EdgeSet(r, targets, h))
    ensures |edges| == EdgeCount(|Filter(r.base, targets)|, h) + PresentChildren(r.burst, targets, |r.burst|)
  {
    var base := Filter(r.base, targets);
    var n := |base|;
    FilterIsDistinct(r.base, targets);
    edges := map[];
    assert BaseEdges(base, Rows(n, h, 0)) == {};
    for i := 0 to n
      invariant Indices(Rows(n, h, i), n) && Represents(edges, BaseEdges(base, Rows(n, h, i)))
    {
      edges := AddRow(r, targets, base, h, i, edges);
      PartialIndices(n, h, i, h);
    }
    edges := AddChildren(r, targets, base, Rows(n, h, n), edges);
    EdgeSetSize(r, targets, h);
    RepresentsSize(edges, EdgeSet(r, targets, h));
  }

  /** The second loop: one edge from each present child to its present parent. */
  method AddChildren(r: Roster, targets: set<string>, ghost base: seq<string>, ghost ps: set<Pair>,
                     before: map<string, Edge>)
    returns (edges: map<string, Edge>)
    requires ValidRoster(r) && base == Filter(r.base, targets) && Distinct(base) && Indices(ps, |base|)
    requires Represents(before, BaseEdges(base, ps))
    ensures Represents(edges, BaseEdges(base, ps) + BurstEdges(r.burst, targets, |r.burst|))
  {
    edges := before;
    ghost var links := BaseEdges(base, ps);
    for k := 0 to |r.burst|
      invariant Represents(edges, links + BurstEdges(r.burst, targets, k))
    {
      var c := r.burst[k];
      assert c in r.burst && c.parent in r.base;
      ghost var s := links + BurstEdges(r.burst, targets, k);
      forall f | f in s ensures NoColon(f.a) { EdgesHaveNoColon(r, targets, ps, k, f); }
      edges := AddEdge(edges, targets, c.identity, c.parent, s);
      NextChild(r.burst, targets, k, links);
    }
  }

  lemma NextChild(burst: seq<Child>, targets: set<string>, k: nat, links: set<Edge>)
    requires k < |burst|
    ensures var s := links + BurstEdges(burst, targets, k);
            links + BurstEdges(burst, targets, k + 1)
            == if IsPresent(burst[k], targets) then s + {Link(burst[k].identity, burst[k].parent)} else s
  {}

  /** The inner loop: the next `h` agents after the i-th. */
  method AddRow(ghost r: Roster, targets: set<string>, base: seq<string>, h: nat, i: nat, before: map<string, Edge>)
    returns (edges: map<string, Edge>)
    requires ValidRoster(r) && base == Filter(r.base, targets) && Distinct(base) && i < |base|
    requires Indices(Rows(|base|, h, i), |base|) && Represents(before, BaseEdges(base, Rows(|base|, h, i)))
    ensures Indices(Rows(|base|, h, i + 1), |base|) && Represents(edges, BaseEdges(base, Rows(|base|, h, i + 1)))
  {
    ghost var n := |base|;
    edges := before;
    assert Rows(n, h, i) + Row(n, i, 0) == Rows(n, h, i);
    PartialIndices(n, h, i, h);
    for offset := 0 to h
      invariant Indices(Rows(n, h, i) + Row(n, i, offset), n)
      invariant Represents(edges, BaseEdges(base, Rows(n, h, i) + Row(n, i, offset)))
    {
      ghost var ps := Rows(n, h, i) + Row(n, i, offset);
      PartialIndices(n, h, i, offset + 1);
      StepAddsEdge(base, targets, h, i, offset + 1);
      forall f | f in BaseEdges(base, ps) ensures NoColon(f.a) { EdgesHaveNoColon(r, targets, ps, 0, f); }
      var j := Ahead(|base|, i, offset + 1);
      assert base[i] in base && base[j] in base;
      edges := AddEdge(edges, targets, base[i], base[j], BaseEdges(base, ps));
    }
  }

  // ----- Peers -----

  ghost function Peers(identity: string, s: set<Edge>): set<string> {
    set e, x | e in s && x in OtherEnd(identity, e) :: x
  }

  function OtherEnd(identity: string, e: Edge): set<string> {
    (if e.a == identity then {e.b} else {}) + (if e.b == identity then {e.a} else {})
  }

  ghost function EdgesOf(edges: seq<Edge>): set<Edge> {
    set e | e in edges
  }

  lemma PeersSnoc(identity: string, edges: seq<Edge>, e: Edge)
    ensures Peers(identity, EdgesOf(edges + [e])) == Peers(identity, EdgesOf(edges)) + OtherEnd(identity, e)
  {
    assert EdgesOf(edges + [e]) == EdgesOf(edges) + {e};
  }

  method PeersFor(identity: string, edges: seq<Edge>) returns (peers: set<string>)
    ensures peers == Peers(identity, EdgesOf(edges))
  {
    peers := {};
    for i := 0 to |edges|
      invariant peers == Peers(identity, EdgesOf(edges[..i]))
    {
      PeersSnoc(identity, edges[..i], edges[i]);
      assert edges[..i + 1] == edges[..i] + [edges[i]];
      if edges[i].a == identity { peers := peers + {edges[i].b}; }
      if edges[i].b == identity { peers := peers + {edges[i].a}; }
    }
    assert edges[..|edges|] == edges;
  }

  lemma PeerIsLinked(identity: string, s: set<Edge>, x: string)
    requires x != identity && forall e :: e in s ==> Link(e.a, e.b) == e
    ensures x in Peers(identity, s) <==> Link(identity, x) in s
  {
    LinkIsUnordered(identity, x);
    if x in Peers(identity, s) {
      var e :| e in s && x in OtherEnd(identity, e);
    }
    if Link(identity, x) in s {
      assert x in OtherEnd(identity, Link(identity, x));
    }
  }

  lemma LinksAreLinked(r: Roster, targets: set<string>, h: nat, e: Edge)
    requires e in EdgeSet(r, targets, h)
    ensures Link(e.a, e.b) == e
  {
    var base := Filter(r.base, targets);
    RowsAreIndices(|base|, h);
    if e in BaseEdges(base, Rows(|base|, h, |base|)) {
      var p :| p in Rows(|base|, h, |base|) && e == Link(base[p.0], base[p.1]);
      LinkIsUnordered(base[p.0], base[p.1]);
    } else {
      var j := BurstEdgeHasChild(r.burst, targets, |r.burst|, e);
      LinkIsUnordered(r.burst[j].identity, r.burst[j].parent);
    }
  }

  /** Two base agents are peers exactly when their positions are joined. */
  lemma BasePeers(r: Roster, targets: set<string>, h: nat, i: nat, j: nat)
    requires ValidRoster(r) && i < |Filter(r.base, targets)| && j < |Filter(r.base, targets)| && i != j
    ensures var base := Filter(r.base, targets);
            base[j] in Peers(base[i], EdgeSet(r, targets, h)) <==> j in Neighbours(|base|, h, i)
  {
    var base := Filter(r.base, targets);
    var n, s := |base|, EdgeSet(r, targets, h);
    RowsAreIndices(n, h);
    FilterIsDistinct(r.base, targets);
    forall e | e in s ensures Link(e.a, e.b) == e { LinksAreLinked(r, targets, h, e); }
    PeerIsLinked(base[i], s, base[j]);
    LinkIsUnordered(base[i], base[j]);
    var e, p := Link(base[i], base[j]), Unordered(i, j);
    if e in s {
      if e in BurstEdges(r.burst, targets, |r.burst|) {
        var k := BurstEdgeHasChild(r.burst, targets, |r.burst|, e);
      } else {
        var q :| q in Rows(n, h, n) && e == Link(base[q.0], base[q.1]);
        LinksDiffer(base, p, q);
      }
    }
    if p in Rows(n, h, n) {
      assert e == Link(base[p.0], base[p.1]);
    }
  }

  lemma {:induction false} ImageSize(base: seq<string>, js: set<nat>)
    requires Distinct(base) && forall j :: j in js ==> j < |base|
    ensures |set j | j in js :: base[j]| == |js|
    decreases |js|
  {
    if j :| j in js {
      ImageSize(base, js - {j});
      assert (set k | k in js :: base[k]) == (set k | k in js - {j} :: base[k]) + {base[j]};
    }
  }

  lemma NoSelfLoop(r: Roster, targets: set<string>, h: nat, e: Edge)
    requires ValidRoster(r) && e in EdgeSet(r, targets, h)
    ensures e.a != e.b
  {
    var base := Filter(r.base, targets);
    RowsAreIndices(|base|, h);
    FilterIsDistinct(r.base, targets);
    if e in BaseEdges(base, Rows(|base|, h, |base|)) {
      var p :| p in Rows(|base|, h, |base|) && e == Link(base[p.0], base[p.1]);
      LinkIsUnordered(base[p.0], base[p.1]);
    } else {
      var j := BurstEdgeHasChild(r.burst, targets, |r.burst|, e);
      assert r.burst[j] in r.burst;
      LinkIsUnordered(r.burst[j].identity, r.burst[j].parent);
    }
  }

  /** Nobody is its own peer. */
  lemma NotOwnPeer(r: Roster, targets: set<string>, h: nat, x: string)
    requires ValidRoster(r)
    ensures x !in Peers(x, EdgeSet(r, targets, h))
  {
    forall e | e in EdgeSet(r, targets, h) ensures x !in OtherEnd(x, e) { NoSelfLoop(r, targets, h, e); }
  }

  ghost function BasePeersOf(base: seq<string>, x: string, s: set<Edge>): set<string> {
    set y | y in Peers(x, s) && y in base
  }

  /** Every base agent present has min(n - 1, 2h) base peers, itself not among them. */
  lemma BasePeerCount(r: Roster, targets: set<string>, h: nat, i: nat)
    requires ValidRoster(r) && i < |Filter(r.base, targets)|
    ensures var base := Filter(r.base, targets);
            |BasePeersOf(base, base[i], EdgeSet(r, targets, h))| == if 2 * h < |base| then 2 * h else |base| - 1
  {
    var base := Filter(r.base, targets);
    var js := Neighbours(|base|, h, i);
    var peers := Peers(base[i], EdgeSet(r, targets, h));
    FilterIsDistinct(r.base, targets);
    NotOwnPeer(r, targets, h, base[i]);
    forall j | 0 <= j < |base| && j != i ensures base[j] in peers <==> j in js { BasePeers(r, targets, h, i, j); }
    assert BasePeersOf(base, base[i], EdgeSet(r, targets, h)) == (set j | j in js :: base[j]);
    ImageSize(base, js);
    Degree(|base|, h, i);
  }

  /** A present burst child has exactly one peer, its parent. */
  lemma ChildPeer(r: Roster, targets: set<string>, h: nat, k: nat)
    requires ValidRoster(r) && k < |r.burst| && IsPresent(r.burst[k], targets)
    ensures Peers(r.burst[k].identity, EdgeSet(r, targets, h)) == {r.burst[k].parent}
  {
    var c, s := r.burst[k], EdgeSet(r, targets, h);
    var base := Filter(r.base, targets);
    RowsAreIndices(|base|, h);
    assert c in r.burst;
    LinkIsUnordered(c.identity, c.parent);
    ChildEdge(r.burst, targets, |r.burst|, k);
    assert c.parent in OtherEnd(c.identity, Link(c.identity, c.parent));
    forall e | e in s && OtherEnd(c.identity, e) != {} ensures OtherEnd(c.identity, e) == {c.parent} {
      assert e in BurstEdges(r.burst, targets, |r.burst|) by { OnlyBurstEdges(r, targets, h, c.identity, e); }
      var j := BurstEdgeHasChild(r.burst, targets, |r.burst|, e);
      LinkIsUnordered(r.burst[j].identity, r.burst[j].parent);
      assert r.burst[j] in r.burst;
    }
  }

  /** An edge that ends at an identity outside the base is a burst edge. */
  lemma OnlyBurstEdges(r: Roster, targets: set<string>, h: nat, x: string, e: Edge)
    requires e in EdgeSet(r, targets, h) && x in {e.a, e.b} && x !in r.base
    ensures e in BurstEdges(r.burst, targets, |r.burst|)
  {
    var base := Filter(r.base, targets);
    RowsAreIndices(|base|, h);
    forall p | p in Rows(|base|, h, |base|) ensures e != Link(base[p.0], base[p.1]) {
      assert base[p.0] in base && base[p.1] in base;
      LinkIsUnordered(base[p.0], base[p.1]);
    }
  }

  lemma {:induction false} ChildEdge(burst: seq<Child>, targets: set<string>, n: nat, k: nat)
    requires k < n <= |burst| && IsPresent(burst[k], targets)
    ensures Link(burst[k].identity, burst[k].parent) in BurstEdges(burst, targets, n)
  {
    if k < n - 1 { ChildEdge(burst, targets, n - 1, k); }
  }

  // ----- The generated swarm -----

  const BASE_PER_MOB: nat := 75
  const BASE_PEERS_PER_AGENT: nat := 150
  const MOBS: seq<string> := ["atlas", "borealis", "cygnus", "draco"]

  function Digit(d: nat): char
    requires d < 10
  {
    ('0' as int + d) as char
  }

  /** Three digits, zero padded. */
  function Pad(v: nat): string
    requires v < 1000
  {
    [Digit(v / 100), Digit(v / 10 % 10), Digit(v % 10)]
  }

  function Identity(mob: nat, burst: bool, ordinal: nat): string
    requires mob < 4 && ordinal < 1000
  {
    MOBS[mob] + (if burst then "-burst-" else "-base-") + Pad(ordinal)
  }

  function BaseIdentity(k: nat): string
    requires k < 4 * BASE_PER_MOB
  {
    Identity(k / BASE_PER_MOB, false, k % BASE_PER_MOB + 1)
  }

  /** The k-th burst child: 60 per mob, 20 per parent, parents at ordinals 1, 26 and 51. */
  function BurstChild(k: nat): Child
    requires k < 240
  {
    Child(Identity(k / 60, true, k % 60 + 1), Identity(k / 60, false, k % 60 / 20 * 25 + 1))
  }

  function Swarm(): Roster {
    Roster(seq(300, k requires 0 <= k < 300 => BaseIdentity(k)), seq(240, k requires 0 <= k < 240 => BurstChild(k)))
  }

  lemma PadIsInjective(v: nat, u: nat)
    requires v < 1000 && u < 1000 && Pad(v) == Pad(u)
    ensures v == u
  {
    assert Digit(v / 100) == Pad(v)[0] == Pad(u)[0] == Digit(u / 100);
    assert Digit(v / 10 % 10) == Pad(v)[1] == Pad(u)[1] == Digit(u / 10 % 10);
    assert Digit(v % 10) == Pad(v)[2] == Pad(u)[2] == Digit(u % 10);
    ThreeDigits(v);
    ThreeDigits(u);
  }

  lemma ThreeDigits(v: nat)
    ensures v == v / 100 * 100 + v / 10 % 10 * 10 + v % 10
  {
    var tens := v / 10;
    assert v == 10 * tens + v % 10 && tens == 10 * (tens / 10) + tens % 10;
    assert v - 100 * (tens / 10) < 100 && v / 100 == tens / 10;
  }

  /** First letter, letter before the last dash, and last three digits. */
  lemma IdentityParts(mob: nat, burst: bool, ordinal: nat)
    requires mob < 4 && ordinal < 1000
    ensures var s := Identity(mob, burst, ordinal);
            && |s| > 5 && s[0] == "abcd"[mob] && s[|s| - 5] == (if burst then 't' else 'e')
               && s[|s| - 3..] == Pad(ordinal)
            && NoColon(s)
  {
    var stem := MOBS[mob] + (if burst then "-burst-" else "-base-");
    assert Identity(mob, burst, ordinal) == stem + Pad(ordinal);
    assert stem[|stem| - 2] == if burst then 't' else 'e';
    assert forall i :: 0 <= i < |stem| ==> stem[i] != ':';
    assert forall i :: 0 <= i < 3 ==> Pad(ordinal)[i] != ':';
  }

  lemma IdentityIsInjective(m: nat, x: bool, v: nat, n: nat, y: bool, u: nat)
    requires m < 4 && n < 4 && v < 1000 && u < 1000 && Identity(m, x, v) == Identity(n, y, u)
    ensures m == n && x == y && v == u
  {
    IdentityParts(m, x, v);
    IdentityParts(n, y, u);
    PadIsInjective(v, u);
  }

  /** The generators satisfy everything the counts rely on. */
  lemma SwarmIsValid()
    ensures ValidRoster(Swarm())
  {
    var r := Swarm();
    forall i, j | 0 <= i < j < 300 ensures r.base[i] != r.base[j] {
      if BaseIdentity(i) == BaseIdentity(j) {
        IdentityIsInjective(i / 75, false, i % 75 + 1, j / 75, false, j % 75 + 1);
      }
    }
    forall i, j | 0 <= i < j < 240 ensures r.burst[i].identity != r.burst[j].identity {
      if BurstChild(i).identity == BurstChild(j).identity {
        IdentityIsInjective(i / 60, true, i % 60 + 1, j / 60, true, j % 60 + 1);
      }
    }
    forall x | x in r.base ensures NoColon(x) {
      var i :| 0 <= i < 300 && r.base[i] == x;
      IdentityParts(i / 75, false, i % 75 + 1);
    }
    forall c | c in r.burst ensures NoColon(c.identity) && c.identity !in r.base && c.parent in r.base {
      var k :| 0 <= k < 240 && r.burst[k] == c;
      ChildIsValid(k);
    }
  }

  lemma ChildIsValid(k: nat)
    requires k < 240
    ensures var c := BurstChild(k); NoColon(c.identity) && c.identity !in Swarm().base && c.parent in Swarm().base
  {
    IdentityParts(k / 60, true, k % 60 + 1);
    forall i | 0 <= i < 300 ensures Swarm().base[i] != BurstChild(k).identity {
      IdentityParts(i / 75, false, i % 75 + 1);
    }
    ParentPosition(k);
  }

  /** A child's parent is a generated base agent of the same mob. */
  lemma ParentPosition(k: nat)
    requires k < 240
    ensures BurstChild(k).parent in Swarm().base
  {
    var m, q := k / 60, k % 60 / 20 * 25;
    var p := m * 75 + q;
    assert p / 75 == m && p % 75 == q;
    assert Swarm().base[p] == BaseIdentity(p);
  }

  lemma {:induction false} FilterAll(base: seq<string>, targets: set<string>)
    requires forall x :: x in base ==> x in targets
    ensures Filter(base, targets) == base
  {
    if base != [] {
      assert base[|base| - 1] in base && forall x :: x in base[..|base| - 1] ==> x in base;
      FilterAll(base[..|base| - 1], targets);
      assert base == base[..|base| - 1] + [base[|base| - 1]];
    }
  }

  lemma {:induction false} AllChildrenPresent(burst: seq<Child>, targets: set<string>, k: nat)
    requires k <= |burst| && forall c :: c in burst ==> IsPresent(c, targets)
    ensures PresentChildren(burst, targets, k) == k
  {
    if k > 0 {
      assert burst[k - 1] in burst;
      AllChildrenPresent(burst, targets, k - 1);
    }
  }

  ghost predicate AllPresent(r: Roster, targets: set<string>) {
    && (forall x :: x in r.base ==> x in targets)
    && (forall c :: c in r.burst ==> c.identity in targets)
  }

  /** With every agent present the counts depend on the roster's sizes alone. */
  lemma WholeRosterEdges(r: Roster, targets: set<string>, h: nat)
    requires ValidRoster(r) && AllPresent(r, targets)
    ensures |EdgeSet(r, targets, h)| == EdgeCount(|r.base|, h) + |r.burst|
  {
    FilterAll(r.base, targets);
    AllChildrenPresent(r.burst, targets, |r.burst|);
    EdgeSetSize(r, targets, h);
  }

  lemma WholeRosterPeers(r: Roster, targets: set<string>, h: nat, x: string)
    requires ValidRoster(r) && AllPresent(r, targets) && x in r.base
    ensures |BasePeersOf(r.base, x, EdgeSet(r, targets, h))| == if 2 * h < |r.base| then 2 * h else |r.base| - 1
  {
    FilterAll(r.base, targets);
    var i :| 0 <= i < |r.base| && r.base[i] == x;
    BasePeerCount(r, targets, h, i);
  }

  /** The generated roster, known by what the counts rely on. */
  lemma SwarmRoster() returns (r: Roster)
    ensures r == Swarm() && ValidRoster(r) && |r.base| == 300 && |r.burst| == 240
  {
    r := Swarm();
    SwarmIsValid();
  }

  /** The whole swarm: 300 base agents and 240 children, 22500 + 240 edges. */
  lemma WholeSwarm(targets: set<string>)
    requires AllPresent(Swarm(), targets)
    ensures |EdgeSet(Swarm(), targets, BASE_PEERS_PER_AGENT / 2)| == 22740
  {
    var r := SwarmRoster();
    WholeRosterEdges(r, targets, BASE_PEERS_PER_AGENT / 2);
  }

  /** In the whole swarm every base agent has 150 base peers. */
  lemma WholeSwarmPeers(targets: set<string>, x: string)
    requires AllPresent(Swarm(), targets) && x in Swarm().base
    ensures |BasePeersOf(Swarm().base, x, EdgeSet(Swarm(), targets, BASE_PEERS_PER_AGENT / 2))| == BASE_PEERS_PER_AGENT
  {
    var r := SwarmRoster();
    WholeRosterPeers(r, targets, BASE_PEERS_PER_AGENT / 2, x);
  }
}
