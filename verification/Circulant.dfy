/** The wrap-around peer graph on n numbered nodes: node i is joined to the next
    h nodes, modulo n (examples/003-swarm-stress-pack/scenario.ts). */
module Circulant {

  type Pair = (nat, nat)

  /** The unordered pair i, j, smaller first. */
  function Unordered(i: nat, j: nat): Pair {
    if i <= j then (i, j) else (j, i)
  }

  /** The node `offset` steps after `i`. */
  function Ahead(n: nat, i: nat, offset: nat): (j: nat)
    requires n > 0
    ensures j < n
  {
    (i + offset) % n
  }

  lemma AheadWithin(n: nat, i: nat, offset: nat)
    requires i < n && offset <= n
    ensures Ahead(n, i, offset) == if i + offset < n then i + offset else i + offset - n
  {}

  /** The edge one inner-loop step adds; none when it would be a self loop. */
  function StepEdge(n: nat, i: nat, offset: nat): set<Pair>
    requires i < n
  {
    if Ahead(n, i, offset) == i then {} else {Unordered(i, Ahead(n, i, offset))}
  }

  /** Edges added for node `i` with offsets up to `offset`. */
  function Row(n: nat, i: nat, offset: nat): set<Pair>
    requires i < n
  {
    if offset == 0 then {} else Row(n, i, offset - 1) + StepEdge(n, i, offset)
  }

  /** Edges added for the first `i` nodes. */
  function Rows(n: nat, h: nat, i: nat): set<Pair>
    requires i <= n
  {
    if i == 0 then {} else Rows(n, h, i - 1) + Row(n, i - 1, h)
  }

  lemma {:induction false} InRow(n: nat, i: nat, h: nat, p: Pair)
    requires i < n
    ensures p in Row(n, i, h) <==> exists o :: 1 <= o <= h && p in StepEdge(n, i, o)
  {
    if h > 0 { InRow(n, i, h - 1, p); }
  }

  lemma {:induction false} RowInRows(n: nat, h: nat, k: nat, i: nat)
    requires i < k <= n
    ensures Row(n, i, h) <= Rows(n, h, k)
  {
    if i < k - 1 { RowInRows(n, h, k - 1, i); }
  }

  /** The node whose row added an edge. */
  lemma {:induction false} RowOf(n: nat, h: nat, k: nat, p: Pair) returns (i: nat)
    requires k <= n && p in Rows(n, h, k)
    ensures i < k && p in Row(n, i, h)
  {
    if p in Row(n, k - 1, h) { i := k - 1; } else { i := RowOf(n, h, k - 1, p); }
  }

  /** No self loops, only known nodes. */
  lemma RowsAreProper(n: nat, h: nat, k: nat, p: Pair)
    requires k <= n && p in Rows(n, h, k)
    ensures p.0 < p.1 < n
  {
    var i := RowOf(n, h, k, p);
    InRow(n, i, h, p);
  }

  // ----- Number of edges, sparse case -----

  /** With 2h < n no edge is added twice. */
  lemma StepsDiffer(n: nat, h: nat, i: nat, o: nat, j: nat, q: nat)
    requires 2 * h < n && i < n && j < n && 1 <= o <= h && 1 <= q <= h
    requires StepEdge(n, i, o) * StepEdge(n, j, q) != {}
    ensures i == j && o == q
  {
    AheadWithin(n, i, o);
    AheadWithin(n, j, q);
  }

  lemma {:induction false} RowSize(n: nat, h: nat, i: nat, o: nat)
    requires 2 * h < n && i < n && o <= h
    ensures |Row(n, i, o)| == o
  {
    if o > 0 {
      RowSize(n, h, i, o - 1);
      AheadWithin(n, i, o);
      var p := Unordered(i, Ahead(n, i, o));
      InRow(n, i, o - 1, p);
      if p in Row(n, i, o - 1) {
        var q :| 1 <= q <= o - 1 && p in StepEdge(n, i, q);
        assert p in StepEdge(n, i, o) * StepEdge(n, i, q);
        StepsDiffer(n, h, i, o, i, q);
      }
    }
  }

  lemma RowsDisjoint(n: nat, h: nat, k: nat)
    requires 2 * h < n && k < n
    ensures Rows(n, h, k) !! Row(n, k, h)
  {
    forall p | p in Rows(n, h, k) ensures p !in Row(n, k, h) {
      var i := RowOf(n, h, k, p);
      InRow(n, i, h, p);
      var o :| 1 <= o <= h && p in StepEdge(n, i, o);
      InRow(n, k, h, p);
      if p in Row(n, k, h) {
        var q :| 1 <= q <= h && p in StepEdge(n, k, q);
        assert p in StepEdge(n, i, o) * StepEdge(n, k, q);
        StepsDiffer(n, h, i, o, k, q);
      }
    }
  }

  lemma RowAdds(n: nat, h: nat, k: nat)
    requires 2 * h < n && k < n
    ensures |Rows(n, h, k + 1)| == |Rows(n, h, k)| + h
  {
    RowSize(n, h, k, h);
    RowsDisjoint(n, h, k);
    UnionSize(Rows(n, h, k), Row(n, k, h));
  }

  lemma {:induction false} SparseEdges(n: nat, h: nat, k: nat)
    requires 2 * h < n && k <= n
    ensures |Rows(n, h, k)| == k * h
  {
    if k > 0 {
      assert |Rows(n, h, k - 1)| == (k - 1) * h by { SparseEdges(n, h, k - 1); }
      assert |Rows(n, h, k)| == |Rows(n, h, k - 1)| + h by { RowAdds(n, h, k - 1); }
      NextMultiple(|Rows(n, h, k - 1)|, k - 1, h);
    }
  }

  lemma NextMultiple(size: nat, k: nat, h: nat)
    requires size == k * h
    ensures size + h == (k + 1) * h
  {}

  lemma UnionSize(a: set<Pair>, b: set<Pair>)
    requires a !! b
    ensures |a + b| == |a| + |b|
  {}

  // ----- Number of edges, dense case -----

  /** Pairs whose larger node is `m`. */
  function Column(m: nat, k: nat): (c: set<Pair>)
    ensures |c| == k && forall p :: p in c <==> p.0 < k && p.1 == m
  {
    if k == 0 then {} else Column(m, k - 1) + {(k - 1, m)}
  }

  function AllPairs(n: nat): (all: set<Pair>)
    ensures forall p :: p in all <==> p.0 < p.1 < n
  {
    if n == 0 then {} else AllPairs(n - 1) + Column(n - 1, n - 1)
  }

  lemma {:induction false} AllPairsSize(n: nat)
    ensures 2 * |AllPairs(n)| == n * n - n
  {
    if n > 0 {
      var m := n - 1;
      AllPairsSize(m);
      assert AllPairs(m) !! Column(m, m);
      assert |AllPairs(n)| == |AllPairs(m)| + m;
      NextSquare(m);
    }
  }

  lemma NextSquare(m: nat)
    ensures (m + 1) * (m + 1) == m * m + 2 * m + 1
  {}

  lemma PairIsAdded(n: nat, h: nat, x: nat, y: nat, i: nat, o: nat)
    requires x < y < n && i < n && 1 <= o <= h && Ahead(n, i, o) != i && Unordered(i, Ahead(n, i, o)) == (x, y)
    ensures (x, y) in Rows(n, h, n)
  {
    InRow(n, i, h, (x, y));
    assert (x, y) in StepEdge(n, i, o);
    RowInRows(n, h, n, i);
  }

  /** Two nodes are joined exactly when one is within h steps of the other. */
  lemma Joined(n: nat, h: nat, x: nat, y: nat)
    requires x < y < n
    ensures (x, y) in Rows(n, h, n) <==> y - x <= h || n - (y - x) <= h
  {
    var d := y - x;
    if d <= h {
      AheadWithin(n, x, d);
      PairIsAdded(n, h, x, y, x, d);
    } else if n - d <= h {
      AheadWithin(n, y, n - d);
      PairIsAdded(n, h, x, y, y, n - d);
    }
    if 2 * h < n && (x, y) in Rows(n, h, n) {
      var i := RowOf(n, h, n, (x, y));
      InRow(n, i, h, (x, y));
      var o :| 1 <= o <= h && (x, y) in StepEdge(n, i, o);
      AheadWithin(n, i, o);
    }
  }

  lemma DenseEdges(n: nat, h: nat)
    requires n <= 2 * h
    ensures Rows(n, h, n) == AllPairs(n)
  {
    forall p: Pair ensures p in Rows(n, h, n) <==> p in AllPairs(n) {
      if p in Rows(n, h, n) { RowsAreProper(n, h, n, p); }
      if p in AllPairs(n) { Joined(n, h, p.0, p.1); }
    }
  }

  /** n·h edges when every node has 2h distinct others, all pairs otherwise. */
  function EdgeCount(n: nat, h: nat): int {
    if 2 * h < n then n * h else (n * n - n) / 2
  }

  /** The deduplicated wrap-around construction has exactly this many edges, none a loop. */
  lemma EdgesCounted(n: nat, h: nat)
    ensures |Rows(n, h, n)| == EdgeCount(n, h)
    ensures forall p :: p in Rows(n, h, n) ==> p.0 < p.1 < n
  {
    forall p | p in Rows(n, h, n) ensures p.0 < p.1 < n { RowsAreProper(n, h, n, p); }
    if 2 * h < n {
      SparseEdges(n, h, n);
    } else {
      DenseEdges(n, h);
      AllPairsSize(n);
    }
  }

  // ----- Degrees -----

  /** The other nodes joined to `i`. */
  ghost function Neighbours(n: nat, h: nat, i: nat): set<nat> {
    set j: nat | j < n && j != i && Unordered(i, j) in Rows(n, h, n)
  }

  /** The numbers from `a` to `b - 1`. */
  ghost function Range(a: nat, b: nat): (s: set<nat>)
    requires a <= b
    ensures |s| == b - a && forall k: nat :: k in s <==> a <= k < b
    decreases b - a
  {
    if a == b then {} else Range(a, b - 1) + {b - 1}
  }

  ghost function AheadAll(n: nat, i: nat, steps: set<nat>): set<nat>
    requires n > 0
  {
    set k | k in steps :: Ahead(n, i, k)
  }

  lemma {:induction false} AheadAllSize(n: nat, i: nat, steps: set<nat>)
    requires i < n && forall k :: k in steps ==> k < n
    ensures |AheadAll(n, i, steps)| == |steps|
    decreases |steps|
  {
    if k :| k in steps {
      var rest := steps - {k};
      AheadAllSize(n, i, rest);
      AheadIsInjective(n, i);
      assert AheadAll(n, i, steps) == AheadAll(n, i, rest) + {Ahead(n, i, k)};
      assert Ahead(n, i, k) !in AheadAll(n, i, rest);
    }
  }

  lemma AheadIsInjective(n: nat, i: nat)
    requires i < n
    ensures forall k, l :: 0 <= k < n && 0 <= l < n && Ahead(n, i, k) == Ahead(n, i, l) ==> k == l
  {
    forall k, l | 0 <= k < n && 0 <= l < n && Ahead(n, i, k) == Ahead(n, i, l) ensures k == l {
      AheadWithin(n, i, k);
      AheadWithin(n, i, l);
    }
  }

  /** Steps from `i` to `j`. */
  function Distance(n: nat, i: nat, j: nat): (k: nat)
    requires i < n && j < n
    ensures k < n && Ahead(n, i, k) == j
  {
    var k := if i <= j then j - i else j + n - i;
    AheadWithin(n, i, k);
    k
  }

  lemma JoinedByDistance(n: nat, h: nat, i: nat, j: nat)
    requires i < n && j < n && i != j
    ensures var k := Distance(n, i, j);
            && (k <= h || n - h <= k ==> Unordered(i, j) in Rows(n, h, n))
            && (2 * h < n && Unordered(i, j) in Rows(n, h, n) ==> k <= h || n - h <= k)
  {
    if i < j { Joined(n, h, i, j); } else { Joined(n, h, j, i); }
  }

  /** The numbers of steps that lead from a node to a neighbour. */
  ghost function NearSteps(n: nat, h: nat): (s: set<nat>)
    requires n > 0
    ensures |s| == if 2 * h < n then 2 * h else n - 1
    ensures forall k: nat :: k in s ==> 0 < k < n
  {
    if 2 * h < n then
      var a, b := Range(1, h + 1), Range(n - h, n);
      assert a !! b;
      a + b
    else Range(1, n)
  }

  /** Every node has 2h neighbours, or all others when there are fewer. */
  lemma Degree(n: nat, h: nat, i: nat)
    requires i < n
    ensures |Neighbours(n, h, i)| == if 2 * h < n then 2 * h else n - 1
  {
    var steps := NearSteps(n, h);
    AheadIsInjective(n, i);
    AheadWithin(n, i, 0);
    forall j: nat ensures j in Neighbours(n, h, i) <==> j in AheadAll(n, i, steps) {
      if j < n && j != i {
        JoinedByDistance(n, h, i, j);
        var k := Distance(n, i, j);
        assert j in AheadAll(n, i, steps) <==> k in steps;
      }
    }
    assert Neighbours(n, h, i) == AheadAll(n, i, steps);
    AheadAllSize(n, i, steps);
  }
}
