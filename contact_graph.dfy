/** `contact_graph`: builds the contact network by rejection sampling. Each
    iteration draws two distinct individuals (`random.sample(S, 2)`); the pair
    is kept when the two lie within Euclidean distance `r` and the graph holds
    it in neither orientation. The random draws are supplied by the caller as
    a finite sequence; when it runs out before the target is met, the model
    stops with `Exhausted` where the source would keep drawing. */
module ContactGraphs {
  import opened Population

  /** A stored pair `[p1, p2]`; its orientation decides which endpoint the
      simulation inspects first. */
  datatype Edge = Edge(first: Cell, second: Cell)

  function Reverse(e: Edge): Edge { Edge(e.second, e.first) }

  datatype GraphResult =
    | Built(graph: seq<Edge>)      // the loop reached its target
    | Exhausted(graph: seq<Edge>)  // the supplied draws ran out first

  /** `floor(m*n*k/2) - 1`: the edge count the loop stops at (one less than
      half the total degree, as written). */
  function Target(m: nat, n: nat, k: real): int {
    ((m * n) as real * k / 2.0).Floor - 1
  }

  function SquaredDistance(p: Cell, q: Cell): nat {
    (p.row - q.row) * (p.row - q.row) + (p.col - q.col) * (p.col - q.col)
  }

  /** `sqrt(dx^2 + dy^2) <= r`, on exact numbers: a square root is never
      negative, so no pair qualifies when `r < 0`. */
  predicate WithinRadius(e: Edge, r: real) {
    r >= 0.0 && SquaredDistance(e.first, e.second) as real <= r * r
  }

  /** A possible outcome of `random.sample(S, 2)` for an m-by-n grid. */
  predicate IsDraw(e: Edge, m: nat, n: nat) {
    e.first != e.second && InGrid(e.first, m, n) && InGrid(e.second, m, n)
  }

  /** Every edge joins two distinct individuals of the grid within distance `r`. */
  predicate ValidEdges(graph: seq<Edge>, m: nat, n: nat, r: real) {
    forall e :: e in graph ==> IsDraw(e, m, n) && WithinRadius(e, r)
  }

  /** No pair is stored twice, in the same or in the opposite orientation. */
  predicate NoDuplicates(graph: seq<Edge>) {
    forall i, j :: 0 <= i < j < |graph| ==> graph[i] != graph[j] && graph[i] != Reverse(graph[j])
  }

  /** The sample space `S`: the nested loops list every individual once. */
  method SampleSpace(m: nat, n: nat) returns (s: seq<Cell>)
    ensures |s| == m * n
    ensures forall c :: c in s <==> InGrid(c, m, n)
    ensures forall i, j :: 0 <= i < j < |s| ==> s[i] != s[j]
  {
    s := [];
    for i := 0 to m
      invariant |s| == i * n
      invariant forall c :: c in s <==> c.row < i && c.col < n
      invariant forall a, b :: 0 <= a < b < |s| ==> s[a] != s[b]
    {
      for j := 0 to n
        invariant |s| == i * n + j
        invariant forall c :: c in s <==> (c.row < i && c.col < n) || (c.row == i && c.col < j)
        invariant forall a, b :: 0 <= a < b < |s| ==> s[a] != s[b]
      {
        s := s + [Cell(i, j)];
      }
    }
  }

  /** The edges the loop keeps from the draws `ds`, in the order drawn: a
      draw is kept when it lies within the radius and the edges kept before it
      hold it in neither orientation. */
  function Accepted(ds: seq<Edge>, r: real): seq<Edge>
    decreases |ds|
  {
    if ds == [] then []
    else
      var k := |ds| - 1;
      var kept := Accepted(ds[..k], r);
      if WithinRadius(ds[k], r) && ds[k] !in kept && Reverse(ds[k]) !in kept then kept + [ds[k]] else kept
  }

  /** What the acceptance rule guarantees of the kept edges: each is a valid
      draw, none is stored twice in either orientation, and every drawn pair
      within the radius is kept in one orientation or the other. */
  lemma {:induction false} AcceptedFacts(ds: seq<Edge>, r: real, m: nat, n: nat)
    requires forall e :: e in ds ==> IsDraw(e, m, n)
    ensures ValidEdges(Accepted(ds, r), m, n, r)
    ensures NoDuplicates(Accepted(ds, r))
    ensures forall e :: e in Accepted(ds, r) ==> e in ds
    ensures forall e :: e in ds && WithinRadius(e, r) ==> e in Accepted(ds, r) || Reverse(e) in Accepted(ds, r)
    ensures |Accepted(ds, r)| <= |ds|
    decreases |ds|
  {
    if ds != [] {
      var k := |ds| - 1;
      assert ds == ds[..k] + [ds[k]];
      assert forall e :: e in ds[..k] ==> e in ds;
      AcceptedFacts(ds[..k], r, m, n);
    }
  }

  /** Draws are kept in the order drawn, and a pair already stored in the
      opposite orientation is rejected. */
  lemma AcceptedScenario()
    ensures var a, b := Edge(Cell(0, 0), Cell(0, 1)), Edge(Cell(0, 1), Cell(0, 2));
      Accepted([a, b, Reverse(a)], 1.0) == [a, b]
  {
    var a, b := Edge(Cell(0, 0), Cell(0, 1)), Edge(Cell(0, 1), Cell(0, 2));
    assert [a, b, Reverse(a)][..2] == [a, b] && [a, b][..1] == [a] && [a][..0] == [];
    assert Accepted([a], 1.0) == [a];
    assert Accepted([a, b], 1.0) == [a, b];
  }

  /** The rejection-sampling loop, consuming `draws` in order; `used` is the
      number of draws consumed. The kept edges are exactly `Accepted` of the
      consumed draws, in draw order. The loop stops at the first draw that
      brings the count to `Target` (it consumes none when the target is not
      positive); when the draws run out first, all were consumed and the count
      is below the target. */
  method ContactGraph(m: nat, n: nat, r: real, k: real, draws: seq<Edge>) returns (res: GraphResult, used: nat)
    requires forall e :: e in draws ==> IsDraw(e, m, n)
    ensures used <= |draws| && res.graph == Accepted(draws[..used], r)
    ensures res.Exhausted? ==> used == |draws|
    ensures res.Built? && used > 0 ==> |Accepted(draws[..used - 1], r)| < Target(m, n, k)
    ensures ValidEdges(res.graph, m, n, r)
    ensures NoDuplicates(res.graph)
    ensures forall e :: e in res.graph ==> e in draws
    ensures res.Built? ==> |res.graph| == if Target(m, n, k) > 0 then Target(m, n, k) else 0
    ensures res.Exhausted? ==> |res.graph| < Target(m, n, k)
    ensures res.Exhausted? ==>
      forall e :: e in draws && WithinRadius(e, r) ==> e in res.graph || Reverse(e) in res.graph
  {
    var s := SampleSpace(m, n);
    var connectionCount := 0;
    var graph: seq<Edge> := [];
    used := 0;
    while connectionCount < Target(m, n, k)
      invariant 0 <= used <= |draws|
      invariant graph == Accepted(draws[..used], r)
      invariant connectionCount == |graph|
      invariant connectionCount <= if Target(m, n, k) > 0 then Target(m, n, k) else 0
      invariant used > 0 ==> |Accepted(draws[..used - 1], r)| < Target(m, n, k)
      decreases |draws| - used
    {
      if used == |draws| {
        assert draws[..used] == draws;
        AcceptedFacts(draws, r, m, n);
        return Exhausted(graph), used;
      }
      var pair := draws[used];
      assert pair in draws;
      assert pair.first in s && pair.second in s;  // a sample of two members of S
      var p1, p2 := pair.first, pair.second;
      assert draws[..used + 1][..used] == draws[..used];
      if WithinRadius(Edge(p1, p2), r) {
        if Edge(p1, p2) !in graph && Edge(p2, p1) !in graph {
          graph := graph + [pair];
          connectionCount := connectionCount + 1;
        }
      }
      used := used + 1;
    }
    assert forall e :: e in draws[..used] ==> e in draws;
    AcceptedFacts(draws[..used], r, m, n);
    return Built(graph), used;
  }
}
