/** Properties of the daily update and of the snapshot history that relate
    several passes or several days, and the small scenarios that pin down
    the update order. */
module SimulationProperties {
  import opened Population
  import opened ContactGraphs
  import opened Simulation

  /** What one day does to each individual. R and D never change. An
      individual infected at the start of the day takes its progression draw.
      A susceptible individual either is still susceptible after the day, or
      was infected by the transmission pass and then, because eligibility is
      read after that pass, also took its progression draw the same day. */
  lemma DayTransition(g: Grid, m: nat, n: nat, edges: seq<Edge>, tx: seq<TransmitDraw>,
                      pg: seq<seq<ProgressDraw>>, c: Cell)
    requires IsGrid(g, m, n) && EdgesInGrid(edges, m, n) && |tx| == |edges| && DrawGrid(pg, m, n)
    requires InGrid(c, m, n)
    ensures At(g, c) == R || At(g, c) == D ==> At(Day(g, m, n, edges, tx, pg), c) == At(g, c)
    ensures At(g, c) == I ==> At(Day(g, m, n, edges, tx, pg), c) == ProgressStatus(pg[c.row][c.col])
    ensures At(g, c) == S ==>
      var t := TransmitPass(g, m, n, edges, tx);
      (At(t, c) == S && At(Day(g, m, n, edges, tx, pg), c) == S) ||
      (At(t, c) == I && At(Day(g, m, n, edges, tx, pg), c) == ProgressStatus(pg[c.row][c.col]))
  {
  }

  /** Once an individual is R or D in some snapshot, every later snapshot
      shows it unchanged. */
  lemma {:induction false} TerminalStatesAbsorbing(g: Grid, m: nat, n: nat, edges: seq<Edge>,
                                                   txs: seq<seq<TransmitDraw>>,
                                                   pgs: seq<seq<seq<ProgressDraw>>>,
                                                   days: nat, d1: nat, d2: nat, c: Cell)
    requires IsGrid(g, m, n) && EdgesInGrid(edges, m, n) && DayDraws(txs, pgs, days, |edges|, m, n)
    requires d1 <= d2 <= days && InGrid(c, m, n)
    ensures var h := History(g, m, n, edges, txs, pgs, days);
      At(h[d1], c) == R || At(h[d1], c) == D ==> At(h[d2], c) == At(h[d1], c)
  {
    var h := History(g, m, n, edges, txs, pgs, days);
    if d1 < d2 {
      TerminalStatesAbsorbing(g, m, n, edges, txs, pgs, days, d1, d2 - 1, c);
      DayTransition(h[d2 - 1], m, n, edges, txs[d2 - 1], pgs[d2 - 1], c);
    }
  }

  /** Infection needs a source: when no individual is infected, the
      transmission pass changes nothing, whatever the draws. */
  lemma {:induction false} NoInfectedNoSpread(g: Grid, m: nat, n: nat, edges: seq<Edge>,
                                              tx: seq<TransmitDraw>)
    requires IsGrid(g, m, n) && EdgesInGrid(edges, m, n) && |tx| == |edges|
    requires forall c :: InGrid(c, m, n) ==> At(g, c) != I
    ensures TransmitPass(g, m, n, edges, tx) == g
  {
    if edges != [] {
      var k := |edges| - 1;
      assert edges[k] in edges;
      assert forall e :: e in edges[..k] ==> e in edges;
      NoInfectedNoSpread(g, m, n, edges[..k], tx[..k]);
      var after := TransmitEdge(g, m, n, edges[k], tx[k]);
      forall i, j | 0 <= i < m && 0 <= j < n
        ensures after[i][j] == g[i][j]
      {
        assert InGrid(Cell(i, j), m, n);
      }
      GridExt(after, g, m, n);
    }
  }

  /** Only an endpoint of some contact edge can be infected by the
      transmission pass. */
  lemma {:induction false} OnlyContactsInfected(g: Grid, m: nat, n: nat, edges: seq<Edge>,
                                                tx: seq<TransmitDraw>, c: Cell)
    requires IsGrid(g, m, n) && EdgesInGrid(edges, m, n) && |tx| == |edges| && InGrid(c, m, n)
    requires At(TransmitPass(g, m, n, edges, tx), c) != At(g, c)
    ensures exists e :: e in edges && (e.first == c || e.second == c)
  {
    var k := |edges| - 1;
    assert edges[k] in edges;
    assert forall e :: e in edges[..k] ==> e in edges;
    var before := TransmitPass(g, m, n, edges[..k], tx[..k]);
    if At(before, c) != At(g, c) {
      OnlyContactsInfected(g, m, n, edges[..k], tx[..k], c);
    }
  }

  // ---------------------------------------------------------------------
  // Scenarios
  // ---------------------------------------------------------------------

  const Pair := Edge(Cell(0, 0), Cell(0, 1))

  /** The transmission pass over the single edge `Pair` of a 1-by-2 grid
      `[[I, S]]`: the second individual becomes I exactly when drawn. */
  lemma PairTransmission(draw: TransmitDraw)
    ensures TransmitPass([[I, S]], 1, 2, [Pair], [draw]) == [[I, Exposed(draw.infectSecond)]]
  {
    var g: Grid := [[I, S]];
    assert [Pair][..0] == [] && [draw][..0] == [];
    assert TransmitPass(g, 1, 2, [], []) == g;
    var t := TransmitPass(g, 1, 2, [Pair], [draw]);
    assert t == TransmitEdge(TransmitPass(g, 1, 2, [], []), 1, 2, Pair, draw);
    assert At(g, Cell(0, 0)) == I && At(g, Cell(0, 1)) == S;
    var expected: Grid := [[I, Exposed(draw.infectSecond)]];
    forall c | InGrid(c, 1, 2)
      ensures At(t, c) == At(expected, c)
    {
      assert c == Cell(0, 0) || c == Cell(0, 1);
    }
    GridEqual(t, expected, 1, 2);
  }

  /** The progression pass on a 1-by-2 grid of two infected individuals. */
  lemma PairProgression(first: ProgressDraw, second: ProgressDraw)
    ensures Progress([[I, I]], 1, 2, [[first, second]]) == [[ProgressStatus(first), ProgressStatus(second)]]
  {
    var p := Progress([[I, I]], 1, 2, [[first, second]]);
    var expected: Grid := [[ProgressStatus(first), ProgressStatus(second)]];
    forall c | InGrid(c, 1, 2)
      ensures At(p, c) == At(expected, c)
    {
      assert c == Cell(0, 0) || c == Cell(0, 1);
      assert At([[I, I]], c) == I;
    }
    GridEqual(p, expected, 1, 2);
  }

  /** One infected and one susceptible neighbour, transmission drawn, nobody
      progresses: after one day both are infected. */
  lemma TransmissionScenario()
    ensures Day([[I, S]], 1, 2, [Pair], [TransmitDraw(true, false)],
                [[StayInfected, StayInfected]]) == [[I, I]]
  {
    PairTransmission(TransmitDraw(true, false));
    PairProgression(StayInfected, StayInfected);
  }

  /** The same pair with no transmission drawn: the grid is unchanged. */
  lemma NoTransmissionScenario()
    ensures Day([[I, S]], 1, 2, [Pair], [TransmitDraw(false, false)],
                [[StayInfected, StayInfected]]) == [[I, S]]
  {
    var g: Grid := [[I, S]];
    PairTransmission(TransmitDraw(false, false));
    var p := Progress(g, 1, 2, [[StayInfected, StayInfected]]);
    forall c | InGrid(c, 1, 2)
      ensures At(p, c) == At(g, c)
    {
      assert c == Cell(0, 0) || c == Cell(0, 1);
    }
    GridEqual(p, g, 1, 2);
  }

  /** The individual infected during the day is already eligible for the
      progression draw of that day: here it dies the day it was infected. */
  lemma SameDayProgressionScenario()
    ensures Day([[I, S]], 1, 2, [Pair], [TransmitDraw(true, false)],
                [[StayInfected, Die]]) == [[I, D]]
  {
    PairTransmission(TransmitDraw(true, false));
    PairProgression(StayInfected, Die);
  }

  /** Edges see the writes of earlier edges: in stored order the infection
      crosses two edges in one pass; in the opposite order it crosses one. */
  lemma CascadeScenario()
    ensures TransmitPass([[I, S, S]], 1, 3, [Pair, Edge(Cell(0, 1), Cell(0, 2))],
                         [TransmitDraw(true, true), TransmitDraw(true, true)]) == [[I, I, I]]
    ensures TransmitPass([[I, S, S]], 1, 3, [Edge(Cell(0, 1), Cell(0, 2)), Pair],
                         [TransmitDraw(true, true), TransmitDraw(true, true)]) == [[I, I, S]]
  {
    var g: Grid := [[I, S, S]];
    var second := Edge(Cell(0, 1), Cell(0, 2));
    var draw := TransmitDraw(true, true);
    assert [Pair, second][..1] == [Pair] && [second, Pair][..1] == [second];
    assert [Pair][..0] == [] && [second][..0] == [] && [draw, draw][..1] == [draw] && [draw][..0] == [];
    // stored order: Pair first, then second
    var a1 := TransmitEdge(g, 1, 3, Pair, draw);
    var a2 := TransmitEdge(a1, 1, 3, second, draw);
    assert TransmitPass(g, 1, 3, [], []) == g;
    assert TransmitPass(g, 1, 3, [Pair], [draw]) == a1;
    assert TransmitPass(g, 1, 3, [Pair, second], [draw, draw]) == a2;
    assert At(g, Cell(0, 0)) == I && At(g, Cell(0, 1)) == S && At(g, Cell(0, 2)) == S;
    assert At(a1, Cell(0, 0)) == I && At(a1, Cell(0, 1)) == I && At(a1, Cell(0, 2)) == S;
    assert At(a2, Cell(0, 0)) == I && At(a2, Cell(0, 1)) == I && At(a2, Cell(0, 2)) == I;
    forall c | InGrid(c, 1, 3)
      ensures At(a2, c) == At([[I, I, I]], c)
    {
      assert c == Cell(0, 0) || c == Cell(0, 1) || c == Cell(0, 2);
    }
    GridEqual(a2, [[I, I, I]], 1, 3);
    // opposite order: second first, when its endpoints are both S
    var b1 := TransmitEdge(g, 1, 3, second, draw);
    var b2 := TransmitEdge(b1, 1, 3, Pair, draw);
    assert TransmitPass(g, 1, 3, [second], [draw]) == b1;
    assert TransmitPass(g, 1, 3, [second, Pair], [draw, draw]) == b2;
    assert At(b1, Cell(0, 0)) == I && At(b1, Cell(0, 1)) == S && At(b1, Cell(0, 2)) == S;
    assert At(b2, Cell(0, 0)) == I && At(b2, Cell(0, 1)) == I && At(b2, Cell(0, 2)) == S;
    forall c | InGrid(c, 1, 3)
      ensures At(b2, c) == At([[I, I, S]], c)
    {
      assert c == Cell(0, 0) || c == Cell(0, 1) || c == Cell(0, 2);
    }
    GridEqual(b2, [[I, I, S]], 1, 3);
  }

  /** A lone infected individual that recovers on the first day stays
      recovered on every later day, whatever is drawn. */
  lemma RecoveryScenario(txs: seq<seq<TransmitDraw>>, pgs: seq<seq<seq<ProgressDraw>>>, days: nat, d: nat)
    requires DayDraws(txs, pgs, days, 0, 1, 1) && 1 <= d <= days
    requires pgs[0] == [[Recover]]
    ensures History([[I]], 1, 1, [], txs, pgs, days)[d] == [[R]]
  {
    var h := History([[I]], 1, 1, [], txs, pgs, days);
    assert h[1] == Day([[I]], 1, 1, [], txs[0], [[Recover]]);
    assert At(h[1], Cell(0, 0)) == R;
    TerminalStatesAbsorbing([[I]], 1, 1, [], txs, pgs, days, 1, d, Cell(0, 0));
    forall c | InGrid(c, 1, 1)
      ensures At(h[d], c) == At([[R]], c)
    {
      assert c == Cell(0, 0);
    }
    GridEqual(h[d], [[R]], 1, 1);
  }
}
