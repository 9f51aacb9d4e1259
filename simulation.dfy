/** `initilize_state` and `Sim_Nday`: the initial grid fill and the day-by-day
    SIR(D) update. Every `np.random.choice` is replaced by a draw supplied by
    the caller, typed so that only the outcomes the call can produce are
    expressible. The functions below give the value each pass computes; the
    methods perform the passes in place on the live grid and are proved to
    compute those values. */
module Simulation {
  import opened Population
  import opened ContactGraphs

  /** The outcome of `choice(["I","R","S"], p=[alpha_infected, alpha_recovered, ...])`. */
  datatype InitialDraw = InitInfected | InitRecovered | InitSusceptible

  /** The two possible transmission draws of one edge on one day, one per
      `choice(["I","S"], p=[gamma, 1-gamma])` call site: `infectSecond` is used
      when the first endpoint infects the second, `infectFirst` the reverse;
      `true` stands for the outcome "I". */
  datatype TransmitDraw = TransmitDraw(infectSecond: bool, infectFirst: bool)

  /** The outcome of `choice(["R","D","I"], p=[beta_recovered, beta_death, ...])`. */
  datatype ProgressDraw = Recover | Die | StayInfected

  function InitialStatus(d: InitialDraw): Status {
    match d
    case InitInfected => I
    case InitRecovered => R
    case InitSusceptible => S
  }

  function ProgressStatus(d: ProgressDraw): Status {
    match d
    case Recover => R
    case Die => D
    case StayInfected => I
  }

  function Exposed(infected: bool): Status {
    if infected then I else S
  }

  predicate EdgesInGrid(edges: seq<Edge>, m: nat, n: nat) {
    forall e :: e in edges ==> InGrid(e.first, m, n) && InGrid(e.second, m, n)
  }

  predicate DrawGrid<T>(draws: seq<seq<T>>, m: nat, n: nat) {
    |draws| == m && forall i :: 0 <= i < m ==> |draws[i]| == n
  }

  // ---------------------------------------------------------------------
  // Initial state
  // ---------------------------------------------------------------------

  /** A fresh m-by-n grid whose every cell is set from its own draw; no cell
      is left unset and none is "D". */
  method InitializeState(m: nat, n: nat, draws: seq<seq<InitialDraw>>) returns (state: array2<Status>)
    requires DrawGrid(draws, m, n)
    ensures fresh(state)
    ensures state.Length0 == m && state.Length1 == n
    ensures forall i, j :: 0 <= i < m && 0 <= j < n ==> state[i, j] == InitialStatus(draws[i][j])
    ensures forall i, j :: 0 <= i < m && 0 <= j < n ==> state[i, j] in {I, R, S}
  {
    state := new Status[m, n];
    for i := 0 to m
      invariant forall a, b :: 0 <= a < i && 0 <= b < n ==> state[a, b] == InitialStatus(draws[a][b])
    {
      for j := 0 to n
        invariant forall a, b :: 0 <= a < i && 0 <= b < n ==> state[a, b] == InitialStatus(draws[a][b])
        invariant forall b :: 0 <= b < j ==> state[i, b] == InitialStatus(draws[i][b])
      {
        state[i, j] := InitialStatus(draws[i][j]);
      }
    }
  }

  // ---------------------------------------------------------------------
  // Transmission phase
  // ---------------------------------------------------------------------

  /** One edge of the transmission pass: two `if`s in sequence, the second
      seeing the first one's write. At most one endpoint changes, from S to I,
      and only when the other endpoint is I when the edge is reached. */
  function TransmitEdge(g: Grid, m: nat, n: nat, e: Edge, draw: TransmitDraw): (r: Grid)
    requires IsGrid(g, m, n) && InGrid(e.first, m, n) && InGrid(e.second, m, n)
    ensures IsGrid(r, m, n)
    ensures forall c :: InGrid(c, m, n) && At(r, c) != At(g, c) ==>
      At(g, c) == S && At(r, c) == I &&
      ((c == e.second && At(g, e.first) == I) || (c == e.first && At(g, e.second) == I))
    ensures At(g, e.first) == I && At(g, e.second) == S ==>
      (At(r, e.second) == I <==> draw.infectSecond)
    ensures At(g, e.first) == S && At(g, e.second) == I ==>
      (At(r, e.first) == I <==> draw.infectFirst)
  {
    var p1, p2 := e.first, e.second;
    var g1 := if At(g, p1) == I && At(g, p2) == S then Set(g, m, n, p2, Exposed(draw.infectSecond)) else g;
    if At(g1, p1) == S && At(g1, p2) == I then Set(g1, m, n, p1, Exposed(draw.infectFirst)) else g1
  }

  /** The transmission pass over `edges` in stored order; each edge sees the
      grid as the earlier edges left it. Only S cells change, and only to I. */
  function TransmitPass(g: Grid, m: nat, n: nat, edges: seq<Edge>, draws: seq<TransmitDraw>): (r: Grid)
    requires IsGrid(g, m, n) && EdgesInGrid(edges, m, n) && |draws| == |edges|
    ensures IsGrid(r, m, n)
    ensures forall c :: InGrid(c, m, n) && At(r, c) != At(g, c) ==> At(g, c) == S && At(r, c) == I
    decreases |edges|
  {
    if edges == [] then g
    else
      var k := |edges| - 1;
      TransmitEdge(TransmitPass(g, m, n, edges[..k], draws[..k]), m, n, edges[k], draws[k])
  }

  // ---------------------------------------------------------------------
  // Progression phase
  // ---------------------------------------------------------------------

  /** The progression pass. Its eligibility test reads `beginning_day_state`,
      which is the live grid itself, so the test sees the grid after the
      transmission pass: every cell that is I by then takes its draw. */
  function Progress(g: Grid, m: nat, n: nat, draws: seq<seq<ProgressDraw>>): (r: Grid)
    requires IsGrid(g, m, n) && DrawGrid(draws, m, n)
    ensures IsGrid(r, m, n)
    ensures forall c :: InGrid(c, m, n) && At(g, c) != I ==> At(r, c) == At(g, c)
    ensures forall c :: InGrid(c, m, n) && At(g, c) == I ==> At(r, c) == ProgressStatus(draws[c.row][c.col])
  {
    seq(m, i requires 0 <= i < m =>
      seq(n, j requires 0 <= j < n =>
        if g[i][j] == I then ProgressStatus(draws[i][j]) else g[i][j]))
  }

  /** One day: the transmission pass, then the progression pass. R and D
      cells keep their status; a cell infected at the start of the day takes
      its progression draw. */
  function Day(g: Grid, m: nat, n: nat, edges: seq<Edge>, tx: seq<TransmitDraw>,
               pg: seq<seq<ProgressDraw>>): (r: Grid)
    requires IsGrid(g, m, n) && EdgesInGrid(edges, m, n) && |tx| == |edges| && DrawGrid(pg, m, n)
    ensures IsGrid(r, m, n)
    ensures forall c :: InGrid(c, m, n) && (At(g, c) == R || At(g, c) == D) ==> At(r, c) == At(g, c)
    ensures forall c :: InGrid(c, m, n) && At(g, c) == I ==> At(r, c) == ProgressStatus(pg[c.row][c.col])
  {
    Progress(TransmitPass(g, m, n, edges, tx), m, n, pg)
  }

  /** The draws for `days` days over a grid of `m` by `n` and `edgeCount` edges. */
  predicate DayDraws(txs: seq<seq<TransmitDraw>>, pgs: seq<seq<seq<ProgressDraw>>>,
                     days: nat, edgeCount: nat, m: nat, n: nat)
  {
    |txs| >= days && |pgs| >= days &&
    (forall d :: 0 <= d < days ==> |txs[d]| == edgeCount) &&
    (forall d :: 0 <= d < days ==> DrawGrid(pgs[d], m, n))
  }

  /** The snapshot history after `days` days: the initial grid, then the grid
      at the end of each day, each computed from the one before. */
  function History(g: Grid, m: nat, n: nat, edges: seq<Edge>, txs: seq<seq<TransmitDraw>>,
                   pgs: seq<seq<seq<ProgressDraw>>>, days: nat): (h: seq<Grid>)
    requires IsGrid(g, m, n) && EdgesInGrid(edges, m, n)
    requires DayDraws(txs, pgs, days, |edges|, m, n)
    ensures |h| == days + 1
    ensures h[0] == g
    ensures forall d :: 0 <= d <= days ==> IsGrid(h[d], m, n)
    ensures forall d :: 0 <= d < days ==> h[d + 1] == Day(h[d], m, n, edges, txs[d], pgs[d])
    decreases days
  {
    if days == 0 then [g]
    else
      var h := History(g, m, n, edges, txs, pgs, days - 1);
      h + [Day(h[days - 1], m, n, edges, txs[days - 1], pgs[days - 1])]
  }

  // ---------------------------------------------------------------------
  // The simulation loop, in place on the live grid
  // ---------------------------------------------------------------------

  /** One edge of the transmission pass, in place. */
  method TransmitEdgeInPlace(state: array2<Status>, e: Edge, draw: TransmitDraw)
    requires InGrid(e.first, state.Length0, state.Length1) && InGrid(e.second, state.Length0, state.Length1)
    modifies state
    ensures Snapshot(state) == TransmitEdge(old(Snapshot(state)), state.Length0, state.Length1, e, draw)
  {
    ghost var before := Snapshot(state);
    var p1, p2 := e.first, e.second;
    if state[p1.row, p1.col] == I && state[p2.row, p2.col] == S {
      state[p2.row, p2.col] := Exposed(draw.infectSecond);
    }
    if state[p1.row, p1.col] == S && state[p2.row, p2.col] == I {
      state[p1.row, p1.col] := Exposed(draw.infectFirst);
    }
    GridExt(Snapshot(state), TransmitEdge(before, state.Length0, state.Length1, e, draw),
            state.Length0, state.Length1);
  }

  /** The transmission pass, in place: the edges in stored order, each seeing
      the writes of the edges before it. */
  method TransmissionPass(state: array2<Status>, edges: seq<Edge>, draws: seq<TransmitDraw>)
    requires EdgesInGrid(edges, state.Length0, state.Length1) && |draws| == |edges|
    modifies state
    ensures Snapshot(state) == TransmitPass(old(Snapshot(state)), state.Length0, state.Length1, edges, draws)
  {
    ghost var start := Snapshot(state);
    for k := 0 to |edges|
      invariant Snapshot(state) == TransmitPass(start, state.Length0, state.Length1, edges[..k], draws[..k])
    {
      assert edges[k] in edges;
      TransmitEdgeInPlace(state, edges[k], draws[k]);
      assert edges[..k + 1][..k] == edges[..k];
      assert draws[..k + 1][..k] == draws[..k];
    }
    assert edges[..|edges|] == edges && draws[..|edges|] == draws;
  }

  /** The progression pass, in place. The eligibility test reads
      `beginning_day_state`, which names this same live grid, so each cell is
      tested as the transmission pass left it. */
  method ProgressionPass(state: array2<Status>, draws: seq<seq<ProgressDraw>>)
    requires DrawGrid(draws, state.Length0, state.Length1)
    modifies state
    ensures Snapshot(state) == Progress(old(Snapshot(state)), state.Length0, state.Length1, draws)
  {
    var m, n := state.Length0, state.Length1;
    ghost var transmitted := Snapshot(state);
    ghost var progressed := Progress(transmitted, m, n, draws);
    for i := 0 to m
      invariant forall a, b :: 0 <= a < m && 0 <= b < n ==>
        state[a, b] == if a < i then progressed[a][b] else transmitted[a][b]
    {
      for j := 0 to n
        invariant forall a, b :: 0 <= a < m && 0 <= b < n ==>
          state[a, b] == if a < i || (a == i && b < j) then progressed[a][b] else transmitted[a][b]
      {
        if state[i, j] == I {
          state[i, j] := ProgressStatus(draws[i][j]);
        }
      }
    }
    GridExt(Snapshot(state), progressed, m, n);
  }

  /** One day of `Sim_Nday`, in place: the transmission pass, then the
      progression pass on the same live grid. */
  method SimulateDay(state: array2<Status>, edges: seq<Edge>, tx: seq<TransmitDraw>,
                     pg: seq<seq<ProgressDraw>>)
    requires EdgesInGrid(edges, state.Length0, state.Length1) && |tx| == |edges|
    requires DrawGrid(pg, state.Length0, state.Length1)
    modifies state
    ensures Snapshot(state) == Day(old(Snapshot(state)), state.Length0, state.Length1, edges, tx, pg)
  {
    var beginningDayState := state;  // an alias of the live grid, not a copy
    TransmissionPass(state, edges, tx);
    ProgressionPass(beginningDayState, pg);
  }

  /** Appending the next day's grid to the history of `d` days gives the
      history of `d + 1` days. */
  lemma HistoryExtends(g: Grid, m: nat, n: nat, edges: seq<Edge>, txs: seq<seq<TransmitDraw>>,
                       pgs: seq<seq<seq<ProgressDraw>>>, days: nat, d: nat, h: seq<Grid>, next: Grid)
    requires IsGrid(g, m, n) && EdgesInGrid(edges, m, n)
    requires DayDraws(txs, pgs, days, |edges|, m, n) && d < days
    requires h == History(g, m, n, edges, txs, pgs, d)
    requires next == Day(h[d], m, n, edges, txs[d], pgs[d])
    ensures h + [next] == History(g, m, n, edges, txs, pgs, d + 1)
  {
  }

  /** `Sim_Nday`: mutates the caller's grid in place for `nDays` days and
      returns the snapshot history. Snapshot 0 is the grid as given, snapshot
      d+1 the grid at the end of day d, and the caller's grid ends equal to
      the last snapshot. */
  method SimNDays(nDays: nat, state: array2<Status>, edges: seq<Edge>,
                  txs: seq<seq<TransmitDraw>>, pgs: seq<seq<seq<ProgressDraw>>>)
    returns (history: seq<Grid>)
    requires EdgesInGrid(edges, state.Length0, state.Length1)
    requires DayDraws(txs, pgs, nDays, |edges|, state.Length0, state.Length1)
    modifies state
    ensures history == History(old(Snapshot(state)), state.Length0, state.Length1, edges, txs, pgs, nDays)
    ensures Snapshot(state) == history[nDays]
  {
    var m, n := state.Length0, state.Length1;
    ghost var g0 := Snapshot(state);
    history := [Snapshot(state)];
    for d := 0 to nDays
      invariant |history| == d + 1 && history[d] == Snapshot(state)
      invariant history == History(g0, m, n, edges, txs, pgs, d)
    {
      SimulateDay(state, edges, txs[d], pgs[d]);
      var snapshot := Snapshot(state);
      HistoryExtends(g0, m, n, edges, txs, pgs, nDays, d, history, snapshot);
      history := history + [snapshot];
    }
  }
}
