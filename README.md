# SIR(D) epidemic kernel on a grid, in Dafny

This project models the simulation kernel of `support.py`. A population of
m×n individuals sits on a grid. Each individual is Susceptible (S),
Infected (I), Recovered (R) or Dead (D). The kernel has four parts:

- `parameter_check` validates the simulation's parameters, raising
  `ValueError` on the first group of conditions that fails.
- `initilize_state` fills a fresh m×n grid with one I/R/S draw per cell.
- `contact_graph` builds a contact network by rejection sampling. It draws
  pairs of distinct individuals and keeps a pair when the two are within
  distance `r` and the pair is not yet stored in either orientation. It stops
  at `floor(m·n·k/2) − 1` edges.
- `Sim_Nday` advances the grid day by day and records a snapshot at each day
  boundary. Each day has two phases. First, a transmission pass walks the
  edges in stored order and mutates the grid in place, so later edges see
  earlier infections. Second, a progression pass gives every infected cell
  its R/D/I draw.

Every random draw (`random.sample`, `np.random.choice`) is a value the caller
supplies. The draws of `np.random.choice` have types that admit only the
outcomes that call can return: `InitialDraw` (I/R/S), `TransmitDraw` (one
I-or-S outcome per transmission call site of an edge) and `ProgressDraw`
(R/D/I). A draw of `random.sample` is an `Edge`. That type also admits equal
endpoints and cells outside the grid. `ContactGraph` therefore requires every
draw to satisfy `IsDraw`: two distinct cells of the grid.

Modules:

- `Population` (population.dfy) holds the statuses, cells and grids. It has
  `Snapshot`, which copies the live `array2` grid into a value.
- `Parameters` (parameters.dfy) models `parameter_check`.
- `ContactGraphs` (contact_graph.dfy) models the sample space `S` and the
  sampling loop.
- `Simulation` (simulation.dfy) models the initial fill and the daily update.
  Functions give the value of each pass. Methods perform the passes in place
  on the caller's `array2` and are proved equal to those functions.
- `SimulationProperties` (properties.dfy) proves properties spanning several
  edges, passes or days, plus small concrete scenarios.

Where the code and its documented intent disagree, the model follows the code:

- **Progression eligibility.** The docstring of `Sim_Nday` (support.py:60-61)
  and the comment at support.py:67 describe a start-of-day backup. The code
  writes `beginning_day_state=df_status`, an alias of the live grid, not a copy.
  So the eligibility test at support.py:80 sees the grid after the
  transmission pass, and an individual infected during day d already takes
  that day's R/D/I draw. `Simulation.Progress`, `SimulationProperties.DayTransition`
  and `SimulationProperties.SameDayProgressionScenario` state this behaviour.
- **Parameters `r` and `k`.** `parameter_check` receives them but never
  examines them.
- **Small targets.** When `floor(m·n·k/2) − 1` is not positive, the loop never
  runs and the graph is empty. The count is exactly that target only when the
  target is positive.
- **Duplicate test.** The duplicate test at support.py:51 compares lists, and
  the graph stores the sampled lists. So a pair is rejected when it is stored
  in either orientation.

## Model

| member | source | states |
|---|---|---|
| Parameters.ParameterCheck | support.py:12-22 | The check passes exactly when every alpha, beta and gamma lies in [0,1], alpha_infected + alpha_recovered ≤ 1, beta_recovered + beta_death ≤ 1, and m, n, N are positive `int`s. Otherwise it raises the error of the first failing group, in source order: alpha, beta, gamma, then sizes. Each error is characterised in both directions. |
| Simulation.InitializeState | support.py:24-32 | Returns a fresh m×n grid in which every cell is set from its own draw, so every cell is I, R or S and none is D or unset. |
| ContactGraphs.SampleSpace | support.py:37-41 | `S` has m·n entries, contains exactly the cells of the grid, and holds no cell twice. |
| ContactGraphs.AcceptedFacts | support.py:50-53 | The edges that the acceptance rule keeps from a sequence of draws satisfy four facts. Each is one of the draws, with two distinct in-grid endpoints, within distance `r` (squared distance ≤ r², no pair when r < 0). No pair is kept twice in either orientation. Every in-radius drawn pair is kept in one orientation or the other. There are at most as many kept edges as draws. |
| ContactGraphs.AcceptedScenario | support.py:50-53 | Drawing a, b, then the reverse of a, all within the radius, keeps [a, b] in that order and rejects the reversed pair. |
| ContactGraphs.ContactGraph | support.py:34-54 | The kept edges are exactly `Accepted` of the draws consumed, in draw order. On reaching the loop's target, the loop has stopped at the first draw that brings the count to `floor(m·n·k/2) − 1`, or has consumed nothing when that is not positive. If the draws run out first, all were consumed and the count is below the target. Also stated for the result: valid edges, no duplicates in either orientation, and every edge is a draw. |
| Simulation.TransmitEdge | support.py:69-75 | For one edge, at most one endpoint changes, and only from S to I when the other endpoint is I as the edge is reached. When the first endpoint is I and the second S, the second becomes I iff its draw says so. The mirror case holds as well. |
| Simulation.TransmitPass | support.py:68-75 | Over all edges in stored order, each edge sees the grid the earlier edges left. The grid keeps its shape, and the only change any cell undergoes is S to I. |
| Simulation.Progress | support.py:77-81 | Cells that are not I after transmission keep their status. Every cell that is I after transmission, including one infected that same day, takes the status of its R/D/I draw. |
| Simulation.Day | support.py:66-81 | One iteration of the day loop keeps the grid's shape. R and D cells are unchanged. A cell that is I at the start of the day takes its R/D/I draw. |
| Simulation.History | support.py:64-84 | The history has N_days + 1 grids, all of the input's shape. Element 0 is the input grid. Element d+1 is element d advanced by one day: the transmission pass, then the progression pass. |
| Simulation.TransmitEdgeInPlace | support.py:69-75 | The two sequential `if`s, run on the live grid, leave it equal to `TransmitEdge` of its old value. |
| Simulation.TransmissionPass | support.py:68-75 | The edge loop on the live grid leaves it equal to `TransmitPass` of its old value. |
| Simulation.ProgressionPass | support.py:78-81 | The nested loops on the live grid, whose eligibility test reads the live grid itself, leave it equal to `Progress` of its old value. |
| Simulation.SimulateDay | support.py:66-81 | One day on the live grid: the grid ends equal to the transmission pass followed by the progression pass, applied to its start-of-day value. |
| Simulation.SimNDays | support.py:57-84 | The returned history equals `History` of the caller's grid as given. The caller's grid, mutated in place, ends equal to the last snapshot. |
| Population.Snapshot | support.py:83 | The copy has the live grid's shape and its contents, cell by cell. |
| SimulationProperties.DayTransition | support.py:66-81 | Over one day, R and D cells are unchanged. A cell that is I at the start takes its progression draw. An S cell either stays S, or was infected by transmission and then also took its progression draw. |
| SimulationProperties.TerminalStatesAbsorbing | support.py:72-81 | Once a cell is R or D in snapshot d1, it is unchanged in every later snapshot d2. |
| SimulationProperties.NoInfectedNoSpread | support.py:72-75 | With no infected individual, the transmission pass leaves the grid unchanged, whatever the draws. |
| SimulationProperties.OnlyContactsInfected | support.py:68-75 | A cell changed by the transmission pass is an endpoint of some contact edge. |
| SimulationProperties.TransmissionScenario | support.py:72-73 | Grid [I, S] with one edge, transmission drawn and no progression: after one day the grid is [I, I]. |
| SimulationProperties.NoTransmissionScenario | support.py:72-73 | The same setting with no transmission drawn leaves [I, S] unchanged. |
| SimulationProperties.SameDayProgressionScenario | support.py:67-81 | Grid [I, S]: the newly infected second individual can die on the day it was infected, giving [I, D]. |
| SimulationProperties.CascadeScenario | support.py:68-75 | On [I, S, S] with edges (0,0)-(0,1) and (0,1)-(0,2) in that order, one pass infects both. With the edges in the opposite order, only the first is infected. |
| SimulationProperties.RecoveryScenario | support.py:78-84 | A lone infected individual that recovers on day 1 is R in every later snapshot, whatever is drawn afterwards. |

## Left out

- Probabilities and the sampling distributions. Weights `alpha_*`, `beta_*`
  and `gamma` only shape the draws the caller supplies. Neither the
  uniformity of `random.sample` nor the weights of `np.random.choice` are
  modelled.
- Draw consumption. The source calls `np.random.choice` only when a guard
  holds. The model supplies one draw per call site, per edge or cell and per
  day, and uses only those the guards select. The position of each draw in a
  seeded random stream is not modelled. The history is a function of the
  draws, so identical inputs and draws give identical histories.
- Floating point. `r`, `k` and the probabilities are exact reals. The test
  `sqrt(dx² + dy²) <= r` becomes `dx² + dy² <= r²` for `r >= 0`. Rounding,
  NaN and infinities are not modelled.
- ContactGraphs.ContactGraph: the source's `while` loop draws without bound
  and may never end. The model consumes a finite sequence of draws and
  returns `Exhausted` where the source would keep drawing. Its properties
  therefore hold for every run that ends.
- ContactGraphs.ContactGraph: the `ValueError` that `random.sample` raises
  when m·n < 2 is not modelled. No valid draw exists then, so the model
  stops with an empty graph.
- Default arguments. `contact_graph` defaults to `m=40, n=25, r=2, k=4`, and
  `Sim_Nday` has defaults for `gamma` and the betas. The model takes every
  argument explicitly.
- pandas plumbing (`DataFrame`, `.iloc`, `.shape`, `.copy()`). The live grid
  is an `array2<Status>` and snapshots are sequence values. Cells are
  natural-number coordinates, so negative `.iloc` indices do not arise.
- Simulation.SimNDays: it requires every edge endpoint to lie inside the
  grid. In the source, an edge outside the grid raises `IndexError`, and that
  error path is not modelled.
- Sizes are natural numbers. Negative `m`, `n` or `N_days`, where Python's
  `range` is empty, are not modelled; `parameter_check` rejects them anyway.
- Parameters.ParameterCheck: Python-specific number types are not
  modelled. This covers `bool` counting as `int` and the `TypeError` that
  comparing a non-number raises. Alphas, betas and gamma are reals, while
  m, n and N are an int or a float.
- The module imports and the module docstring.
