/** The population of the SIR(D) kernel: an m-by-n grid of individuals, each
    holding one health status. Grids are values (`seq<seq<Status>>`); the live
    grid that the simulation mutates is an `array2<Status>`, and `Snapshot`
    copies it into a value. */
module Population {

  /** The four health statuses, written "S", "I", "R" and "D" in the source. */
  datatype Status = S | I | R | D

  /** An individual, identified by its (row, column) coordinate. */
  datatype Cell = Cell(row: nat, col: nat)

  type Grid = seq<seq<Status>>

  predicate InGrid(c: Cell, m: nat, n: nat) {
    c.row < m && c.col < n
  }

  /** `g` has m rows of n statuses each. */
  predicate IsGrid(g: Grid, m: nat, n: nat) {
    |g| == m && forall i :: 0 <= i < |g| ==> |g[i]| == n
  }

  /** The status of `c` (an `.iloc` read). */
  function At(g: Grid, c: Cell): Status
    requires c.row < |g| && c.col < |g[c.row]|
  {
    g[c.row][c.col]
  }

  /** `g` with the status of `c` replaced by `v` (an `.iloc` write on a value). */
  function Set(g: Grid, m: nat, n: nat, c: Cell, v: Status): (r: Grid)
    requires IsGrid(g, m, n) && InGrid(c, m, n)
    ensures IsGrid(r, m, n)
    ensures At(r, c) == v
    ensures forall d :: InGrid(d, m, n) && d != c ==> At(r, d) == At(g, d)
  {
    g[c.row := g[c.row][c.col := v]]
  }

  /** The value held by the live grid `a` (the `.copy()` of a DataFrame). */
  function Snapshot(a: array2<Status>): (g: Grid)
    reads a
    ensures IsGrid(g, a.Length0, a.Length1)
    ensures forall i, j :: 0 <= i < a.Length0 && 0 <= j < a.Length1 ==> g[i][j] == a[i, j]
  {
    seq(a.Length0, i requires 0 <= i < a.Length0 reads a =>
      seq(a.Length1, j requires 0 <= j < a.Length1 reads a => a[i, j]))
  }

  /** Two grids of the same shape that agree cell by cell are equal. */
  lemma {:induction false} GridExt(g: Grid, h: Grid, m: nat, n: nat)
    requires IsGrid(g, m, n) && IsGrid(h, m, n)
    requires forall i, j :: 0 <= i < m && 0 <= j < n ==> g[i][j] == h[i][j]
    ensures g == h
  {
    forall i | 0 <= i < m
      ensures g[i] == h[i]
    {
      assert forall j :: 0 <= j < n ==> g[i][j] == h[i][j];
    }
  }

  /** The same, cell by cell through `At`. */
  lemma GridEqual(g: Grid, h: Grid, m: nat, n: nat)
    requires IsGrid(g, m, n) && IsGrid(h, m, n)
    requires forall c :: InGrid(c, m, n) ==> At(g, c) == At(h, c)
    ensures g == h
  {
    forall i, j | 0 <= i < m && 0 <= j < n
      ensures g[i][j] == h[i][j]
    {
      assert InGrid(Cell(i, j), m, n);
    }
    GridExt(g, h, m, n);
  }
}
