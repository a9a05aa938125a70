// Station and platform numbering (simulate.cc): station names to ids, the
// platform count, and a platform id for every directed edge of the adjacency
// matrix in row-major order.

module GraphIndexer {

  /** mat[r][c] is the travel time of the edge r -> c; 0 means no edge. */
  type Matrix = seq<seq<nat>>

  /** The column count the loops use: the length of the first row. */
  function Cols(mat: Matrix): nat {
    if |mat| == 0 then 0 else |mat[0]|
  }

  /** Every row reaches the column count, so the loops read inside each row. */
  predicate WellShaped(mat: Matrix) {
    forall r | 0 <= r < |mat| :: |mat[r]| >= Cols(mat)
  }

  /**
   * station_name_to_id: every listed name maps to a position holding that
   * name, and to its last such position.
   */
  method StationNameToId(names: seq<string>) returns (ids: map<string, int>)
    ensures ids.Keys == set i | 0 <= i < |names| :: names[i]
    ensures forall name | name in ids :: 0 <= ids[name] < |names| && names[ids[name]] == name
    ensures forall name, j | name in ids && ids[name] < j < |names| :: names[j] != name
    ensures (forall i, j | 0 <= i < j < |names| :: names[i] != names[j]) ==>
              forall i | 0 <= i < |names| :: ids[names[i]] == i
  {
    ids := map[];
    var i := 0;
    while i < |names|
      invariant 0 <= i <= |names|
      invariant ids.Keys == set k | 0 <= k < i :: names[k]
      invariant forall name | name in ids :: 0 <= ids[name] < i && names[ids[name]] == name
      invariant forall name, j | name in ids && ids[name] < j < i :: names[j] != name
    {
      ids := ids[names[i] := i];
      i := i + 1;
    }
  }

  /** Number of nonzero entries of a row. */
  function RowCount(row: seq<nat>): (n: nat)
    ensures n <= |row|
  {
    if row == [] then 0
    else RowCount(row[..|row| - 1]) + (if row[|row| - 1] != 0 then 1 else 0)
  }

  /** Number of nonzero entries in the first cols columns of the rows. */
  function CountNonzero(rows: Matrix, cols: nat): nat
    requires forall r | 0 <= r < |rows| :: |rows[r]| >= cols
  {
    if rows == [] then 0
    else CountNonzero(rows[..|rows| - 1], cols) + RowCount(rows[|rows| - 1][..cols])
  }

  /** The platform count: nonzero entries of the matrix. */
  function PlatformCount(mat: Matrix): nat
    requires WellShaped(mat)
  {
    CountNonzero(mat, Cols(mat))
  }

  /** how_many_platforms: counts the nonzero entries, row by row. */
  method HowManyPlatforms(mat: Matrix) returns (cnt: int)
    requires WellShaped(mat)
    ensures cnt == PlatformCount(mat)
  {
    cnt := 0;
    var r := 0;
    while r < |mat|
      invariant 0 <= r <= |mat|
      invariant cnt == CountNonzero(mat[..r], Cols(mat))
    {
      var c := 0;
      while c < |mat[0]|
        invariant 0 <= c <= Cols(mat)
        invariant cnt == CountNonzero(mat[..r], Cols(mat)) + RowCount(mat[r][..c])
      {
        assert mat[r][..c + 1][..c] == mat[r][..c];
        cnt := cnt + if mat[r][c] != 0 then 1 else 0;
        c := c + 1;
      }
      assert mat[..r + 1][..r] == mat[..r];
      r := r + 1;
    }
    assert mat[..r] == mat;
  }

  /** The count lies between 0 and rows * columns. */
  lemma {:induction false} CountNonzeroBound(rows: Matrix, cols: nat)
    requires forall r | 0 <= r < |rows| :: |rows[r]| >= cols
    ensures CountNonzero(rows, cols) <= |rows| * cols
  {
    if rows != [] {
      CountNonzeroBound(rows[..|rows| - 1], cols);
      assert |rows| * cols == (|rows| - 1) * cols + cols;
    }
  }

  /** (r, c) is an edge: inside the scanned area and nonzero. */
  predicate IsEdge(mat: Matrix, r: int, c: int)
    requires WellShaped(mat)
  {
    0 <= r < |mat| && 0 <= c < Cols(mat) && mat[r][c] != 0
  }

  /** The id platforms_to_id gives cell (r, c): the edges before it in row-major order. */
  function CellId(mat: Matrix, r: nat, c: nat): nat
    requires WellShaped(mat) && r < |mat| && c <= Cols(mat)
  {
    CountNonzero(mat[..r], Cols(mat)) + RowCount(mat[r][..c])
  }

  /** out holds exactly the edges strictly before (r, c) in row-major order, with their ids. */
  ghost predicate NumberedBefore(mat: Matrix, out: map<int, map<int, int>>, r: int, c: int)
    requires WellShaped(mat)
  {
    && (forall r', c' | r' in out && c' in out[r'] ::
          IsEdge(mat, r', c') && (r' < r || (r' == r && c' < c)) && out[r'][c'] == CellId(mat, r', c'))
    && (forall r', c' | IsEdge(mat, r', c') && (r' < r || (r' == r && c' < c)) ::
          r' in out && c' in out[r'])
    && (forall r' | r' in out :: |out[r']| > 0)
  }

  /**
   * platforms_to_id: out[r][c] is present iff (r, c) is an edge, and then it is
   * the edge's position in the row-major scan. The Platform objects the
   * source pushes onto its own copy of the vector are not kept.
   */
  method PlatformsToId(mat: Matrix) returns (out: map<int, map<int, int>>)
    requires WellShaped(mat)
    ensures forall r, c | r in out && c in out[r] :: IsEdge(mat, r, c) && out[r][c] == CellId(mat, r, c)
    ensures forall r, c | IsEdge(mat, r, c) :: r in out && c in out[r]
    ensures forall r | r in out :: |out[r]| > 0
  {
    var cnt := 0;
    out := map[];
    var r := 0;
    while r < |mat|
      invariant 0 <= r <= |mat|
      invariant cnt == CountNonzero(mat[..r], Cols(mat))
      invariant NumberedBefore(mat, out, r, 0)
    {
      var c := 0;
      while c < |mat[0]|
        invariant 0 <= c <= Cols(mat)
        invariant cnt == CellId(mat, r, c)
        invariant NumberedBefore(mat, out, r, c)
      {
        assert mat[r][..c + 1][..c] == mat[r][..c];
        if mat[r][c] == 0 {
          c := c + 1;
          continue;
        }
        var row := if r in out then out[r] else map[];
        out := out[r := row[c := cnt]];
        cnt := cnt + 1;
        c := c + 1;
      }
      assert mat[..r + 1][..r] == mat[..r];
      assert mat[r][..c] == mat[r][..Cols(mat)];
      r := r + 1;
    }
  }

  /** Adding entries never lowers a row prefix's count. */
  lemma {:induction false} RowCountMonotone(row: seq<nat>, i: nat, j: nat)
    requires i <= j <= |row|
    ensures RowCount(row[..i]) <= RowCount(row[..j])
    decreases j - i
  {
    if i < j {
      RowCountMonotone(row, i, j - 1);
      assert row[..j][..j - 1] == row[..j - 1];
    }
  }

  lemma {:induction false} CountNonzeroMonotone(mat: Matrix, i: nat, j: nat)
    requires WellShaped(mat) && i <= j <= |mat|
    ensures CountNonzero(mat[..i], Cols(mat)) <= CountNonzero(mat[..j], Cols(mat))
    decreases j - i
  {
    if i < j {
      CountNonzeroMonotone(mat, i, j - 1);
      assert mat[..j][..j - 1] == mat[..j - 1];
    }
  }

  /** An edge's id is below the count of the rows up to and including its own. */
  lemma EdgeIdBelowRowEnd(mat: Matrix, r: nat, c: nat)
    requires WellShaped(mat) && IsEdge(mat, r, c)
    ensures CellId(mat, r, c) < CountNonzero(mat[..r + 1], Cols(mat))
  {
    assert mat[r][..c + 1][..c] == mat[r][..c];
    RowCountMonotone(mat[r], c + 1, Cols(mat));
    assert mat[..r + 1][..r] == mat[..r];
  }

  /**
   * Ids increase strictly along the row-major order of edges, so distinct
   * edges get distinct ids, and every id is below the platform count.
   */
  lemma CellIdOrdered(mat: Matrix, r1: nat, c1: nat, r2: nat, c2: nat)
    requires WellShaped(mat) && IsEdge(mat, r1, c1) && IsEdge(mat, r2, c2)
    requires r1 < r2 || (r1 == r2 && c1 < c2)
    ensures CellId(mat, r1, c1) < CellId(mat, r2, c2) < PlatformCount(mat)
  {
    EdgeIdBelowRowEnd(mat, r1, c1);
    EdgeIdBelowRowEnd(mat, r2, c2);
    CountNonzeroMonotone(mat, r2 + 1, |mat|);
    assert mat[..|mat|] == mat;
    if r1 < r2 {
      CountNonzeroMonotone(mat, r1 + 1, r2);
    } else {
      assert mat[r1][..c1 + 1][..c1] == mat[r1][..c1];
      RowCountMonotone(mat[r1], c1 + 1, c2);
    }
  }

  /** Some position of the row prefix holds the k-th nonzero entry. */
  lemma {:induction false} RowPosition(row: seq<nat>, k: nat) returns (c: nat)
    requires k < RowCount(row)
    ensures c < |row| && row[c] != 0 && RowCount(row[..c]) == k
  {
    var last := |row| - 1;
    assert row[..last] == row[..|row| - 1];
    if k < RowCount(row[..last]) {
      c := RowPosition(row[..last], k);
      assert row[..last][..c] == row[..c];
    } else {
      c := last;
    }
  }

  /** Every id below the platform count belongs to an edge: the numbering is onto. */
  lemma {:induction false} EdgeOfId(mat: Matrix, k: nat) returns (r: nat, c: nat)
    requires WellShaped(mat) && k < PlatformCount(mat)
    ensures IsEdge(mat, r, c) && CellId(mat, r, c) == k
  {
    assert mat[..|mat|] == mat;
    r, c := EdgeOfIdInRows(mat, |mat|, k);
  }

  lemma {:induction false} EdgeOfIdInRows(mat: Matrix, n: nat, k: nat) returns (r: nat, c: nat)
    requires WellShaped(mat) && n <= |mat| && k < CountNonzero(mat[..n], Cols(mat))
    ensures r < n && IsEdge(mat, r, c) && CellId(mat, r, c) == k
    decreases n
  {
    assert n > 0;
    assert mat[..n][..n - 1] == mat[..n - 1];
    var before := CountNonzero(mat[..n - 1], Cols(mat));
    if k < before {
      r, c := EdgeOfIdInRows(mat, n - 1, k);
    } else {
      r := n - 1;
      assert mat[..n][n - 1] == mat[r];
      c := RowPosition(mat[r][..Cols(mat)], k - before);
      assert mat[r][..Cols(mat)][..c] == mat[r][..c];
    }
  }
}
