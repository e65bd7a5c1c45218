/** The flow layout of dashboard blocks on the grid. */
module Layout {

  datatype Position = Position(row: nat, col: int)

  /** Where each block goes when the next free place is (row, col). */
  function Flow(spans: seq<int>, columns: int, row: nat, col: int): seq<Position> {
    if spans == [] then []
    else
      var p := if col + spans[0] > columns then Position(row + 1, 0) else Position(row, col);
      [p] + Flow(spans[1..], columns, p.row, p.col + spans[0])
  }

  method LayoutBlocks(spans: seq<int>, columns: int) returns (positions: seq<Position>)
    ensures positions == Flow(spans, columns, 0, 0)
  {
    positions := [];
    var row: nat, col := 0, 0;
    for i := 0 to |spans|
      invariant Flow(spans, columns, 0, 0) == positions + Flow(spans[i..], columns, row, col)
    {
      assert spans[i..][0] == spans[i] && spans[i..][1..] == spans[i + 1..];
      if col + spans[i] > columns {
        row := row + 1;
        col := 0;
      }
      ghost var rest := Flow(spans[i + 1..], columns, row, col + spans[i]);
      assert positions + ([Position(row, col)] + rest) == positions + [Position(row, col)] + rest;
      positions := positions + [Position(row, col)];
      col := col + spans[i];
    }
    assert positions + [] == positions;
  }

  ghost predicate ValidSpans(spans: seq<int>, columns: int) { forall i | 0 <= i < |spans| :: 1 <= spans[i] <= columns }

  /** Block i lies before block j: in an earlier row, or further left without overlapping. */
  predicate Precedes(p: Position, span: int, q: Position) {
    p.row < q.row || (p.row == q.row && p.col + span <= q.col)
  }

  /** Every block is inside the grid, and the blocks are in row-major order without overlap. */
  ghost predicate Placement(spans: seq<int>, columns: int, ps: seq<Position>) {
    && |ps| == |spans|
    && (forall i | 0 <= i < |ps| :: 0 <= ps[i].col && ps[i].col + spans[i] <= columns)
    && (forall i, j | 0 <= i < j < |ps| :: Precedes(ps[i], spans[i], ps[j]))
  }

  /** The block covers this cell of the grid. */
  ghost predicate Covers(p: Position, span: int, row: int, col: int) {
    p.row == row && p.col <= col < p.col + span
  }

  lemma {:induction false} FlowFollows(spans: seq<int>, columns: int, row: nat, col: int)
    requires ValidSpans(spans, columns) && 0 <= col
    ensures var ps := Flow(spans, columns, row, col);
            && Placement(spans, columns, ps)
            && forall i | 0 <= i < |ps| :: ps[i].row > row || (ps[i].row == row && ps[i].col >= col)
  {
    if spans != [] {
      var p := if col + spans[0] > columns then Position(row + 1, 0) else Position(row, col);
      assert ValidSpans(spans[1..], columns);
      FlowFollows(spans[1..], columns, p.row, p.col + spans[0]);
      var ps, rest := Flow(spans, columns, row, col), Flow(spans[1..], columns, p.row, p.col + spans[0]);
      assert ps[0] == p;
      forall i | 1 <= i < |ps| ensures ps[i] == rest[i - 1] && spans[i] == spans[1..][i - 1] {
      }
      forall i, j | 0 <= i < j < |ps| ensures Precedes(ps[i], spans[i], ps[j]) {
        if i > 0 {
          assert Precedes(rest[i - 1], spans[1..][i - 1], rest[j - 1]);
        }
      }
    }
  }

  /** With spans the validator accepts, blocks stay inside the grid, in row-major order, and never overlap. */
  lemma LayoutIsPlacement(spans: seq<int>, columns: int)
    requires ValidSpans(spans, columns)
    ensures var ps := Flow(spans, columns, 0, 0);
            && Placement(spans, columns, ps)
            && forall i, j, row, col | 0 <= i < j < |ps| && Covers(ps[i], spans[i], row, col) :: !Covers(ps[j], spans[j], row, col)
  {
    FlowFollows(spans, columns, 0, 0);
    var ps := Flow(spans, columns, 0, 0);
    forall i, j, row, col | 0 <= i < j < |ps| && Covers(ps[i], spans[i], row, col) ensures !Covers(ps[j], spans[j], row, col) {
      assert Precedes(ps[i], spans[i], ps[j]);
    }
  }

  predicate NotAfter(p: Position, q: Position) { p.row < q.row || (p.row == q.row && p.col <= q.col) }

  lemma PlacementTail(spans: seq<int>, columns: int, qs: seq<Position>)
    requires ValidSpans(spans, columns) && Placement(spans, columns, qs) && spans != []
    ensures ValidSpans(spans[1..], columns) && Placement(spans[1..], columns, qs[1..])
    ensures forall q | q in qs[1..] :: Precedes(qs[0], spans[0], q)
  {
    forall i, j | 0 <= i < j < |qs[1..]| ensures Precedes(qs[1..][i], spans[1..][i], qs[1..][j]) {
      assert Precedes(qs[i + 1], spans[i + 1], qs[j + 1]);
    }
  }

  /** The flow never falls behind another placement of the same blocks in the same order. */
  lemma {:induction false} FlowStaysAhead(spans: seq<int>, columns: int, row: nat, col: int, qs: seq<Position>)
    requires ValidSpans(spans, columns) && Placement(spans, columns, qs)
    requires qs != [] ==> NotAfter(Position(row, col), qs[0])
    ensures var ps := Flow(spans, columns, row, col);
            |ps| == |qs| && forall i | 0 <= i < |qs| :: NotAfter(ps[i], qs[i])
  {
    if spans != [] {
      var p := if col + spans[0] > columns then Position(row + 1, 0) else Position(row, col);
      PlacementTail(spans, columns, qs);
      assert NotAfter(p, qs[0]);
      assert |qs| > 1 ==> qs[1..][0] in qs[1..];
      FlowStaysAhead(spans[1..], columns, p.row, p.col + spans[0], qs[1..]);
      var rest := Flow(spans[1..], columns, p.row, p.col + spans[0]);
      forall i | 0 <= i < |qs| ensures NotAfter(([p] + rest)[i], qs[i]) {
        if i > 0 {
          assert NotAfter(rest[i - 1], qs[1..][i - 1]);
        }
      }
    }
  }

  function Rows(ps: seq<Position>): nat { if ps == [] then 0 else ps[|ps| - 1].row + 1 }

  /** No placement that keeps the order of the blocks uses fewer rows, for all the blocks or for the first few. */
  lemma LayoutIsMinimal(spans: seq<int>, columns: int, qs: seq<Position>)
    requires ValidSpans(spans, columns) && Placement(spans, columns, qs)
    ensures var ps := Flow(spans, columns, 0, 0);
            |ps| == |qs| && Rows(ps) <= Rows(qs) && forall i | 0 <= i < |qs| :: NotAfter(ps[i], qs[i])
    ensures if qs == [] then Rows(qs) == 0
            else Rows(qs) == qs[|qs| - 1].row + 1 && forall i | 0 <= i < |qs| :: qs[i].row < Rows(qs)
  {
    FlowStaysAhead(spans, columns, 0, 0, qs);
    assert forall i | 0 <= i < |qs| - 1 :: Precedes(qs[i], spans[i], qs[|qs| - 1]);
  }
}
