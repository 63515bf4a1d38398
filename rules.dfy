/** A small Option type for the parser's and the selection's "nothing" cases. */
module Options {
  datatype Option<+T> = None | Some(value: T)
}

/**
 * The values the Breakthrough rules engine works on: cell contents, board
 * coordinates, the 8x8 grid and the position (grid plus terminal flag),
 * together with the rule that says which single steps are legal and what a
 * step does to a position.
 *
 * The grid is indexed grid[x][y]: x is the file (0 is "a"), y the row, with
 * row 0 at Black's edge and row 7 at White's edge.
 */
module Rules {

  /** Cell contents: a white pawn, a black pawn, an empty cell. */
  const PW: int := 1
  const PB: int := -1
  const Empty: int := 0

  predicate IsCell(v: int) { v == PW || v == PB || v == Empty }

  /** The values the side to move can take. */
  predicate IsSide(v: int) { v == PW || v == PB }

  /** The row a pawn of `side` moves towards: White up (decreasing y), Black down. */
  function Forward(side: int): int
    requires IsSide(side)
  {
    if side == PW then -1 else 1
  }

  datatype Coord = Coord(x: int, y: int)

  /** One step as the replay transcript and the click pair describe it. */
  datatype Ply = Ply(src: Coord, dst: Coord)

  /**
   * Board.in_bounds. The cells on the board are exactly the indices numpy
   * accepts without counting from the end.
   */
  predicate InBounds(c: Coord): (r: bool)
    ensures r <==> Indexable(c) && c.x >= 0 && c.y >= 0
  {
    0 <= c.x < 8 && 0 <= c.y < 8
  }

  /**
   * The coordinates an 8x8 numpy array accepts as an index: -8 .. 7 on each
   * axis, a negative index counting from the end.
   */
  predicate Indexable(c: Coord) { -8 <= c.x < 8 && -8 <= c.y < 8 }

  /** The cell a numpy index designates. */
  function Wrap(c: Coord): (w: Coord)
    requires Indexable(c)
    ensures InBounds(w)
    ensures InBounds(c) ==> w == c
    ensures w.x == c.x || w.x == c.x + 8
    ensures w.y == c.y || w.y == c.y + 8
  {
    Coord(if c.x < 0 then c.x + 8 else c.x, if c.y < 0 then c.y + 8 else c.y)
  }

  type Grid = seq<seq<int>>

  predicate WellFormed(g: Grid) {
    |g| == 8 &&
    forall x :: 0 <= x < 8 ==> |g[x]| == 8 && forall y :: 0 <= y < 8 ==> IsCell(g[x][y])
  }

  function At(g: Grid, c: Coord): int
    requires WellFormed(g) && InBounds(c)
  {
    g[c.x][c.y]
  }

  /** The grid with cell c overwritten by v; no other cell changes. */
  function Put(g: Grid, c: Coord, v: int): (r: Grid)
    requires WellFormed(g) && InBounds(c) && IsCell(v)
    ensures WellFormed(r)
    ensures forall d :: InBounds(d) ==> At(r, d) == if d == c then v else At(g, d)
  {
    g[c.x := g[c.x][c.y := v]]
  }

  /** The grid plus the terminal flag `over`. */
  datatype Position = Position(grid: Grid, over: bool)

  /** Starting layout of a cell in row y: Black on rows 0-1, White on rows 6-7. */
  function InitialCell(y: int): int {
    if y < 2 then PB else if y >= 6 then PW else Empty
  }

  /** The position Board.__init__ builds. */
  function Initial(): (p: Position)
    ensures WellFormed(p.grid) && !p.over
  {
    Position(seq(8, x => seq(8, y => InitialCell(y))), false)
  }

  /**
   * The step rule, stated declaratively: the game is not over, both cells are
   * on the board, the source holds a pawn, the step goes one row forward for
   * that pawn's colour and at most one file sideways, and a step straight
   * ahead needs an empty destination. Nothing is said about a diagonal
   * destination, and nothing about whose turn it is. A legal step changes
   * cells and never makes numpy raise.
   */
  predicate Legal(p: Position, f: Coord, t: Coord): (r: bool)
    requires WellFormed(p.grid)
    ensures r ==> f != t && Apply(p, f, t).ok
  {
    && !p.over
    && InBounds(f) && InBounds(t)
    && At(p.grid, f) != Empty
    && t.y == f.y + Forward(At(p.grid, f))
    && (t.x == f.x - 1 || t.x == f.x || t.x == f.x + 1)
    && (t.x == f.x ==> At(p.grid, t) == Empty)
  }

  /** The outcome of Board.move: the new position, and false when numpy raised. */
  datatype Applied = Applied(pos: Position, ok: bool)

  /**
   * Board.move with numpy's indexing: the source is read and cleared, then
   * the destination is written with the value read, and the game is over
   * when a white pawn lands on row 0 or a black pawn on row 7. An index
   * outside -8 .. 7 raises IndexError: before any change when it is the
   * source's, after the source was cleared when it is the destination's.
   */
  function Apply(p: Position, f: Coord, t: Coord): (r: Applied)
    requires WellFormed(p.grid)
    ensures WellFormed(r.pos.grid)
    ensures r.ok <==> Indexable(f) && Indexable(t)
    ensures !Indexable(f) ==> r.pos == p
    ensures Indexable(f) ==>
      At(r.pos.grid, Wrap(f)) == if r.ok && Wrap(t) == Wrap(f) then At(p.grid, Wrap(f)) else Empty
    ensures r.ok ==> At(r.pos.grid, Wrap(t)) == At(p.grid, Wrap(f))
    ensures Indexable(f) ==>
      forall c :: InBounds(c) && c != Wrap(f) && !(Indexable(t) && c == Wrap(t)) ==>
        At(r.pos.grid, c) == At(p.grid, c)
    ensures r.pos.over <==>
      p.over || (r.ok && ((t.y == 0 && At(p.grid, Wrap(f)) == PW) || (t.y == 7 && At(p.grid, Wrap(f)) == PB)))
  {
    if !Indexable(f) then Applied(p, false)
    else
      var curr := At(p.grid, Wrap(f));
      var cleared := Put(p.grid, Wrap(f), Empty);
      if !Indexable(t) then Applied(Position(cleared, p.over), false)
      else
        var over := p.over || (t.y == 0 && curr == PW) || (t.y == 7 && curr == PB);
        Applied(Position(Put(cleared, Wrap(t), curr), over), true)
  }

  // ---------------------------------------------------------------------
  // Properties of the step rule

  /** The early rejections of is_legal. */
  lemma LegalRejections(p: Position, f: Coord, t: Coord)
    requires WellFormed(p.grid)
    ensures p.over ==> !Legal(p, f, t)
    ensures (f.x - t.x > 1 || t.x - f.x > 1) ==> !Legal(p, f, t)
    ensures (!InBounds(f) || !InBounds(t)) ==> !Legal(p, f, t)
    ensures InBounds(f) && At(p.grid, f) == Empty ==> !Legal(p, f, t)
  {
  }

  /** A legal step moves one row in the mover's direction, so it never stays put. */
  lemma LegalForward(p: Position, f: Coord, t: Coord)
    requires WellFormed(p.grid) && Legal(p, f, t)
    ensures At(p.grid, f) == PW ==> t.y == f.y - 1
    ensures At(p.grid, f) == PB ==> t.y == f.y + 1
    ensures f != t
  {
  }

  /** Straight ahead: legal exactly when the forward cell is empty. */
  lemma StraightStep(p: Position, f: Coord, t: Coord)
    requires WellFormed(p.grid) && InBounds(f) && InBounds(t) && !p.over
    requires t.x == f.x && At(p.grid, f) != Empty && t.y == f.y + Forward(At(p.grid, f))
    ensures Legal(p, f, t) <==> At(p.grid, t) == Empty
  {
  }

  /** Diagonally forward: legal whatever the destination holds. */
  lemma DiagonalStep(p: Position, f: Coord, t: Coord)
    requires WellFormed(p.grid) && InBounds(f) && InBounds(t) && !p.over
    requires (t.x == f.x - 1 || t.x == f.x + 1) && At(p.grid, f) != Empty
    ensures Legal(p, f, t) <==> t.y == f.y + Forward(At(p.grid, f))
  {
  }

  // ---------------------------------------------------------------------
  // Counting pawns

  function Indicator(b: bool): nat { if b then 1 else 0 }

  /** Number of cells of `row` holding v. */
  function RowCount(row: seq<int>, v: int): nat {
    if row == [] then 0 else Indicator(row[0] == v) + RowCount(row[1..], v)
  }

  /** Number of cells of `g` holding v. */
  function Count(g: Grid, v: int): nat {
    if g == [] then 0 else RowCount(g[0], v) + Count(g[1..], v)
  }

  /** Number of pawns of either colour. */
  function Pieces(g: Grid): nat { Count(g, PW) + Count(g, PB) }

  lemma {:induction false} RowCountUpdate(row: seq<int>, y: nat, w: int, v: int)
    requires y < |row|
    ensures RowCount(row[y := w], v) == RowCount(row, v) - Indicator(row[y] == v) + Indicator(w == v)
  {
    if y == 0 {
      assert row[y := w][1..] == row[1..];
    } else {
      assert row[y := w][1..] == row[1..][y - 1 := w];
      RowCountUpdate(row[1..], y - 1, w, v);
    }
  }

  lemma {:induction false} CountUpdate(g: Grid, x: nat, row: seq<int>, v: int)
    requires x < |g|
    ensures Count(g[x := row], v) == Count(g, v) - RowCount(g[x], v) + RowCount(row, v)
  {
    if x == 0 {
      assert g[x := row][1..] == g[1..];
    } else {
      assert g[x := row][1..] == g[1..][x - 1 := row];
      CountUpdate(g[1..], x - 1, row, v);
    }
  }

  /** Overwriting one cell changes each count by what left and what arrived. */
  lemma PutCount(g: Grid, c: Coord, w: int, v: int)
    requires WellFormed(g) && InBounds(c) && IsCell(w)
    ensures Count(Put(g, c, w), v) == Count(g, v) - Indicator(At(g, c) == v) + Indicator(w == v)
  {
    RowCountUpdate(g[c.x], c.y, w, v);
    CountUpdate(g, c.x, g[c.x][c.y := w], v);
  }

  /**
   * The frame of a legal step, counted: each colour loses a pawn exactly when
   * the destination held one of that colour, so the number of pawns is
   * unchanged onto an empty cell and drops by one onto an occupied one.
   */
  lemma MoveCounts(p: Position, f: Coord, t: Coord)
    requires WellFormed(p.grid) && Legal(p, f, t)
    ensures Apply(p, f, t).ok
    ensures Count(Apply(p, f, t).pos.grid, PW) == Count(p.grid, PW) - Indicator(At(p.grid, t) == PW)
    ensures Count(Apply(p, f, t).pos.grid, PB) == Count(p.grid, PB) - Indicator(At(p.grid, t) == PB)
    ensures Pieces(Apply(p, f, t).pos.grid) == Pieces(p.grid) - Indicator(At(p.grid, t) != Empty)
  {
    var curr := At(p.grid, f);
    var cleared := Put(p.grid, f, Empty);
    assert At(cleared, t) == At(p.grid, t);
    PutCount(p.grid, f, Empty, PW);
    PutCount(p.grid, f, Empty, PB);
    PutCount(cleared, t, curr, PW);
    PutCount(cleared, t, curr, PB);
  }

  lemma {:induction false} CountUniform(g: Grid, row: seq<int>, v: int)
    requires forall x :: 0 <= x < |g| ==> g[x] == row
    ensures Count(g, v) == |g| * RowCount(row, v)
  {
    if g != [] {
      CountUniform(g[1..], row, v);
    }
  }

  /** The starting position holds 16 pawns of each colour and 32 empty cells. */
  lemma InitialCounts()
    ensures Count(Initial().grid, PW) == 16
    ensures Count(Initial().grid, PB) == 16
    ensures Count(Initial().grid, Empty) == 32
  {
    var row := [PB, PB, Empty, Empty, Empty, Empty, PW, PW];
    var g := Initial().grid;
    assert forall x :: 0 <= x < 8 ==> g[x] == row;
    forall k, v {:trigger RowCount(row[k..], v)} | 0 <= k < 8
      ensures RowCount(row[k..], v) == Indicator(row[k] == v) + RowCount(row[k + 1..], v)
    {
      assert row[k..][1..] == row[k + 1..];
    }
    assert row[8..] == [];
    assert RowCount(row[0..], PW) == 2 && RowCount(row[0..], PB) == 2 && RowCount(row[0..], Empty) == 4 by {
      assert RowCount(row[7..], PW) == 1;
      assert RowCount(row[6..], PW) == 2;
      assert RowCount(row[5..], Empty) == 1;
      assert RowCount(row[4..], Empty) == 2;
      assert RowCount(row[3..], Empty) == 3;
      assert RowCount(row[2..], Empty) == 4;
      assert RowCount(row[2..], PB) == 0;
      assert RowCount(row[1..], PB) == 1;
    }
    assert row[0..] == row;
    CountUniform(g, row, PW);
    CountUniform(g, row, PB);
    CountUniform(g, row, Empty);
  }

  /**
   * is_legal never looks at a diagonal destination: in the starting position
   * the white pawn on a1 (0, 7) may step onto its own pawn on b2 (1, 6), and
   * doing so removes a white pawn.
   */
  lemma SelfCaptureAccepted()
    ensures Legal(Initial(), Coord(0, 7), Coord(1, 6))
    ensures At(Initial().grid, Coord(1, 6)) == PW
    ensures Count(Apply(Initial(), Coord(0, 7), Coord(1, 6)).pos.grid, PW) == 15
  {
    InitialCounts();
    MoveCounts(Initial(), Coord(0, 7), Coord(1, 6));
  }
}
