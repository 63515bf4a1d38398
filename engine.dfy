/**
 * The Board object of main.py: an 8x8 array of cells and the terminal flag,
 * updated in place by move and rebuilt by reset.
 */
module Engine {
  import opened Rules

  class Board {
    var grid: array2<int>
    var over: bool
    /** The grid's contents as a value. */
    ghost var cells: Grid

    ghost predicate Valid()
      reads this, grid
    {
      && grid.Length0 == 8 && grid.Length1 == 8
      && WellFormed(cells)
      && forall x, y :: 0 <= x < 8 && 0 <= y < 8 ==> grid[x, y] == cells[x][y]
    }

    /** The position the board holds. */
    ghost function State(): Position
      reads this
    {
      Position(cells, over)
    }

    /**
     * A fresh starting grid, built as __init__ builds it: all zeros, then
     * Black on the first two rows of every file, then White on the last two.
     */
    static method NewGrid() returns (a: array2<int>)
      ensures fresh(a) && a.Length0 == 8 && a.Length1 == 8
      ensures forall x, y :: 0 <= x < 8 && 0 <= y < 8 ==> a[x, y] == Initial().grid[x][y]
    {
      a := new int[8, 8]((x, y) => Empty);
      // grid[:, :2] = PB
      for x := 0 to 8
        invariant forall i, j :: 0 <= i < 8 && 0 <= j < 8 ==>
          a[i, j] == if j < 2 && i < x then PB else Empty
      {
        a[x, 0] := PB;
        a[x, 1] := PB;
      }
      // grid[:, -2:] = PW
      for x := 0 to 8
        invariant forall i, j :: 0 <= i < 8 && 0 <= j < 8 ==>
          a[i, j] == if j < 2 then PB else if j >= 6 && i < x then PW else Empty
      {
        a[x, 6] := PW;
        a[x, 7] := PW;
      }
    }

    constructor ()
      ensures Valid() && fresh(grid)
      ensures State() == Initial()
    {
      var a := NewGrid();
      grid := a;
      cells := Initial().grid;
      over := false;
    }

    /** reset re-runs __init__, so it installs a new array. */
    method Reset()
      modifies this
      ensures Valid() && fresh(grid)
      ensures State() == Initial()
    {
      grid := NewGrid();
      cells := Initial().grid;
      over := false;
    }

    /**
     * is_legal, with its early returns in the source's order. It agrees with
     * the step rule Legal on every input.
     */
    predicate IsLegal(f: Coord, t: Coord): (r: bool)
      reads this, grid
      requires Valid()
      ensures r <==> Legal(State(), f, t)
    {
      if over then false
      else if f.x - t.x > 1 || f.x - t.x < -1 then false
      else if !InBounds(f) || !InBounds(t) then false
      else if grid[f.x, f.y] == Empty then false
      else if grid[f.x, f.y] == PW && (f.y != t.y + 1 || (f.x == t.x && grid[t.x, t.y] != Empty)) then false
      else if grid[f.x, f.y] == PB && (f.y != t.y - 1 || (f.x == t.x && grid[t.x, t.y] != Empty)) then false
      else true
    }

    /**
     * move: read the source cell, clear it, write the value read into the
     * destination, then set `over` on a white pawn reaching row 0 or a black
     * pawn reaching row 7. `ok` is false where numpy raised IndexError.
     */
    method Move(f: Coord, t: Coord) returns (ok: bool)
      requires Valid()
      modifies this, grid
      ensures Valid() && grid == old(grid)
      ensures Applied(State(), ok) == Apply(old(State()), f, t)
    {
      if !Indexable(f) {
        return false;
      }
      var s := Wrap(f);
      var curr := grid[s.x, s.y];
      grid[s.x, s.y] := Empty;
      cells := Put(cells, s, Empty);
      if !Indexable(t) {
        return false;
      }
      var d := Wrap(t);
      grid[d.x, d.y] := curr;
      cells := Put(cells, d, curr);
      if t.y == 0 && curr == PW {
        over := true;
      }
      if t.y == 7 && curr == PB {
        over := true;
      }
      ok := true;
    }
  }
}
