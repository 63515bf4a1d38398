/**
 * The Game object of main.py at cell level: it owns a Board, the side to
 * move and the last cell clicked, and drives the board from clicks, the
 * reset key and a replayed transcript.
 */
module Client {
  import opened Options
  import opened Rules
  import Engine
  import Control
  import Notation

  class Game {
    var board: Engine.Board
    var turn: int
    var lastCellClicked: Option<Coord>

    ghost predicate Valid()
      reads this, board, board.grid
    {
      board.Valid() && Control.Valid(Snapshot())
    }

    /** The game as a value. */
    ghost function Snapshot(): Control.Session
      reads this, board
    {
      Control.Session(board.State(), turn, lastCellClicked)
    }

    constructor ()
      ensures Valid() && fresh(board) && fresh(board.grid)
      ensures Snapshot() == Control.Start()
    {
      board := new Engine.Board();
      turn := PW;
      lastCellClicked := None;
    }

    /** handle_click, from the cell the click landed on. */
    method HandleClick(x: int, y: int)
      requires Valid()
      modifies this, board, board.grid
      ensures Valid() && board == old(board) && board.grid == old(board.grid)
      ensures Snapshot() == Control.Click(old(Snapshot()), Coord(x, y))
    {
      var c := Coord(x, y);
      if !InBounds(c) {
        return;
      }
      if lastCellClicked.None? {
        if board.grid[x, y] == Empty || board.grid[x, y] != turn {
          return;
        }
        lastCellClicked := Some(c);
      } else {
        var from := lastCellClicked.value;
        if board.IsLegal(from, c) {
          var _ := board.Move(from, c);
          lastCellClicked := None;
          turn := turn * -1;
        } else if board.grid[x, y] == turn {
          lastCellClicked := Some(c);
        }
      }
    }

    /** The 'r' key in run: board.reset() and turn = PW. */
    method ResetKey()
      requires Valid()
      modifies this, board
      ensures Valid() && board == old(board) && fresh(board.grid)
      ensures Snapshot() == Control.ResetKey(old(Snapshot()))
    {
      board.Reset();
      turn := PW;
    }

    /**
     * play, given the transcript and the number of space-bar presses before
     * the window closes. The transcript is parsed up front; each press pops
     * the next move off the reversed list and applies it without a legality
     * check. `ok` is false where Python raised: on a token that does not
     * parse (before any move) or on a move numpy cannot index.
     */
    method Play(gameStr: string, presses: nat) returns (ok: bool)
      requires Valid()
      modifies board, board.grid
      ensures Valid() && board.grid == old(board.grid)
      ensures Notation.ParseTranscript(gameStr).None? ==> !ok && board.State() == old(board.State())
      ensures Notation.ParseTranscript(gameStr).Some? ==>
        Applied(board.State(), ok) == Control.Replay(old(board.State()), Notation.ParseTranscript(gameStr).value, presses)
    {
      var parsed := Notation.ParseTranscript(gameStr);
      if parsed.None? {
        return false;
      }
      ghost var ms := parsed.value;
      var coords := Control.Reversed(parsed.value);
      ok := true;
      var k := 0;
      while k < presses && ok
        invariant board.Valid() && board.grid == old(board.grid)
        invariant k <= presses && |coords| <= |ms|
        invariant coords == Control.Reversed(ms[|ms| - |coords|..])
        invariant ok ==>
          Control.Replay(old(board.State()), ms, presses) ==
          Control.Replay(board.State(), ms[|ms| - |coords|..], presses - k)
        invariant !ok ==> Control.Replay(old(board.State()), ms, presses) == Applied(board.State(), false)
      {
        if |coords| == 0 {
          k := k + 1;
          continue;
        }
        ghost var rest := ms[|ms| - |coords|..];
        Control.PopReversed(rest);
        assert rest[1..] == ms[|ms| - |coords| + 1..];
        var m := coords[|coords| - 1];
        coords := coords[..|coords| - 1];
        ok := board.Move(m.src, m.dst);
        k := k + 1;
      }
    }
  }
}
