/**
 * The turn and selection logic of Game wrapped around the board, as values:
 * handle_click at cell level, the reset key of the event loop, and the
 * replay order of play.
 */
module Control {
  import opened Options
  import opened Rules

  /** What Game holds besides the screen: the position, the side to move, the selected cell. */
  datatype Session = Session(pos: Position, turn: int, selected: Option<Coord>)

  predicate Valid(s: Session) {
    && WellFormed(s.pos.grid)
    && IsSide(s.turn)
    && (s.selected.Some? ==> InBounds(s.selected.value))
  }

  /** The selected cell holds a pawn of the side to move. */
  predicate Owned(s: Session)
    requires Valid(s)
  {
    s.selected.Some? ==> At(s.pos.grid, s.selected.value) == s.turn
  }

  /** The session Game.__init__ starts with. */
  function Start(): (s: Session)
    ensures Valid(s) && Owned(s)
  {
    Session(Initial(), PW, None)
  }

  /**
   * handle_click on cell c. Off the board nothing happens. With no
   * selection, a cell holding a pawn of the side to move becomes selected.
   * With a selection, a step the board accepts is made, the selection is
   * cleared and the turn is negated; failing that, a click on a pawn of the
   * side to move selects it instead.
   */
  function Click(s: Session, c: Coord): (r: Session)
    requires Valid(s)
    ensures Valid(r)
  {
    if !InBounds(c) then s
    else
      match s.selected
      case None =>
        if At(s.pos.grid, c) == Empty || At(s.pos.grid, c) != s.turn then s
        else s.(selected := Some(c))
      case Some(from) =>
        if Legal(s.pos, from, c) then Session(Apply(s.pos, from, c).pos, s.turn * -1, None)
        else if At(s.pos.grid, c) == s.turn then s.(selected := Some(c))
        else s
  }

  /** The 'r' key: reset the board and give White the move. The selection is kept. */
  function ResetKey(s: Session): (r: Session)
    requires Valid(s)
    ensures Valid(r)
    ensures r.pos == Initial() && r.turn == PW && r.selected == s.selected
  {
    Session(Initial(), PW, s.selected)
  }

  // ---------------------------------------------------------------------
  // Properties of the selection machine

  /** With no selection, only a pawn of the side to move becomes selected, and nothing else changes. */
  lemma ClickSelects(s: Session, c: Coord)
    requires Valid(s) && s.selected.None?
    ensures Click(s, c).pos == s.pos && Click(s, c).turn == s.turn
    ensures Click(s, c).selected.Some? <==> InBounds(c) && At(s.pos.grid, c) == s.turn
    ensures Click(s, c).selected.Some? ==> Click(s, c).selected.value == c
  {
  }

  /**
   * With a selection, the turn passes exactly when the board accepts the
   * step from the selected cell to c; the step is then applied and the
   * selection cleared. Otherwise the position and turn stay, and the
   * selection moves to c when c holds a pawn of the side to move.
   */
  lemma ClickWithSelection(s: Session, c: Coord)
    requires Valid(s) && s.selected.Some?
    ensures Click(s, c).turn != s.turn <==> InBounds(c) && Legal(s.pos, s.selected.value, c)
    ensures Click(s, c).turn != s.turn ==>
      && Click(s, c).turn == -s.turn
      && Click(s, c).pos == Apply(s.pos, s.selected.value, c).pos
      && Click(s, c).selected.None?
    ensures Click(s, c).turn == s.turn ==>
      && Click(s, c).pos == s.pos
      && Click(s, c).selected == (if InBounds(c) && At(s.pos.grid, c) == s.turn then Some(c) else s.selected)
  {
  }

  /** Clicks keep the selection on a pawn of the side to move. */
  lemma ClickKeepsOwnership(s: Session, c: Coord)
    requires Valid(s) && Owned(s)
    ensures Owned(Click(s, c))
  {
  }

  /**
   * is_legal does not look at the turn, but from an owned selection every
   * step a click makes moves a pawn of the side to move, which then sits on
   * the clicked cell.
   */
  lemma ClickMovesSideToMove(s: Session, c: Coord)
    requires Valid(s) && Owned(s)
    requires Click(s, c).turn != s.turn
    ensures s.selected.Some? && InBounds(c)
    ensures At(s.pos.grid, s.selected.value) == s.turn
    ensures At(Click(s, c).pos.grid, c) == s.turn
  {
    ClickWithSelection(s, c);
  }

  /**
   * The reset key keeps a stale selection: after White plays a2-a3 and
   * Black selects a7 (0, 1), pressing 'r' gives White the move with a black
   * pawn still selected, and the next click on a6 (0, 2) moves that black
   * pawn and passes the turn to Black.
   */
  lemma StaleSelectionAfterReset()
    ensures var s := ResetKey(Click(Click(Click(Start(), Coord(0, 6)), Coord(0, 5)), Coord(0, 1)));
      && s.turn == PW
      && s.selected == Some(Coord(0, 1))
      && !Owned(s)
      && Click(s, Coord(0, 2)).turn == PB
      && At(Click(s, Coord(0, 2)).pos.grid, Coord(0, 2)) == PB
  {
    var s1 := Click(Start(), Coord(0, 6));
    assert s1.selected == Some(Coord(0, 6));
    var s2 := Click(s1, Coord(0, 5));
    assert Legal(s1.pos, Coord(0, 6), Coord(0, 5));
    assert s2.turn == PB;
    assert At(s2.pos.grid, Coord(0, 1)) == PB;
    var s3 := Click(s2, Coord(0, 1));
    assert s3.selected == Some(Coord(0, 1));
    var s := ResetKey(s3);
    assert Legal(s.pos, Coord(0, 1), Coord(0, 2));
  }

  // ---------------------------------------------------------------------
  // Replay

  /** reversed(s). */
  function Reversed<T>(s: seq<T>): (r: seq<T>)
    ensures |r| == |s|
    ensures forall i :: 0 <= i < |s| ==> r[i] == s[|s| - 1 - i]
  {
    if s == [] then [] else Reversed(s[1..]) + [s[0]]
  }

  /** Popping the reversed list yields the first element, leaving the reversed rest. */
  lemma PopReversed<T>(s: seq<T>)
    requires s != []
    ensures Reversed(s)[|s| - 1] == s[0]
    ensures Reversed(s)[..|s| - 1] == Reversed(s[1..])
  {
    assert Reversed(s) == Reversed(s[1..]) + [s[0]];
  }

  /**
   * What `presses` presses of the space bar do in play: each applies the
   * next transcript move, in transcript order and without a legality check,
   * until the transcript is used up; a move that raises stops the replay.
   */
  function Replay(p: Position, ms: seq<Ply>, presses: nat): (r: Applied)
    requires WellFormed(p.grid)
    ensures WellFormed(r.pos.grid)
    decreases presses
  {
    if presses == 0 || ms == [] then Applied(p, true)
    else
      var a := Apply(p, ms[0].src, ms[0].dst);
      if !a.ok then a else Replay(a.pos, ms[1..], presses - 1)
  }

  /** Replaying a transcript in two pieces is replaying it whole. */
  lemma {:induction false} ReplayAppend(p: Position, ms: seq<Ply>, ns: seq<Ply>, k: nat)
    requires WellFormed(p.grid)
    ensures Replay(p, ms + ns, |ms| + k) ==
      var a := Replay(p, ms, |ms|);
      if a.ok then Replay(a.pos, ns, k) else a
    decreases |ms|
  {
    if ms != [] {
      var a := Apply(p, ms[0].src, ms[0].dst);
      assert (ms + ns)[0] == ms[0];
      assert (ms + ns)[1..] == ms[1..] + ns;
      if a.ok {
        ReplayAppend(a.pos, ms[1..], ns, k);
      }
    } else {
      assert ms + ns == ns;
    }
  }
}
