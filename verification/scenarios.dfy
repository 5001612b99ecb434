/** The opening of an 8 × 8 game with Black to move, and two first moves: one that brackets
    nothing and is still accepted, and one that captures a single piece. */
module Scenarios {
  import opened Cells
  import opened Geometry
  import opened Results
  import opened Boards
  import opened Players
  import opened Games
  import opened Capture

  /** Black moves first, both players start with the engine's default score of 2. */
  function OpeningPlayers(): seq<Player> {
    [Player(Black, 2), Player(White, 2)]
  }

  /** The first square of the walk is not an opponent piece: the walk does not move and
      nothing is bracketed. */
  lemma NoWalk(b: Board, color: Color, o: Square, d: Direction)
    requires WellFormed(b) && Inside(b.size, o)
    requires !(Inside(b.size, Pos(o, d, 1)) && Get(b, Pos(o, d, 1)) == Opp(color))
    ensures RunEnd(b, o, d, Opp(color)) == 1
    ensures !Bracketed(b, color, o, d)
  {
    ScanRunUnfold(b, o, d, Opp(color), 1);
  }

  /** The walk crosses exactly one opponent piece; the direction is bracketed exactly when the
      square after it holds the mover's colour. */
  lemma OneStepWalk(b: Board, color: Color, o: Square, d: Direction)
    requires WellFormed(b) && Inside(b.size, o) && b.size >= 2
    requires Inside(b.size, Pos(o, d, 1)) && Get(b, Pos(o, d, 1)) == Opp(color)
    requires !(Inside(b.size, Pos(o, d, 2)) && Get(b, Pos(o, d, 2)) == Opp(color))
    ensures RunEnd(b, o, d, Opp(color)) == 2
    ensures Bracketed(b, color, o, d) <==> Inside(b.size, Pos(o, d, 2)) && Get(b, Pos(o, d, 2)) == color
  {
    ScanRunUnfold(b, o, d, Opp(color), 1);
    ScanRunUnfold(b, o, d, Opp(color), 2);
  }

  /** The 8 × 8 opening: Black at (3,3) and (4,4), White at (3,4) and (4,3), Black to move. */
  lemma Opening()
    ensures NewGame(OpeningPlayers(), 8).Success?
    ensures var g := NewGame(OpeningPlayers(), 8).value;
      && g.players == OpeningPlayers() && g.turn == 0 && WhosTurn(g) == Black && g.board.size == 8
      && forall p :: Inside(8, p) ==> Get(g.board, p) == StartCell(8, p)
  {
  }

  /** Black at (2,3) on the opening board: the piece below is Black's own and the diagonal run
      of White ends on an empty square, so nothing is bracketed. */
  lemma NothingBracketedAt23(b: Board, d: Direction)
    requires WellFormed(b) && b.size == 8
    requires forall p :: Inside(8, p) ==> Get(b, p) == StartCell(8, p)
    ensures !Bracketed(b, Black, (2, 3), d)
  {
    var o := (2, 3);
    if d == SE {
      OneStepWalk(b, Black, o, d);
    } else {
      NoWalk(b, Black, o, d);
    }
  }

  /** The move is still accepted: Black's piece lands at (2,3), nothing else changes, Black's
      score becomes 3 and White's stays 2. */
  lemma PermissiveOpening()
    ensures NewGame(OpeningPlayers(), 8).Success?
    ensures var g := NewGame(OpeningPlayers(), 8).value;
      && TakeTurn(g, 2, 3).Success?
      && (forall p :: Inside(8, p) ==>
            Get(TakeTurn(g, 2, 3).value.board, p) == if p == (2, 3) then Black else StartCell(8, p))
      && TakeTurn(g, 2, 3).value.players[0].score == 3
      && TakeTurn(g, 2, 3).value.players[1].score == 2
  {
    hide TakeTurn, NewGame;
    Opening();
    var g := NewGame(OpeningPlayers(), 8).value;
    forall d ensures !Bracketed(g.board, WhosTurn(g), (2, 3), d) {
      NothingBracketedAt23(g.board, d);
    }
    PermissivePlacement(g, 2, 3);
  }

  /** Black at (2,4) on the opening board brackets only the White piece at (3,4), from the
      south, against Black's (4,4). */
  lemma OnlySouthAt24(b: Board, d: Direction)
    requires WellFormed(b) && b.size == 8
    requires forall p :: Inside(8, p) ==> Get(b, p) == StartCell(8, p)
    ensures Bracketed(b, Black, (2, 4), d) <==> d == S
    ensures d == S ==> RunEnd(b, (2, 4), d, White) == 2
  {
    var o := (2, 4);
    if d == S {
      OneStepWalk(b, Black, o, d);
    } else {
      NoWalk(b, Black, o, d);
    }
  }

  /** The only square captured by Black at (2,4) is (3,4). */
  lemma CapturedAt24(b: Board, p: Square)
    requires WellFormed(b) && b.size == 8
    requires forall q :: Inside(8, q) ==> Get(b, q) == StartCell(8, q)
    ensures Captured(b, Black, (2, 4), p) <==> p == (3, 4)
  {
    var o := (2, 4);
    OnlySouthAt24(b, S);
    if Captured(b, Black, o, p) {
      var d :| InRun(b, Black, o, d, p);
      OnlySouthAt24(b, d);
    }
    assert InRun(b, Black, o, S, (3, 4));
  }

  /** One piece is flipped by Black at (2,4): the south run has length one. */
  lemma FlipsAt24(b: Board)
    requires WellFormed(b) && b.size == 8
    requires forall q :: Inside(8, q) ==> Get(b, q) == StartCell(8, q)
    ensures Flips(b, Black, (2, 4)) == 1
  {
    var o := (2, 4);
    forall t | 0 <= t < 8
      ensures RunFlips(b, Black, o, DirectionOf(t)) == if t == 4 then 1 else 0
    {
      OnlySouthAt24(b, DirectionOf(t));
    }
    FlipsBeforeStep(b, Black, o, 0);
    FlipsBeforeStep(b, Black, o, 1);
    FlipsBeforeStep(b, Black, o, 2);
    FlipsBeforeStep(b, Black, o, 3);
    FlipsBeforeStep(b, Black, o, 4);
    FlipsBeforeStep(b, Black, o, 5);
    FlipsBeforeStep(b, Black, o, 6);
    FlipsBeforeStep(b, Black, o, 7);
  }

  /** The board after Black at (2,4): (2,4) and (3,4) become Black, every other square is
      unchanged. */
  lemma CaptureOpeningBoard(g: Game)
    requires NewGame(OpeningPlayers(), 8).Success? && g == NewGame(OpeningPlayers(), 8).value
    ensures TakeTurn(g, 2, 4).Success?
    ensures forall p :: Inside(8, p) ==>
      Get(TakeTurn(g, 2, 4).value.board, p) == if p == (2, 4) || p == (3, 4) then Black else StartCell(8, p)
  {
    hide TakeTurn, NewGame;
    Opening();
    TakeTurnBoard(g, 2, 4);
    forall p | Inside(8, p)
      ensures Get(TakeTurn(g, 2, 4).value.board, p) == if p == (2, 4) || p == (3, 4) then Black else StartCell(8, p)
    {
      CapturedAt24(g.board, p);
    }
  }

  /** The scores after Black at (2,4): Black gains one for the placed piece and one for the
      flipped piece, White loses one. */
  lemma CaptureOpeningScores(g: Game)
    requires NewGame(OpeningPlayers(), 8).Success? && g == NewGame(OpeningPlayers(), 8).value
    ensures TakeTurn(g, 2, 4).Success?
    ensures TakeTurn(g, 2, 4).value.players[0].score == 4
    ensures TakeTurn(g, 2, 4).value.players[1].score == 1
  {
    hide TakeTurn, NewGame, Flips, FlipsBefore, RunFlips;
    Opening();
    FlipsAt24(g.board);
    TakeTurnScores(g, 2, 4);
  }

  /** Black at (2,4) on the opening board: (2,4) and (3,4) become Black, every other square is
      unchanged, Black's score becomes 4 and White's becomes 1. */
  lemma CaptureOpening()
    ensures NewGame(OpeningPlayers(), 8).Success?
    ensures var g := NewGame(OpeningPlayers(), 8).value;
      && TakeTurn(g, 2, 4).Success?
      && (forall p :: Inside(8, p) ==>
            Get(TakeTurn(g, 2, 4).value.board, p) == if p == (2, 4) || p == (3, 4) then Black else StartCell(8, p))
      && TakeTurn(g, 2, 4).value.players[0].score == 4
      && TakeTurn(g, 2, 4).value.players[1].score == 1
  {
    hide TakeTurn, NewGame;
    Opening();
    CaptureOpeningBoard(NewGame(OpeningPlayers(), 8).value);
    CaptureOpeningScores(NewGame(OpeningPlayers(), 8).value);
  }
}
