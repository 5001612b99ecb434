/** What a turn does to the board and the scores, stated against a reference that does not
    depend on the order in which the eight directions are scanned. */
module Capture {
  import opened Cells
  import opened Geometry
  import opened Results
  import opened Boards
  import opened Players
  import opened Games

  // ----- the reference ----------------------------------------------------------------

  /** p is one of the squares the scan from o in direction d captures on board b: the run is
      bracketed and p lies strictly between o and the bracketing square. */
  predicate InRun(b: Board, color: Color, o: Square, d: Direction, p: Square)
    requires WellFormed(b) && Inside(b.size, o)
  {
    Bracketed(b, color, o, d) && OnSegment(o, d, 1, RunEnd(b, o, d, Opp(color)), p)
  }

  /** p is captured by a placement of `color` at o in some direction, all scans reading b. */
  predicate Captured(b: Board, color: Color, o: Square, p: Square)
    requires WellFormed(b) && Inside(b.size, o)
  {
    exists d :: InRun(b, color, o, d, p)
  }

  /** p is captured in one of the first t directions of the scan order. */
  predicate CapturedBefore(b: Board, color: Color, o: Square, t: nat, p: Square)
    requires WellFormed(b) && Inside(b.size, o)
  {
    exists d :: Ordinal(d) < t && InRun(b, color, o, d, p)
  }

  /** The number of pieces the scan in direction d flips. */
  function RunFlips(b: Board, color: Color, o: Square, d: Direction): nat
    requires WellFormed(b) && Inside(b.size, o)
  {
    if Bracketed(b, color, o, d) then RunEnd(b, o, d, Opp(color)) - 1 else 0
  }

  /** The number of pieces flipped in the first t directions of the scan order. */
  function FlipsBefore(b: Board, color: Color, o: Square, t: nat): nat
    requires WellFormed(b) && Inside(b.size, o) && t <= 8
  {
    if t == 0 then 0 else FlipsBefore(b, color, o, t - 1) + RunFlips(b, color, o, DirectionOf(t - 1))
  }

  /** The number of pieces a placement of `color` at o flips, over all eight directions. */
  function Flips(b: Board, color: Color, o: Square): nat
    requires WellFormed(b) && Inside(b.size, o)
  {
    FlipsBefore(b, color, o, 8)
  }

  /** Each player's score is the number of squares of their colour. */
  predicate ScoresMatch(g: Game)
    requires Valid(g)
  {
    && g.players[0].score == Count(g.board, g.players[0].color)
    && g.players[1].score == Count(g.board, g.players[1].color)
  }

  /** The points a holder of colour c gains when f points move to `color` from the other colour. */
  function Share(c: Color, color: Color, f: int): int {
    if c == color then f else -f
  }

  /** h's scores are g's with f points moved to the holder of `color` from the other player. */
  predicate ShiftedBy(g: Game, h: Game, color: Color, f: int)
    requires |g.players| == 2 && |h.players| == 2
  {
    && h.players[0].score == g.players[0].score + Share(g.players[0].color, color, f)
    && h.players[1].score == g.players[1].score + Share(g.players[1].color, color, f)
  }

  /** a and b hold the same pieces on the ray from o in direction d (o itself excluded). */
  ghost predicate RayAgrees(a: Board, b: Board, o: Square, d: Direction)
    requires WellFormed(a) && WellFormed(b) && a.size == b.size
  {
    forall t :: t >= 1 && Inside(a.size, Pos(o, d, t)) ==> Get(a, Pos(o, d, t)) == Get(b, Pos(o, d, t))
  }

  // ----- scans read only their own ray ---------------------------------------------------

  lemma {:induction false} ScanRunAgree(a: Board, b: Board, o: Square, d: Direction, from: Cell, k: nat)
    requires WellFormed(a) && WellFormed(b) && a.size == b.size && Inside(a.size, o)
    requires 1 <= k <= a.size && RayAgrees(a, b, o, d)
    ensures ScanRun(a, o, d, from, k) == ScanRun(b, o, d, from, k)
    decreases a.size - k
  {
    var p := Pos(o, d, k);
    ScanRunUnfold(a, o, d, from, k);
    ScanRunUnfold(b, o, d, from, k);
    if Inside(a.size, p) {
      assert Get(a, p) == Get(b, p);
      if Get(a, p) == from {
        StepBound(a.size, o, d, k);
        ScanRunAgree(a, b, o, d, from, k + 1);
      }
    }
  }

  /** Two boards that agree on the ray from o in direction d give that direction the same
      walk, the same capture decision, the same captured squares and the same flip count. */
  lemma ScansAgree(a: Board, b: Board, color: Color, o: Square, d: Direction)
    requires WellFormed(a) && WellFormed(b) && a.size == b.size && Inside(a.size, o)
    requires RayAgrees(a, b, o, d)
    ensures RunEnd(a, o, d, Opp(color)) == RunEnd(b, o, d, Opp(color))
    ensures Bracketed(a, color, o, d) == Bracketed(b, color, o, d)
    ensures RunFlips(a, color, o, d) == RunFlips(b, color, o, d)
    ensures forall p :: InRun(a, color, o, d, p) == InRun(b, color, o, d, p)
  {
    ScanRunAgree(a, b, o, d, Opp(color), 1);
  }

  /** Writing at o itself changes none of the eight rays leaving o. */
  lemma OriginOffRays(a: Board, b: Board, o: Square, d: Direction)
    requires WellFormed(a) && WellFormed(b) && a.size == b.size
    requires forall q :: Inside(a.size, q) && q != o ==> Get(a, q) == Get(b, q)
    ensures RayAgrees(a, b, o, d)
  {
    forall t | t >= 1 && Inside(a.size, Pos(o, d, t))
      ensures Get(a, Pos(o, d, t)) == Get(b, Pos(o, d, t))
    {
      PosDistinct(o, d, t, 0);
    }
  }

  /** Boards that agree on every ray from o capture the same squares and flip as many pieces. */
  lemma {:induction false} FlipsAgree(a: Board, b: Board, color: Color, o: Square, t: nat)
    requires WellFormed(a) && WellFormed(b) && a.size == b.size && Inside(a.size, o) && t <= 8
    requires forall d :: RayAgrees(a, b, o, d)
    ensures FlipsBefore(a, color, o, t) == FlipsBefore(b, color, o, t)
  {
    if t > 0 {
      FlipsAgree(a, b, color, o, t - 1);
      ScansAgree(a, b, color, o, DirectionOf(t - 1));
    }
  }

  /** A square on the ray of d lies in the run of direction e only when e is d. */
  lemma RunOwner(b: Board, color: Color, o: Square, d: Direction, e: Direction, s: int)
    requires WellFormed(b) && Inside(b.size, o) && s >= 1
    ensures InRun(b, color, o, e, Pos(o, d, s)) ==> e == d
  {
    var p := Pos(o, d, s);
    if InRun(b, color, o, e, p) {
      RaysDisjoint(o, d, e, s, RayIndex(o, e, p));
    }
  }

  /** Every captured square held the opponent's colour: the flips never meet an empty square
      or one of the mover's own pieces. */
  lemma CapturedHeldOpponent(b: Board, color: Color, o: Square, p: Square)
    requires WellFormed(b) && Inside(b.size, o) && Captured(b, color, o, p)
    ensures Inside(b.size, p) && Get(b, p) == Opp(color)
  {
    var d :| InRun(b, color, o, d, p);
    var n := RunEnd(b, o, d, Opp(color));
    assert p == Pos(o, d, RayIndex(o, d, p));
  }

  /** The bracketing square of a captured run is not itself captured (in any direction). */
  lemma BracketNotCaptured(b: Board, color: Color, o: Square, d: Direction)
    requires WellFormed(b) && Inside(b.size, o) && Bracketed(b, color, o, d)
    ensures !Captured(b, color, o, Pos(o, d, RunEnd(b, o, d, Opp(color))))
  {
    var n := RunEnd(b, o, d, Opp(color));
    var q := Pos(o, d, n);
    forall e ensures !InRun(b, color, o, e, q) {
      RunOwner(b, color, o, d, e, n);
      RayIndexOfPos(o, d, n);
    }
  }

  lemma CapturedBeforeStep(b: Board, color: Color, o: Square, t: nat, p: Square)
    requires WellFormed(b) && Inside(b.size, o) && t < 8
    ensures CapturedBefore(b, color, o, t + 1, p) <==>
      CapturedBefore(b, color, o, t, p) || InRun(b, color, o, DirectionOf(t), p)
  {
    if CapturedBefore(b, color, o, t + 1, p) {
      var e :| Ordinal(e) < t + 1 && InRun(b, color, o, e, p);
      DirectionOfOrdinal(e);
    }
  }

  // ----- the flip loop -----------------------------------------------------------------

  /** Every square from step lo up to (not including) step n from o in direction d is on the
      board and holds the opponent's colour. */
  ghost predicate OpponentRun(b: Board, o: Square, d: Direction, lo: int, n: int, color: Color)
    requires WellFormed(b)
  {
    forall t :: lo <= t < n ==> Inside(b.size, Pos(o, d, t)) && Get(b, Pos(o, d, t)) == Opp(color)
  }

  /** Turning the first square of an opponent run to `color` leaves the rest of the run. */
  lemma OpponentRunTail(b: Board, o: Square, d: Direction, lo: int, n: int, color: Color)
    requires WellFormed(b) && lo < n && OpponentRun(b, o, d, lo, n, color)
    ensures OpponentRun(Set(b, Pos(o, d, lo), color), o, d, lo + 1, n, color)
  {
    forall t | lo + 1 <= t < n
      ensures Get(Set(b, Pos(o, d, lo), color), Pos(o, d, t)) == Opp(color)
    {
      PosDistinct(o, d, t, lo);
    }
  }

  /** A segment of a ray is its first square plus the rest of the segment. */
  lemma SegmentSplit(o: Square, d: Direction, lo: int, n: int, q: Square)
    requires lo < n
    ensures OnSegment(o, d, lo, n, q) <==> q == Pos(o, d, lo) || OnSegment(o, d, lo + 1, n, q)
  {
    RayIndexOfPos(o, d, lo);
  }

  /** The walk in UpdateFrom only passes over opponent pieces: every square before the step
      where it stops holds the opponent's colour. */
  lemma WalkCrossesOpponent(b: Board, color: Color, o: Square, d: Direction)
    requires WellFormed(b) && Inside(b.size, o)
    ensures OpponentRun(b, o, d, 1, RunEnd(b, o, d, Opp(color)), color)
  {
  }

  /** On an opponent run the flip loop succeeds. */
  lemma {:induction false} FlipRunSucceeds(g: Game, o: Square, d: Direction, lo: nat, n: nat, color: Color)
    requires Valid(g) && 1 <= lo <= n
    requires Inside(g.board.size, Pos(o, d, lo)) && Inside(g.board.size, Pos(o, d, n))
    requires OpponentRun(g.board, o, d, lo, n, color)
    ensures FlipRun(g, o, d, lo, n, color).Success?
    decreases n - lo
  {
    hide FlipRun;
    if lo < n {
      FlipRunStep(g, o, d, lo, n, color);
      OpponentRunTail(g.board, o, d, lo, n, color);
      FlipRunSucceeds(Game(Transfer(g.players, color), g.turn, Set(g.board, Pos(o, d, lo), color)), o, d, lo + 1, n, color);
    }
  }

  /** On an opponent run the flip loop turns square q to `color` exactly when q lies on the
      run, and leaves it alone otherwise. */
  lemma {:induction false} FlipRunBoard(g: Game, o: Square, d: Direction, lo: nat, n: nat, color: Color, q: Square)
    requires Valid(g) && 1 <= lo <= n && Inside(g.board.size, q)
    requires Inside(g.board.size, Pos(o, d, lo)) && Inside(g.board.size, Pos(o, d, n))
    requires OpponentRun(g.board, o, d, lo, n, color)
    ensures FlipRun(g, o, d, lo, n, color).Success?
    ensures Get(FlipRun(g, o, d, lo, n, color).value.board, q) == if OnSegment(o, d, lo, n, q) then color else Get(g.board, q)
    decreases n - lo
  {
    hide FlipRun;
    if lo < n {
      var h := Game(Transfer(g.players, color), g.turn, Set(g.board, Pos(o, d, lo), color));
      FlipRunStep(g, o, d, lo, n, color);
      OpponentRunTail(g.board, o, d, lo, n, color);
      FlipRunBoard(h, o, d, lo + 1, n, color, q);
      SegmentSplit(o, d, lo, n, q);
    }
  }

  /** On an opponent run the flip loop moves one point per flipped square to the holder of
      `color`, taking it from the other player. */
  lemma {:induction false} FlipRunScores(g: Game, o: Square, d: Direction, lo: nat, n: nat, color: Color, k: nat)
    requires Valid(g) && 1 <= lo <= n && k < 2
    requires Inside(g.board.size, Pos(o, d, lo)) && Inside(g.board.size, Pos(o, d, n))
    requires OpponentRun(g.board, o, d, lo, n, color)
    ensures FlipRun(g, o, d, lo, n, color).Success?
    ensures FlipRun(g, o, d, lo, n, color).value.players[k].score ==
      g.players[k].score + Share(g.players[k].color, color, n - lo)
    decreases n - lo
  {
    hide FlipRun;
    if lo < n {
      var h := Game(Transfer(g.players, color), g.turn, Set(g.board, Pos(o, d, lo), color));
      FlipRunStep(g, o, d, lo, n, color);
      OpponentRunTail(g.board, o, d, lo, n, color);
      FlipRunScores(h, o, d, lo + 1, n, color, k);
      TransferMovesOnePoint(g.players, color);
    }
  }

  /** The run branch of Game.change: when the squares from the start up to the end hold the
      opponent's colour, change succeeds, turns exactly those squares to `color`, leaves every
      other square alone, and moves one point per flipped square. */
  lemma ChangeFlipsRun(g: Game, d: Direction, o: Square, n: nat, color: Color, q: Square, k: nat)
    requires Valid(g) && n >= 2 && Inside(g.board.size, q) && k < 2
    requires Inside(g.board.size, Pos(o, d, 1)) && Inside(g.board.size, Pos(o, d, n))
    requires OpponentRun(g.board, o, d, 1, n, color)
    ensures Change(g, d, o, n, color).Success?
    ensures Get(Change(g, d, o, n, color).value.board, q) == if OnSegment(o, d, 1, n, q) then color else Get(g.board, q)
    ensures Change(g, d, o, n, color).value.players[k].score == g.players[k].score + Share(g.players[k].color, color, n - 1)
  {
    hide FlipRun;
    assert Change(g, d, o, n, color) == FlipRun(g, o, d, 1, n, color);
    FlipRunBoard(g, o, d, 1, n, color, q);
    FlipRunScores(g, o, d, 1, n, color, k);
  }

  /** Moving no points leaves the scores as they are. */
  lemma ShiftNone(g: Game, color: Color)
    requires |g.players| == 2
    ensures ShiftedBy(g, g, color, 0)
  {
  }

  /** Shifts by f and then by f' add up, as long as the players keep their colours. */
  lemma ShiftCompose(g: Game, h: Game, k: Game, color: Color, f: int, f': int)
    requires |g.players| == 2 && |h.players| == 2 && |k.players| == 2
    requires h.players[0].color == g.players[0].color && h.players[1].color == g.players[1].color
    requires ShiftedBy(g, h, color, f) && ShiftedBy(h, k, color, f')
    ensures ShiftedBy(g, k, color, f + f')
  {
  }

  /** One flip of an opponent piece keeps scores equal to piece counts. */
  lemma FlipKeepsScoresMatched(g: Game, p: Square, color: Color)
    requires Valid(g) && Inside(g.board.size, p) && Get(g.board, p) == Opp(color) && ScoresMatch(g)
    ensures ScoresMatch(Game(Transfer(g.players, color), g.turn, Set(g.board, p, color)))
  {
    TransferMovesOnePoint(g.players, color);
    DistinctColorsAreOpposite(g.players[0].color, g.players[1].color);
    SetCount(g.board, p, color, color);
    SetCount(g.board, p, color, Opp(color));
  }

  /** On an opponent run the flip loop keeps scores equal to piece counts. */
  lemma {:induction false} FlipRunKeepsScoresMatched(g: Game, o: Square, d: Direction, lo: nat, n: nat, color: Color)
    requires Valid(g) && 1 <= lo <= n
    requires Inside(g.board.size, Pos(o, d, lo)) && Inside(g.board.size, Pos(o, d, n))
    requires OpponentRun(g.board, o, d, lo, n, color) && ScoresMatch(g)
    ensures FlipRun(g, o, d, lo, n, color).Success?
    ensures ScoresMatch(FlipRun(g, o, d, lo, n, color).value)
    decreases n - lo
  {
    hide FlipRun;
    if lo < n {
      var h := Game(Transfer(g.players, color), g.turn, Set(g.board, Pos(o, d, lo), color));
      FlipRunStep(g, o, d, lo, n, color);
      OpponentRunTail(g.board, o, d, lo, n, color);
      FlipKeepsScoresMatched(g, Pos(o, d, lo), color);
      FlipRunKeepsScoresMatched(h, o, d, lo + 1, n, color);
    }
  }

  // ----- the direction loop ------------------------------------------------------------------

  /** After the first t directions the board is b1 with exactly the runs of those directions,
      as scanned on b1, turned to `color`. */
  ghost predicate Resolved(b1: Board, color: Color, o: Square, t: nat, b: Board)
    requires WellFormed(b1) && Inside(b1.size, o)
  {
    && WellFormed(b)
    && b.size == b1.size
    && forall p :: Inside(b1.size, p) ==>
         Get(b, p) == if CapturedBefore(b1, color, o, t, p) then color else Get(b1, p)
  }

  /** The directions before t flipped nothing on the ray of direction t. */
  lemma UntouchedRay(b1: Board, b: Board, color: Color, o: Square, t: nat)
    requires WellFormed(b1) && Inside(b1.size, o) && t < 8 && Resolved(b1, color, o, t, b)
    ensures RayAgrees(b, b1, o, DirectionOf(t))
  {
    var d := DirectionOf(t);
    forall s | s >= 1 && Inside(b1.size, Pos(o, d, s))
      ensures Get(b, Pos(o, d, s)) == Get(b1, Pos(o, d, s))
    {
      forall e | Ordinal(e) < t ensures !InRun(b1, color, o, e, Pos(o, d, s)) {
        RunOwner(b1, color, o, d, e, s);
      }
    }
  }

  /** A bracketed direction hands change a run of at least two steps whose ends are on the
      board, so change runs its loop over the squares strictly between o and the bracket. */
  lemma ResolveDirectionFlips(g: Game, color: Color, o: Square, d: Direction)
    requires Valid(g) && Inside(g.board.size, o) && color == WhosTurn(g) && Bracketed(g.board, color, o, d)
    ensures var n := RunEnd(g.board, o, d, Opp(color));
      && Inside(g.board.size, Pos(o, d, 1)) && Inside(g.board.size, Pos(o, d, n))
      && OpponentRun(g.board, o, d, 1, n, color)
      && ResolveDirection(g, color, o, d) == FlipRun(g, o, d, 1, n, color)
  {
    WalkCrossesOpponent(g.board, color, o, d);
  }

  /** One pass of the direction loop, seen at square p: the pass succeeds and p ends up turned
      exactly when it is captured in one of the directions so far. */
  lemma ResolveDirectionBoard(b1: Board, g: Game, color: Color, o: Square, t: nat, p: Square)
    requires Valid(g) && WellFormed(b1) && g.board.size == b1.size && Inside(b1.size, o) && t < 8
    requires color == WhosTurn(g) && Resolved(b1, color, o, t, g.board) && Inside(b1.size, p)
    ensures ResolveDirection(g, color, o, DirectionOf(t)).Success?
    ensures Get(ResolveDirection(g, color, o, DirectionOf(t)).value.board, p) ==
      if CapturedBefore(b1, color, o, t + 1, p) then color else Get(b1, p)
  {
    hide ResolveDirection, FlipRun;
    var d := DirectionOf(t);
    UntouchedRay(b1, g.board, color, o, t);
    ScansAgree(g.board, b1, color, o, d);
    CapturedBeforeStep(b1, color, o, t, p);
    if Bracketed(g.board, color, o, d) {
      ResolveDirectionFlips(g, color, o, d);
      FlipRunBoard(g, o, d, 1, RunEnd(g.board, o, d, Opp(color)), color, p);
    }
  }

  /** One pass of the direction loop keeps the invariant, with one more direction resolved. */
  lemma ResolveDirectionResolved(b1: Board, g: Game, color: Color, o: Square, t: nat)
    requires Valid(g) && WellFormed(b1) && g.board.size == b1.size && Inside(b1.size, o) && t < 8
    requires color == WhosTurn(g) && Resolved(b1, color, o, t, g.board)
    ensures ResolveDirection(g, color, o, DirectionOf(t)).Success?
    ensures Resolved(b1, color, o, t + 1, ResolveDirection(g, color, o, DirectionOf(t)).value.board)
  {
    hide ResolveDirection;
    ResolveDirectionBoard(b1, g, color, o, t, o);
    forall p | Inside(b1.size, p)
      ensures Get(ResolveDirection(g, color, o, DirectionOf(t)).value.board, p) ==
        if CapturedBefore(b1, color, o, t + 1, p) then color else Get(b1, p)
    {
      ResolveDirectionBoard(b1, g, color, o, t, p);
    }
  }

  /** One pass of the direction loop, seen at player k: the score moves by the number of
      pieces that direction flips, as scanned on b1. */
  lemma ResolveDirectionScore(b1: Board, g: Game, color: Color, o: Square, t: nat, k: nat)
    requires Valid(g) && WellFormed(b1) && g.board.size == b1.size && Inside(b1.size, o) && t < 8 && k < 2
    requires color == WhosTurn(g) && Resolved(b1, color, o, t, g.board)
    ensures ResolveDirection(g, color, o, DirectionOf(t)).Success?
    ensures ResolveDirection(g, color, o, DirectionOf(t)).value.players[k].score ==
      g.players[k].score + Share(g.players[k].color, color, RunFlips(b1, color, o, DirectionOf(t)))
  {
    hide ResolveDirection, FlipRun;
    var d := DirectionOf(t);
    UntouchedRay(b1, g.board, color, o, t);
    ScansAgree(g.board, b1, color, o, d);
    if Bracketed(g.board, color, o, d) {
      ResolveDirectionFlips(g, color, o, d);
      FlipRunScores(g, o, d, 1, RunEnd(g.board, o, d, Opp(color)), color, k);
    }
  }

  /** One pass of the direction loop moves as many points as that direction flips pieces. */
  lemma ResolveDirectionShift(b1: Board, g: Game, color: Color, o: Square, t: nat)
    requires Valid(g) && WellFormed(b1) && g.board.size == b1.size && Inside(b1.size, o) && t < 8
    requires color == WhosTurn(g) && Resolved(b1, color, o, t, g.board)
    ensures ResolveDirection(g, color, o, DirectionOf(t)).Success?
    ensures ShiftedBy(g, ResolveDirection(g, color, o, DirectionOf(t)).value, color, RunFlips(b1, color, o, DirectionOf(t)))
  {
    hide ResolveDirection;
    ResolveDirectionScore(b1, g, color, o, t, 0);
    ResolveDirectionScore(b1, g, color, o, t, 1);
  }

  /** One pass of the direction loop keeps scores equal to piece counts. */
  lemma ResolveDirectionKeepsScoresMatched(g: Game, color: Color, o: Square, d: Direction)
    requires Valid(g) && Inside(g.board.size, o) && color == WhosTurn(g) && ScoresMatch(g)
    ensures ResolveDirection(g, color, o, d).Success?
    ensures ScoresMatch(ResolveDirection(g, color, o, d).value)
  {
    hide ResolveDirection, FlipRun;
    if Bracketed(g.board, color, o, d) {
      ResolveDirectionFlips(g, color, o, d);
      FlipRunKeepsScoresMatched(g, o, d, 1, RunEnd(g.board, o, d, Opp(color)), color);
    }
  }

  /** A pass of the direction loop that succeeds hands over to the next pass. */
  lemma ResolveFromUnfold(g: Game, color: Color, o: Square, t: nat)
    requires Valid(g) && Inside(g.board.size, o) && t < 8
    requires ResolveDirection(g, color, o, DirectionOf(t)).Success?
    ensures ResolveFrom(g, color, o, t) == ResolveFrom(ResolveDirection(g, color, o, DirectionOf(t)).value, color, o, t + 1)
  {
  }

  /** The direction loop from pass t on succeeds, and the final board turns exactly the runs
      of all eight directions, as scanned on b1. */
  lemma {:induction false} ResolveFromResolved(b1: Board, g: Game, color: Color, o: Square, t: nat)
    requires Valid(g) && WellFormed(b1) && g.board.size == b1.size && Inside(b1.size, o) && t <= 8
    requires color == WhosTurn(g) && Resolved(b1, color, o, t, g.board)
    ensures ResolveFrom(g, color, o, t).Success?
    ensures Resolved(b1, color, o, 8, ResolveFrom(g, color, o, t).value.board)
    decreases 8 - t
  {
    hide ResolveFrom, ResolveDirection, Resolved;
    if t < 8 {
      ResolveDirectionResolved(b1, g, color, o, t);
      ResolveFromUnfold(g, color, o, t);
      ResolveFromResolved(b1, ResolveDirection(g, color, o, DirectionOf(t)).value, color, o, t + 1);
    }
  }

  /** The direction loop from pass t on moves one point per piece flipped in passes t to 7. */
  lemma {:induction false} ResolveFromShift(b1: Board, g: Game, color: Color, o: Square, t: nat)
    requires Valid(g) && WellFormed(b1) && g.board.size == b1.size && Inside(b1.size, o) && t <= 8
    requires color == WhosTurn(g) && Resolved(b1, color, o, t, g.board)
    ensures ResolveFrom(g, color, o, t).Success?
    ensures ShiftedBy(g, ResolveFrom(g, color, o, t).value, color, FlipsBefore(b1, color, o, 8) - FlipsBefore(b1, color, o, t))
    decreases 8 - t
  {
    hide ResolveFrom, ResolveDirection, Resolved, ShiftedBy, FlipsBefore;
    if t < 8 {
      ResolveDirectionResolved(b1, g, color, o, t);
      ResolveDirectionShift(b1, g, color, o, t);
      var h := ResolveDirection(g, color, o, DirectionOf(t)).value;
      ResolveFromUnfold(g, color, o, t);
      ResolveFromShift(b1, h, color, o, t + 1);
      FlipsBeforeStep(b1, color, o, t);
      ShiftCompose(g, h, ResolveFrom(h, color, o, t + 1).value, color,
        RunFlips(b1, color, o, DirectionOf(t)), FlipsBefore(b1, color, o, 8) - FlipsBefore(b1, color, o, t + 1));
    } else {
      ShiftNone(g, color);
    }
  }

  /** The direction loop from pass t on keeps scores equal to piece counts. */
  lemma {:induction false} ResolveFromKeepsScoresMatched(g: Game, color: Color, o: Square, t: nat)
    requires Valid(g) && Inside(g.board.size, o) && t <= 8 && color == WhosTurn(g) && ScoresMatch(g)
    ensures ResolveFrom(g, color, o, t).Success?
    ensures ScoresMatch(ResolveFrom(g, color, o, t).value)
    decreases 8 - t
  {
    hide ResolveFrom, ResolveDirection, Resolved;
    if t < 8 {
      ResolveDirectionKeepsScoresMatched(g, color, o, DirectionOf(t));
      ResolveFromUnfold(g, color, o, t);
      ResolveFromKeepsScoresMatched(ResolveDirection(g, color, o, DirectionOf(t)).value, color, o, t + 1);
    }
  }

  /** The flip count of the first t + 1 directions adds direction t's count to the first t. */
  lemma FlipsBeforeStep(b: Board, color: Color, o: Square, t: nat)
    requires WellFormed(b) && Inside(b.size, o) && t < 8
    ensures FlipsBefore(b, color, o, t + 1) == FlipsBefore(b, color, o, t) + RunFlips(b, color, o, DirectionOf(t))
  {
  }

  /** Before the first pass the invariant holds of the starting board itself. */
  lemma ResolvedStart(b: Board, color: Color, o: Square)
    requires WellFormed(b) && Inside(b.size, o)
    ensures Resolved(b, color, o, 0, b)
  {
  }

  /** After all eight passes the invariant names exactly the captured squares. */
  lemma ResolvedEnd(b1: Board, color: Color, o: Square, b: Board, p: Square)
    requires WellFormed(b1) && Inside(b1.size, o) && Resolved(b1, color, o, 8, b) && Inside(b1.size, p)
    ensures Get(b, p) == if Captured(b1, color, o, p) then color else Get(b1, p)
  {
    CapturedBeforeAll(b1, color, o, p);
  }

  /** Captured by one of the directions at loop positions 0 to 7 is the same as captured: every
      direction has a position below eight. */
  lemma CapturedBeforeAll(b: Board, color: Color, o: Square, p: Square)
    requires WellFormed(b) && Inside(b.size, o)
    ensures CapturedBefore(b, color, o, 8, p) == Captured(b, color, o, p)
  {
  }

  /** Game.UpdateFrom, run by the player whose turn it is, succeeds; it turns to the mover's
      colour exactly the squares captured in some direction (all directions scanning the
      board it started from), leaves every other square alone, moves one point per flipped
      piece from the opponent to the mover, and keeps scores equal to piece counts. */
  lemma UpdateFromCaptures(g: Game, color: Color, row: nat, col: nat)
    requires Valid(g) && row < g.board.size && col < g.board.size && color == WhosTurn(g)
    ensures UpdateFrom(g, color, row, col).Success?
    ensures forall p :: Inside(g.board.size, p) ==>
      Get(UpdateFrom(g, color, row, col).value.board, p) ==
        if Captured(g.board, color, (row, col), p) then color else Get(g.board, p)
    ensures ShiftedBy(g, UpdateFrom(g, color, row, col).value, color, Flips(g.board, color, (row, col)))
    ensures ScoresMatch(g) ==> ScoresMatch(UpdateFrom(g, color, row, col).value)
  {
    hide UpdateFrom, ResolveFrom, Resolved;
    var o := (row, col);
    UpdateFromUnfold(g, color, row, col);
    ResolvedStart(g.board, color, o);
    ResolveFromResolved(g.board, g, color, o, 0);
    ResolveFromShift(g.board, g, color, o, 0);
    if ScoresMatch(g) {
      ResolveFromKeepsScoresMatched(g, color, o, 0);
    }
    forall p | Inside(g.board.size, p)
      ensures Get(UpdateFrom(g, color, row, col).value.board, p) ==
        if Captured(g.board, color, o, p) then color else Get(g.board, p)
    {
      ResolvedEnd(g.board, color, o, ResolveFrom(g, color, o, 0).value.board, p);
    }
  }

  // ----- a whole turn ----------------------------------------------------------------------

  /** The placement at o changes no ray leaving o, so the board before and after it capture
      the same squares and flip the same number of pieces. */
  lemma PlacementInvisibleToScan(b: Board, b1: Board, color: Color, o: Square)
    requires WellFormed(b) && WellFormed(b1) && b.size == b1.size && Inside(b.size, o)
    requires forall q :: Inside(b.size, q) && q != o ==> Get(b1, q) == Get(b, q)
    ensures forall p :: Captured(b1, color, o, p) == Captured(b, color, o, p)
    ensures Flips(b1, color, o) == Flips(b, color, o)
  {
    forall d ensures RayAgrees(b1, b, o, d) {
      OriginOffRays(b1, b, o, d);
    }
    forall d, p ensures InRun(b1, color, o, d, p) == InRun(b, color, o, d, p) {
      ScansAgree(b1, b, color, o, d);
    }
    FlipsAgree(b1, b, color, o, 8);
  }

  /** The board after Game.TakeTurn on an empty square: the placed square and every captured
      square hold the mover's colour, and every other square (the bracketing pieces and
      everything beyond them included) is unchanged. */
  lemma TakeTurnBoard(g: Game, row: nat, col: nat)
    requires Valid(g) && row < g.board.size && col < g.board.size && Get(g.board, (row, col)) == Empty
    ensures TakeTurn(g, row, col).Success?
    ensures forall p :: Inside(g.board.size, p) ==>
      Get(TakeTurn(g, row, col).value.board, p) ==
        if p == (row, col) || Captured(g.board, WhosTurn(g), (row, col), p) then WhosTurn(g) else Get(g.board, p)
  {
    hide TakeTurn, UpdateFrom;
    var g1 := PlaceAndCredit(g, row, col).value;
    PlacementInvisibleToScan(g.board, g1.board, WhosTurn(g), (row, col));
    UpdateFromCaptures(g1, WhosTurn(g), row, col);
    TakeTurnUnfold(g, row, col);
  }

  /** The scores after Game.TakeTurn on an empty square: the mover gains one point for the
      placed piece and one per flipped piece; the opponent loses one per flipped piece. */
  lemma TakeTurnScores(g: Game, row: nat, col: nat)
    requires Valid(g) && row < g.board.size && col < g.board.size && Get(g.board, (row, col)) == Empty
    ensures TakeTurn(g, row, col).Success?
    ensures TakeTurn(g, row, col).value.players[g.turn].score ==
      g.players[g.turn].score + 1 + Flips(g.board, WhosTurn(g), (row, col))
    ensures TakeTurn(g, row, col).value.players[1 - g.turn].score ==
      g.players[1 - g.turn].score - Flips(g.board, WhosTurn(g), (row, col))
  {
    hide TakeTurn, UpdateFrom;
    var g1 := PlaceAndCredit(g, row, col).value;
    PlacementInvisibleToScan(g.board, g1.board, WhosTurn(g), (row, col));
    UpdateFromCaptures(g1, WhosTurn(g), row, col);
    TakeTurnUnfold(g, row, col);
  }

  /** Game.TakeTurn keeps each score equal to the number of squares of that player's colour. */
  lemma TakeTurnKeepsScoresMatched(g: Game, row: nat, col: nat)
    requires Valid(g) && ScoresMatch(g)
    requires row < g.board.size && col < g.board.size && Get(g.board, (row, col)) == Empty
    ensures TakeTurn(g, row, col).Success?
    ensures ScoresMatch(TakeTurn(g, row, col).value)
  {
    hide TakeTurn, UpdateFrom;
    var g1 := PlaceAndCredit(g, row, col).value;
    PlaceCount(g.board, WhosTurn(g), row, col, WhosTurn(g));
    PlaceCount(g.board, WhosTurn(g), row, col, Opp(WhosTurn(g)));
    DistinctColorsAreOpposite(g.players[0].color, g.players[1].color);
    assert g1.board == Place(g.board, WhosTurn(g), row, col).value;
    assert ScoresMatch(g1);
    UpdateFromCaptures(g1, WhosTurn(g), row, col);
    TakeTurnUnfold(g, row, col);
  }

  /** A placement that brackets nothing is still accepted: only the placed square changes and
      only the mover's score moves, by one. */
  lemma PermissivePlacement(g: Game, row: nat, col: nat)
    requires Valid(g) && row < g.board.size && col < g.board.size && Get(g.board, (row, col)) == Empty
    requires forall d :: !Bracketed(g.board, WhosTurn(g), (row, col), d)
    ensures TakeTurn(g, row, col).Success?
    ensures forall p :: Inside(g.board.size, p) ==>
      Get(TakeTurn(g, row, col).value.board, p) == if p == (row, col) then WhosTurn(g) else Get(g.board, p)
    ensures TakeTurn(g, row, col).value.players[g.turn].score == g.players[g.turn].score + 1
    ensures TakeTurn(g, row, col).value.players[1 - g.turn].score == g.players[1 - g.turn].score
  {
    hide TakeTurn, UpdateFrom;
    TakeTurnBoard(g, row, col);
    TakeTurnScores(g, row, col);
    NoFlips(g.board, WhosTurn(g), (row, col), 8);
  }

  lemma {:induction false} NoFlips(b: Board, color: Color, o: Square, t: nat)
    requires WellFormed(b) && Inside(b.size, o) && t <= 8
    requires forall d :: !Bracketed(b, color, o, d)
    ensures FlipsBefore(b, color, o, t) == 0
  {
    if t > 0 {
      NoFlips(b, color, o, t - 1);
    }
  }

  /** The square that brackets a run keeps its piece through the turn. */
  lemma BracketKept(g: Game, row: nat, col: nat, d: Direction)
    requires Valid(g) && row < g.board.size && col < g.board.size && Get(g.board, (row, col)) == Empty
    requires Bracketed(g.board, WhosTurn(g), (row, col), d)
    ensures TakeTurn(g, row, col).Success?
    ensures var q := Pos((row, col), d, RunEnd(g.board, (row, col), d, Opp(WhosTurn(g))));
      Inside(g.board.size, q) && Get(TakeTurn(g, row, col).value.board, q) == WhosTurn(g)
  {
    hide TakeTurn, UpdateFrom;
    TakeTurnBoard(g, row, col);
    BracketNotCaptured(g.board, WhosTurn(g), (row, col), d);
    PosDistinct((row, col), d, RunEnd(g.board, (row, col), d, Opp(WhosTurn(g))), 0);
  }

  // ----- scores and piece counts --------------------------------------------------------------

  /** Players created with the engine's default score of 2 match the new board's counts. */
  lemma NewGameScoresMatch(players: seq<Player>, size: nat)
    requires |players| == 2 ==> players[0].color != players[1].color
    requires NewGame(players, size).Success?
    requires players[0].score == 2 && players[1].score == 2
    ensures ScoresMatch(NewGame(players, size).value)
  {
    NewBoardCount(size);
  }

  /** When scores match piece counts, the two scores add up to the number of pieces on the
      board, which is N² minus the empty squares. */
  lemma ScoreSumIsPieceCount(g: Game)
    requires Valid(g) && ScoresMatch(g)
    ensures g.players[0].score + g.players[1].score == Count(g.board, Black) + Count(g.board, White)
    ensures g.players[0].score + g.players[1].score == g.board.size * g.board.size - Count(g.board, Empty)
  {
    DistinctColorsAreOpposite(g.players[0].color, g.players[1].color);
    CountPartition(g.board);
  }

  /** Over any sequence of successful turns from a matching position, scores keep matching. */
  lemma {:induction false} PlayKeepsScoresMatched(g: Game, moves: seq<(nat, nat)>)
    requires Valid(g) && ScoresMatch(g) && PlayMoves(g, moves).Success?
    ensures ScoresMatch(PlayMoves(g, moves).value)
    decreases |moves|
  {
    hide TakeTurn;
    if |moves| > 0 {
      PlayMovesUnfold(g, moves);
      TakeTurnKeepsScoresMatched(g, moves[0].0, moves[0].1);
      PlayKeepsScoresMatched(TakeTurn(g, moves[0].0, moves[0].1).value, moves[1..]);
    }
  }
}
