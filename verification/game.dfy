/** Turn sequencing and the eight-direction capture algorithm (class Game). */
module Games {
  import opened Cells
  import opened Geometry
  import opened Results
  import opened Boards
  import opened Players

  /** Two players, the index of the player to move, and the board. The engine's `turncount`
      field is never updated and is left out. */
  datatype Game = Game(players: seq<Player>, turn: nat, board: Board)

  /** Exactly two players of distinct colours, a turn index that names one of them, and a
      well-formed board. */
  predicate Valid(g: Game) {
    && |g.players| == 2
    && g.turn < 2
    && g.players[0].color != g.players[1].color
    && WellFormed(g.board)
  }

  /** h has the same players (by colour), the same turn index and the same board size as g. */
  predicate SameSeats(g: Game, h: Game) {
    && |h.players| == |g.players|
    && (forall k :: 0 <= k < |g.players| ==> h.players[k].color == g.players[k].color)
    && h.turn == g.turn
    && h.board.size == g.board.size
  }

  /** Game.WhosTurn: the colour of the player whose turn it is. */
  function WhosTurn(g: Game): (c: Color)
    requires Valid(g)
    ensures c == g.players[g.turn].color
    ensures c == Opp(g.players[1 - g.turn].color)
  {
    g.players[g.turn].color
  }

  /** Game.__init__: exactly two players are required, then the board is built. The engine's
      default size is 4; the size is passed explicitly here. */
  function NewGame(players: seq<Player>, size: nat): (r: Result<Game>)
    requires |players| == 2 ==> players[0].color != players[1].color
    ensures r.Success? <==> |players| == 2 && size % 2 == 0 && size >= 2
    ensures |players| != 2 ==> r == Failure(WrongPlayerCount)
    ensures |players| == 2 && size % 2 != 0 ==> r == Failure(OddSize)
    ensures r.Success? ==> Valid(r.value) && r.value.players == players && r.value.turn == 0
    ensures r.Success? ==> r.value.board.size == size
    ensures r.Success? ==> forall p :: Inside(size, p) ==> Get(r.value.board, p) == StartCell(size, p)
  {
    if |players| != 2 then Failure(WrongPlayerCount)
    else
      var b :- NewBoard(size);
      Success(Game(players, 0, b))
  }

  // ----- the walk ---------------------------------------------------------------

  /** The walk of UpdateFrom: starting k steps from o, advance in direction d while the square
      is on the board and holds `from`; the result is the first step where that fails. */
  function ScanRun(b: Board, o: Square, d: Direction, from: Cell, k: nat): (n: nat)
    requires WellFormed(b) && Inside(b.size, o) && k <= b.size
    ensures k <= n <= b.size
    ensures forall t :: k <= t < n ==> Inside(b.size, Pos(o, d, t)) && Get(b, Pos(o, d, t)) == from
    ensures !(Inside(b.size, Pos(o, d, n)) && Get(b, Pos(o, d, n)) == from)
    decreases b.size - k
  {
    var p := Pos(o, d, k);
    if Inside(b.size, p) && Get(b, p) == from then
      StepBound(b.size, o, d, k);
      ScanRun(b, o, d, from, k + 1)
    else
      k
  }

  /** One step of the walk, for proofs that follow it square by square. */
  lemma ScanRunUnfold(b: Board, o: Square, d: Direction, from: Cell, k: nat)
    requires WellFormed(b) && Inside(b.size, o) && k <= b.size
    ensures ScanRun(b, o, d, from, k) ==
      if Inside(b.size, Pos(o, d, k)) && Get(b, Pos(o, d, k)) == from then ScanRun(b, o, d, from, k + 1) else k
  {
  }

  /** The step at which the walk from o in direction d over `from` pieces stops. */
  function RunEnd(b: Board, o: Square, d: Direction, from: Cell): (n: nat)
    requires WellFormed(b) && Inside(b.size, o)
    ensures 1 <= n
  {
    ScanRun(b, o, d, from, 1)
  }

  /** The capture test of UpdateFrom: the walk over the opponent's pieces moved at least once
      and stopped on an on-board square of the mover's colour. */
  predicate Bracketed(b: Board, color: Color, o: Square, d: Direction)
    requires WellFormed(b) && Inside(b.size, o)
  {
    var n := RunEnd(b, o, d, Opp(color));
    n >= 2 && Inside(b.size, Pos(o, d, n)) && Get(b, Pos(o, d, n)) == color
  }

  // ----- change -------------------------------------------------------------------

  /** The flip loop of Game.change: flip the squares at steps lo, lo + 1, ..., n - 1 from o in
      direction d, and after each flip give every player of `color` a point and take one from
      every other player. The loop stops when it reaches the end square at step n. */
  function FlipRun(g: Game, o: Square, d: Direction, lo: nat, n: nat, color: Color): (r: Result<Game>)
    requires Valid(g) && 1 <= lo <= n
    requires Inside(g.board.size, Pos(o, d, lo)) && Inside(g.board.size, Pos(o, d, n))
    ensures r.Success? ==> Valid(r.value) && SameSeats(g, r.value)
    ensures lo == n ==> r == Success(g)
    decreases n - lo
  {
    if lo == n then Success(g)
    else
      var p := Pos(o, d, lo);
      var b :- FlipPiece(g.board, p.0, p.1);
      RayConvex(g.board.size, o, d, lo, lo + 1, n);
      FlipRun(Game(Transfer(g.players, color), g.turn, b), o, d, lo + 1, n, color)
  }

  /** One pass of the flip loop over a square that holds the opponent's colour: the square
      turns to `color` and the score moves by one point. */
  lemma FlipRunStep(g: Game, o: Square, d: Direction, lo: nat, n: nat, color: Color)
    requires Valid(g) && 1 <= lo < n
    requires Inside(g.board.size, Pos(o, d, lo)) && Inside(g.board.size, Pos(o, d, n))
    requires Get(g.board, Pos(o, d, lo)) == Opp(color)
    ensures Inside(g.board.size, Pos(o, d, lo + 1))
    ensures FlipRun(g, o, d, lo, n, color) ==
      FlipRun(Game(Transfer(g.players, color), g.turn, Set(g.board, Pos(o, d, lo), color)), o, d, lo + 1, n, color)
  {
    RayConvex(g.board.size, o, d, lo, lo + 1, n);
    var p := Pos(o, d, lo);
    FlipPieceTurns(g.board, p.0, p.1);
  }

  /** Game.change, with the end square given as its step count n along d from o (the only form
      UpdateFrom produces). The start square is one step past o. Both must be on the board;
      when they coincide (n == 1) that single square is flipped, otherwise the loop flips the
      squares from the start up to but not including the end. */
  function Change(g: Game, d: Direction, o: Square, n: nat, color: Color): (r: Result<Game>)
    requires Valid(g) && n >= 1
    ensures r.Success? ==> Valid(r.value) && SameSeats(g, r.value)
    ensures !Inside(g.board.size, Pos(o, d, 1)) || !Inside(g.board.size, Pos(o, d, n)) ==> r == Failure(InvalidPosition)
  {
    var start := Pos(o, d, 1);
    var end := Pos(o, d, n);
    if !Inside(g.board.size, start) || !Inside(g.board.size, end) then Failure(InvalidPosition)
    else if n == 1 then
      var b :- FlipPiece(g.board, end.0, end.1);
      Success(Game(Transfer(g.players, color), g.turn, b))
    else
      FlipRun(g, o, d, 1, n, color)
  }

  /** The start == end branch of Game.change: an occupied start square turns to the opposite
      colour, one point moves to the holder of `color`, and nothing else changes; an empty start
      square fails with EmptyCell. UpdateFrom never takes this branch, because a bracketed run
      ends at least two steps from the origin. */
  lemma ChangeSinglePiece(g: Game, d: Direction, o: Square, color: Color)
    requires Valid(g) && Inside(g.board.size, Pos(o, d, 1))
    ensures Get(g.board, Pos(o, d, 1)) == Empty ==> Change(g, d, o, 1, color) == Failure(EmptyCell)
    ensures Get(g.board, Pos(o, d, 1)) != Empty ==>
      var r := Change(g, d, o, 1, color);
      && r.Success? && r.value.players == Transfer(g.players, color) && r.value.turn == g.turn
      && Get(r.value.board, Pos(o, d, 1)) == Opp(Get(g.board, Pos(o, d, 1)))
      && forall q :: Inside(g.board.size, q) && q != Pos(o, d, 1) ==> Get(r.value.board, q) == Get(g.board, q)
  {
  }

  // ----- UpdateFrom ---------------------------------------------------------------

  /** One iteration of the direction loop of UpdateFrom: walk, test, and on a bracketed run call
      change, which scores for the player whose turn it is. */
  function ResolveDirection(g: Game, color: Color, o: Square, d: Direction): (r: Result<Game>)
    requires Valid(g) && Inside(g.board.size, o)
    ensures r.Success? ==> Valid(r.value) && SameSeats(g, r.value)
    ensures !Bracketed(g.board, color, o, d) ==> r == Success(g)
  {
    if Bracketed(g.board, color, o, d) then
      Change(g, d, o, RunEnd(g.board, o, d, Opp(color)), WhosTurn(g))
    else
      Success(g)
  }

  /** The direction loop of UpdateFrom from loop position t on; each direction sees the board
      as the directions before it left it. */
  function ResolveFrom(g: Game, color: Color, o: Square, t: nat): (r: Result<Game>)
    requires Valid(g) && Inside(g.board.size, o) && t <= 8
    ensures r.Success? ==> Valid(r.value) && SameSeats(g, r.value)
    ensures t == 8 ==> r == Success(g)
    decreases 8 - t
  {
    if t == 8 then Success(g)
    else
      var h :- ResolveDirection(g, color, o, DirectionOf(t));
      ResolveFrom(h, color, o, t + 1)
  }

  /** Game.UpdateFrom: checks the colour and the position, then runs the direction loop. */
  function UpdateFrom(g: Game, color: Cell, row: nat, col: nat): (r: Result<Game>)
    requires Valid(g)
    ensures color == Empty ==> r == Failure(InvalidColor)
    ensures color != Empty && (row >= g.board.size || col >= g.board.size) ==> r == Failure(InvalidPosition)
    ensures r.Success? ==> Valid(r.value) && SameSeats(g, r.value)
  {
    if color == Empty then Failure(InvalidColor)
    else if row >= g.board.size || col >= g.board.size then Failure(InvalidPosition)
    else ResolveFrom(g, color, (row, col), 0)
  }

  /** On a square of the board, UpdateFrom with a colour is the direction loop from its start. */
  lemma UpdateFromUnfold(g: Game, color: Color, row: nat, col: nat)
    requires Valid(g) && row < g.board.size && col < g.board.size
    ensures UpdateFrom(g, color, row, col) == ResolveFrom(g, color, (row, col), 0)
  {
  }

  // ----- turns ----------------------------------------------------------------------

  /** The first half of Game.TakeTurn: place the mover's colour and give the mover a point
      for the placed piece. */
  function PlaceAndCredit(g: Game, row: nat, col: nat): (r: Result<Game>)
    requires Valid(g)
    ensures r.Success? <==> row < g.board.size && col < g.board.size && Get(g.board, (row, col)) == Empty
    ensures row >= g.board.size || col >= g.board.size ==> r == Failure(InvalidPosition)
    ensures row < g.board.size && col < g.board.size && Get(g.board, (row, col)) != Empty ==> r == Failure(OccupiedCell)
    ensures r.Success? ==> Valid(r.value) && SameSeats(g, r.value)
    ensures r.Success? ==> r.value.players[g.turn].score == g.players[g.turn].score + 1
    ensures r.Success? ==> r.value.players[1 - g.turn] == g.players[1 - g.turn]
    ensures r.Success? ==> Get(r.value.board, (row, col)) == WhosTurn(g)
    ensures r.Success? ==> forall q :: Inside(g.board.size, q) && q != (row, col) ==> Get(r.value.board, q) == Get(g.board, q)
  {
    var b :- Place(g.board, WhosTurn(g), row, col);
    Success(Game(g.players[g.turn := IncreaseScore(g.players[g.turn], 1)], g.turn, b))
  }

  /** The turn index after a completed turn. */
  function NextTurn(g: Game): (h: Game)
    requires Valid(g)
    ensures Valid(h) && h.turn == 1 - g.turn
    ensures h.players == g.players && h.board == g.board
  {
    g.(turn := (g.turn + 1) % 2)
  }

  /** Game.TakeTurn: place the mover's colour, give the mover a point for it, resolve captures,
      and pass the turn to the other player. */
  function TakeTurn(g: Game, row: nat, col: nat): (r: Result<Game>)
    requires Valid(g)
    ensures row >= g.board.size || col >= g.board.size ==> r == Failure(InvalidPosition)
    ensures row < g.board.size && col < g.board.size && Get(g.board, (row, col)) != Empty ==> r == Failure(OccupiedCell)
    ensures r.Success? ==> Valid(r.value) && r.value.turn == 1 - g.turn
    ensures r.Success? ==> |r.value.players| == 2 && r.value.board.size == g.board.size
    ensures r.Success? ==> forall k :: 0 <= k < 2 ==> r.value.players[k].color == g.players[k].color
    ensures r.Success? ==> WhosTurn(r.value) == g.players[1 - g.turn].color != WhosTurn(g)
  {
    var g1 :- PlaceAndCredit(g, row, col);
    var g2 :- UpdateFrom(g1, WhosTurn(g), row, col);
    Success(NextTurn(g2))
  }

  /** TakeTurn on a square where placement succeeds is UpdateFrom on the placed game, followed
      by passing the turn. */
  lemma TakeTurnUnfold(g: Game, row: nat, col: nat)
    requires Valid(g) && PlaceAndCredit(g, row, col).Success?
    requires UpdateFrom(PlaceAndCredit(g, row, col).value, WhosTurn(g), row, col).Success?
    ensures TakeTurn(g, row, col) == Success(NextTurn(UpdateFrom(PlaceAndCredit(g, row, col).value, WhosTurn(g), row, col).value))
  {
  }

  /** A sequence of turns, stopping at the first one that fails. */
  function PlayMoves(g: Game, moves: seq<(nat, nat)>): (r: Result<Game>)
    requires Valid(g)
    ensures r.Success? ==> Valid(r.value) && r.value.board.size == g.board.size
    ensures r.Success? ==> forall k :: 0 <= k < 2 ==> r.value.players[k].color == g.players[k].color
    decreases |moves|
  {
    if |moves| == 0 then Success(g)
    else
      var h :- TakeTurn(g, moves[0].0, moves[0].1);
      PlayMoves(h, moves[1..])
  }

  /** A non-empty sequence of turns that succeeds starts with a successful turn. */
  lemma PlayMovesUnfold(g: Game, moves: seq<(nat, nat)>)
    requires Valid(g) && |moves| > 0 && PlayMoves(g, moves).Success?
    ensures TakeTurn(g, moves[0].0, moves[0].1).Success?
    ensures PlayMoves(g, moves) == PlayMoves(TakeTurn(g, moves[0].0, moves[0].1).value, moves[1..])
  {
  }

  /** Turns alternate: after an even number of successful turns the turn index is back where
      it started, after an odd number it has passed to the other player. */
  lemma {:induction false} TurnsAlternate(g: Game, moves: seq<(nat, nat)>)
    requires Valid(g) && PlayMoves(g, moves).Success?
    ensures PlayMoves(g, moves).value.turn == if |moves| % 2 == 0 then g.turn else 1 - g.turn
    decreases |moves|
  {
    hide TakeTurn;
    if |moves| > 0 {
      PlayMovesUnfold(g, moves);
      TurnsAlternate(TakeTurn(g, moves[0].0, moves[0].1).value, moves[1..]);
      Parity(|moves|);
    }
  }

  lemma Parity(m: nat)
    requires m > 0
    ensures (m - 1) % 2 == 0 <==> m % 2 != 0
  {
  }

  /** From a new game (turn index 0), after k successful turns it is the turn of player k % 2. */
  lemma OpeningTurns(g: Game, moves: seq<(nat, nat)>)
    requires Valid(g) && g.turn == 0 && PlayMoves(g, moves).Success?
    ensures PlayMoves(g, moves).value.turn == |moves| % 2
    ensures WhosTurn(PlayMoves(g, moves).value) == g.players[|moves| % 2].color
  {
    TurnsAlternate(g, moves);
  }
}
