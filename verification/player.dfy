/** A player: a colour and a running score (class Player). */
module Players {
  import opened Cells
  import opened Results

  datatype Player = Player(color: Color, score: int)

  /** Player.__init__: the colour must be Black or White; the engine's default score is 2. */
  function NewPlayer(color: Cell, score: int): (r: Result<Player>)
    ensures r.Success? <==> color != Empty
    ensures r.Failure? ==> r.error == InvalidColor
    ensures r.Success? ==> r.value.color == color && r.value.score == score
  {
    if color == Empty then Failure(InvalidColor) else Success(Player(color, score))
  }

  /** Player.IncreaseScore. */
  function IncreaseScore(p: Player, inc: int): (q: Player)
    ensures q.color == p.color
  {
    p.(score := p.score + inc)
  }

  /** Player.DecreaseScore. */
  function DecreaseScore(p: Player, dec: int): (q: Player)
    ensures q.color == p.color
  {
    p.(score := p.score - dec)
  }

  /** The score update of one flip to `color`: every player of that colour gains a point,
      every other player loses one. */
  function Transfer(players: seq<Player>, color: Color): (ps: seq<Player>)
    ensures |ps| == |players|
    ensures forall k :: 0 <= k < |ps| ==> ps[k].color == players[k].color
  {
    seq(|players|, k requires 0 <= k < |players| =>
      if players[k].color == color then IncreaseScore(players[k], 1) else DecreaseScore(players[k], 1))
  }

  /** One flip moves one point from the other colour to `color` and leaves the total unchanged
      when the two players hold distinct colours. */
  lemma TransferMovesOnePoint(players: seq<Player>, color: Color)
    requires |players| == 2 && players[0].color != players[1].color
    ensures forall k :: 0 <= k < 2 ==>
      Transfer(players, color)[k].score == players[k].score + (if players[k].color == color then 1 else -1)
    ensures Transfer(players, color)[0].score + Transfer(players, color)[1].score == players[0].score + players[1].score
  {
    DistinctColorsAreOpposite(players[0].color, players[1].color);
  }
}
