/** The game base class (game.py): a game session's id, its fixed player list and one score per player. */
module Games {

  /** What a game move leads to: `GameOverError(reason)` in the source becomes `Over(reason)`. */
  datatype Turn = Continue | Over(reason: string)

  class Game {
    const id: string
    const players: seq<string>
    var scores: seq<int>

    /** A game starts with every player's score at 0, one score per player, in player order. */
    constructor (id: string, players: seq<string>)
      ensures this.id == id && this.players == players
      ensures |scores| == |players|
      ensures forall i :: 0 <= i < |scores| ==> scores[i] == 0
    {
      this.id := id;
      this.players := players;
      scores := seq(|players|, _ => 0);
    }

    /** The display name of the base game is empty; no variant in this model overrides it. */
    function GetName(): (r: string)
      ensures |r| == 0
    {
      ""
    }

    /** The base game has nothing to set up. */
    method SetupGame()
      ensures unchanged(this)
    {
    }
  }
}
