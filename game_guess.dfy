/** The number-guessing game (game_guess.py): guess a secret from 1 to 10 in at most four tries, losing 10
    points for every wrong guess that does not end the game. */
module GuessGames {
  import opened Games

  class GuessGame {
    /** The part inherited from `Game`: id, players and scores. */
    const base: Game
    var score: int
    var secretNumber: int
    var guessLimit: int
    var guesses: seq<int>
    /** Whether `SetupGame` has run (before it, the guessing attributes do not exist in the source). */
    ghost var setUp: bool
    /** Whether some guess has already ended the game. */
    ghost var over: bool

    /** After setup the secret is in 1..10 and four guesses are allowed; until the game is over every guess
        so far was wrong and cost 10 points, and fewer guesses than the limit were made. */
    ghost predicate Valid()
      reads this
    {
      && setUp
      && 1 <= secretNumber <= 10
      && guessLimit == 4
      && (!over ==> score == 100 - 10 * |guesses| && |guesses| < guessLimit)
    }

    constructor (id: string, players: seq<string>)
      ensures fresh(base) && base.id == id && base.players == players
      ensures |base.scores| == |players| && forall i :: 0 <= i < |players| ==> base.scores[i] == 0
      ensures !setUp && !over
    {
      base := new Game(id, players);
      score, secretNumber, guessLimit, guesses := 0, 0, 0, [];
      setUp, over := false, false;
    }

    /** Start a round: 100 points, a secret drawn from 1..10 (any of them), four guesses, none made yet. */
    method SetupGame()
      modifies this
      ensures Valid() && !over
      ensures score == 100 && guessLimit == 4 && guesses == []
      ensures 1 <= secretNumber <= 10
    {
      score := 100;
      var secret :| 1 <= secret <= 10;
      secretNumber := secret;
      guessLimit := 4;
      guesses := [];
      setUp, over := true, false;
    }

    /** Record a guess, then decide: the secret ends the game (checked first, so a correct last guess still
        counts as guessed); otherwise reaching the limit ends it; otherwise the guess costs 10 points. */
    method MakeGuess(guess: int) returns (t: Turn)
      requires Valid()
      modifies this
      ensures Valid()
      ensures guesses == old(guesses) + [guess]
      ensures secretNumber == old(secretNumber) && guessLimit == old(guessLimit)
      ensures guess == secretNumber ==> t == Over("The number was guessed!") && score == old(score)
      ensures guess != secretNumber && |guesses| >= guessLimit ==> t == Over("Exceeded attempts.") && score == old(score)
      ensures guess != secretNumber && |guesses| < guessLimit ==> t == Continue && score == old(score) - 10
      ensures over == (old(over) || t.Over?)
      ensures !over ==> score >= 70
    {
      guesses := guesses + [guess];
      if guess == secretNumber {
        t := Over("The number was guessed!");
      } else if |guesses| >= guessLimit {
        t := Over("Exceeded attempts.");
      } else {
        score := score - 10;
        t := Continue;
      }
      over := over || t.Over?;
    }
  }
}
