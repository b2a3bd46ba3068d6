/**
 * The number-guessing game (Scripts/learning_c/guessing.c) and the program
 * that solves it by bisection (Scripts/learning_c/guess_solver.c).
 */
module Guessing {

  /** `Game`: the secret number and the number of guesses made so far. */
  class Game {
    var actual: int
    var guesses: int

    /**
     * `game_init`: `random` stands for the value of `rand()` after
     * `srand(time(0))`. C's `%` agrees with Dafny's here because both
     * operands are positive.
     */
    method Init(max: int, random: nat)
      requires max > 0
      modifies this
      ensures actual == random % max + 1 && guesses == 0
      ensures 1 <= actual <= max
    {
      actual := random % max + 1;
      guesses := 0;
    }

    /** `game_guess`: counts the guess and compares it with the secret. */
    method Guess(guess: int) returns (result: int)
      modifies this`guesses
      ensures guesses == old(guesses) + 1
      ensures result == 1 <==> guess > actual
      ensures result == -1 <==> guess < actual
      ensures result == 0 <==> guess == actual
    {
      guesses := guesses + 1;
      if guess > actual {
        return 1;
      } else if guess < actual {
        return -1;
      } else {
        return 0;
      }
    }
  }

  /** `RANGE`. */
  const Range: int := 1000

  function Pow2(k: nat): (r: nat)
    ensures r >= 1
  {
    if k == 0 then 1 else 2 * Pow2(k - 1)
  }

  lemma {:induction false} Pow2Grows(k: nat)
    requires k >= 10
    ensures Pow2(k) >= 1024
  {
    if k > 10 {
      Pow2Grows(k - 1);
    }
  }

  lemma MulLe(a: int, b: int, c: nat)
    requires a <= b
    ensures a * c <= b * c
  {
  }

  /** One miss at least halves the width of the interval still open. */
  lemma HalvedWidth(left: int, right: int, guess: int, left': int, right': int, k: nat)
    requires left <= guess <= right && guess == (right - left) / 2 + left
    requires (left' == left && right' == guess - 1) || (left' == guess + 1 && right' == right)
    requires (right - left + 1) * Pow2(k) <= Range + 1
    ensures (right' - left' + 1) * Pow2(k + 1) <= Range + 1
  {
    assert 2 * (right' - left' + 1) <= right - left + 1;
    MulLe(2 * (right' - left' + 1), right - left + 1, Pow2(k));
    assert (right' - left' + 1) * Pow2(k + 1) == 2 * (right' - left' + 1) * Pow2(k);
  }

  /**
   * The loop of `guess_solver.c`'s `main`: start in the middle of
   * [0, RANGE], move `right` below a guess that is too high and `left`
   * above one that is too low, and guess the middle again. The secret stays
   * inside [left, right], so the loop ends on it, after at most ten guesses.
   */
  method Solve(game: Game) returns (guess: int)
    requires 1 <= game.actual <= Range
    modifies game`guesses
    ensures guess == game.actual
    ensures old(game.guesses) < game.guesses <= old(game.guesses) + 10
  {
    var left := 0;
    var right := Range;
    guess := Range / 2;
    while true
      invariant left <= game.actual <= right
      invariant guess == (right - left) / 2 + left && left <= guess <= right
      invariant old(game.guesses) <= game.guesses
      invariant (right - left + 1) * Pow2(game.guesses - old(game.guesses)) <= Range + 1
      decreases right - left
    {
      var result := game.Guess(guess);
      var left', right' := left, right;
      if result > 0 {
        right' := guess - 1;
      } else if result < 0 {
        left' := guess + 1;
      } else {
        break;
      }
      HalvedWidth(left, right, guess, left', right', game.guesses - 1 - old(game.guesses));
      left, right := left', right';
      guess := (right - left) / 2 + left;
    }
    var misses := game.guesses - 1 - old(game.guesses);
    if misses >= 10 {
      Pow2Grows(misses);
      MulLe(1, right - left + 1, Pow2(misses));
    }
  }

  /** The whole solver program: a fresh game over [1, RANGE], solved in one to ten guesses. */
  method SolverMain(random: nat) returns (found: int, guesses: int)
    ensures found == random % Range + 1
    ensures 1 <= guesses <= 10
  {
    var game := new Game;
    game.Init(Range, random);
    found := Solve(game);
    guesses := game.guesses;
  }
}
