/**
 * The rock-paper-scissors session of rps_app.py: the winner relation, the
 * round recorder with its score counters and history, the reset and the
 * best-of-N threshold.
 */
module RockPaperScissors {

  datatype Choice = Rock | Paper | Scissors

  /** The three results decide_winner can give. */
  datatype Result = User | Computer | Tie

  /** The pairs (user, computer) in which the user wins. */
  const Wins: set<(Choice, Choice)> := {(Rock, Scissors), (Paper, Rock), (Scissors, Paper)}

  /**
   * decide_winner: a tie on equal choices, else a lookup in the winning
   * pairs. It agrees with the cyclic rule: each choice beats the one just
   * before it in Rock, Paper, Scissors, and a tie is exactly two equal
   * choices.
   */
  function DecideWinner(user: Choice, comp: Choice): (r: Result)
    ensures r == Tie <==> user == comp
    ensures r == User <==> (Rank(user) - Rank(comp) + 3) % 3 == 1
    ensures r == Computer <==> (Rank(comp) - Rank(user) + 3) % 3 == 1
  {
    if user == comp then Tie
    else if (user, comp) in Wins then User
    else Computer
  }

  /** The position of a choice in the cycle Rock, Paper, Scissors. */
  function Rank(c: Choice): int
  {
    match c
    case Rock => 0
    case Paper => 1
    case Scissors => 2
  }

  /** Swapping the two choices swaps the winner. */
  lemma DecideWinnerSwaps(a: Choice, b: Choice)
    requires a != b
    ensures DecideWinner(a, b) == User <==> DecideWinner(b, a) == Computer
  {
  }

  /** One entry of the history table; the choice columns hold the choices, Time is given. */
  datatype Round = Round(number: nat, time: string, user: Choice, comp: Choice, result: Result)

  /** How many rounds of the history ended with result w. */
  function CountResult(h: seq<Round>, w: Result): (r: nat)
    ensures r <= |h|
  {
    if |h| == 0 then 0
    else CountResult(h[..|h| - 1], w) + (if h[|h| - 1].result == w then 1 else 0)
  }

  /** The user's and the computer's wins together never exceed the number of rounds. */
  lemma {:induction false} WinsWithinRounds(h: seq<Round>)
    ensures CountResult(h, User) + CountResult(h, Computer) <= |h|
  {
    if |h| > 0 {
      WinsWithinRounds(h[..|h| - 1]);
    }
  }

  /** The wins needed in a best-of-n match: n // 2 + 1. */
  function WinsNeeded(n: nat): (r: nat)
    ensures 2 * r > n && 2 * (r - 1) <= n
  {
    n / 2 + 1
  }

  /** The game-type selectbox: no target, or best of 3, 5 or 7. */
  datatype GameType = Unlimited | BestOf(n: nat)

  datatype MatchStatus = Open | UserWonMatch | ComputerWonMatch

  /** The banner below the scoreboard: the user's reach is tested first. */
  function Status(target: GameType, userScore: nat, compScore: nat): (r: MatchStatus)
    ensures r == UserWonMatch <==> target.BestOf? && userScore >= WinsNeeded(target.n)
    ensures r == ComputerWonMatch <==>
              target.BestOf? && userScore < WinsNeeded(target.n) && compScore >= WinsNeeded(target.n)
  {
    match target
    case Unlimited => Open
    case BestOf(n) =>
      if userScore >= WinsNeeded(n) then UserWonMatch
      else if compScore >= WinsNeeded(n) then ComputerWonMatch
      else Open
  }

  /** Within n decided rounds at most one side can reach the wins needed in a best of n. */
  lemma AtMostOneSideReachesTarget(n: nat, userScore: nat, compScore: nat)
    requires userScore + compScore <= n
    ensures !(userScore >= WinsNeeded(n) && compScore >= WinsNeeded(n))
  {
  }

  /**
   * Play goes on after a side reaches the target, and scores only grow, so
   * the user's banner never goes away. The computer's banner gives way to
   * the user's once the user also reaches the target.
   */
  lemma UserBannerStays(target: GameType, u1: nat, c1: nat, u2: nat, c2: nat)
    requires u1 <= u2 && c1 <= c2
    ensures Status(target, u1, c1) == UserWonMatch ==> Status(target, u2, c2) == UserWonMatch
    ensures Status(target, u1, c1) == ComputerWonMatch ==> Status(target, u2, c2) != Open
  {
  }

  class Scoreboard {
    var userScore: nat
    var compScore: nat
    var rounds: nat
    var history: seq<Round>

    /**
     * The history holds one entry per round, numbered 1, 2, ... in order,
     * and the two scores are the counts of the results it records.
     */
    ghost predicate Valid()
      reads this
    {
      && |history| == rounds
      && (forall i :: 0 <= i < |history| ==> history[i].number == i + 1)
      && userScore == CountResult(history, User)
      && compScore == CountResult(history, Computer)
    }

    /** ensure_session: zero scores and rounds, empty history. */
    constructor ()
      ensures Valid()
      ensures userScore == 0 && compScore == 0 && rounds == 0 && history == []
    {
      userScore := 0;
      compScore := 0;
      rounds := 0;
      history := [];
    }

    /** add_round: one more round, scored for its winner, appended to the history. */
    method AddRound(user: Choice, comp: Choice, winner: Result, time: string)
      requires Valid()
      modifies this
      ensures Valid()
      ensures rounds == old(rounds) + 1
      ensures userScore == old(userScore) + (if winner == User then 1 else 0)
      ensures compScore == old(compScore) + (if winner == Computer then 1 else 0)
      ensures history == old(history) + [Round(rounds, time, user, comp, winner)]
      ensures userScore + compScore <= rounds
    {
      rounds := rounds + 1;
      if winner == User {
        userScore := userScore + 1;
      } else if winner == Computer {
        compScore := compScore + 1;
      }
      ghost var prev := history;
      history := history + [Round(rounds, time, user, comp, winner)];
      assert history[..|history| - 1] == prev;
      WinsWithinRounds(history);
    }

    /**
     * A choice button: the computer's random choice is given as `comp`,
     * the round is decided and recorded.
     */
    method Play(user: Choice, comp: Choice, time: string) returns (winner: Result)
      requires Valid()
      modifies this
      ensures Valid()
      ensures winner == DecideWinner(user, comp)
      ensures rounds == old(rounds) + 1
      ensures history == old(history) + [Round(rounds, time, user, comp, winner)]
      ensures userScore == old(userScore) + (if winner == User then 1 else 0)
      ensures compScore == old(compScore) + (if winner == Computer then 1 else 0)
    {
      winner := DecideWinner(user, comp);
      AddRound(user, comp, winner, time);
    }

    /** reset_game: zero scores and rounds, empty history. */
    method ResetGame()
      modifies this
      ensures Valid()
      ensures userScore == 0 && compScore == 0 && rounds == 0 && history == []
    {
      userScore := 0;
      compScore := 0;
      rounds := 0;
      history := [];
    }
  }
}
