/** One round of the game (`playRound` in terminalgame/main.swift): the
    computer's draw, the outcome rule as the program writes it, and the score
    counters it bumps. */
module Round {
  import opened Actions

  /** The result of a round, from the player's side. */
  datatype Outcome = Win | Tie | Loss

  /** The enum's raw value (`Action: Int`, cases numbered in declaration order). */
  function RawValue(a: Action): (n: nat)
    ensures n < 4
    ensures a.IsMove() <==> n < 3
  {
    match a
    case Rock => 0
    case Paper => 1
    case Scissors => 2
    case Exit => 3
  }

  /** `Action(rawValue:)`: the action with a given raw value, if there is one. */
  function FromRaw(n: int): (r: Option<Action>)
    ensures r.Some? <==> 0 <= n < 4
    ensures r.Some? ==> RawValue(r.value) == n
  {
    if n == 0 then Some(Rock)
    else if n == 1 then Some(Paper)
    else if n == 2 then Some(Scissors)
    else if n == 3 then Some(Exit)
    else None
  }

  /** Raw values identify actions. */
  lemma RawRoundTrip(a: Action)
    ensures FromRaw(RawValue(a)) == Some(a)
  {
  }

  /** The computer's decision `Action(rawValue: Int.random(in: 0..<3))!` for a
      given draw: the force-unwrap never fails and the result is never exit. */
  function ComputerChoice(draw: int): (c: Action)
    requires 0 <= draw < 3
    ensures c.IsMove()
    ensures RawValue(c) == draw
  {
    FromRaw(draw).value
  }

  /** The three pairs the program counts as a win for the player. Rock is
      listed as beating both scissors and paper; paper beats nothing. Against
      the usual rule, the pair paper-rock is missing and rock-paper is added. */
  function WinPair(user: Action, computer: Action): (b: bool)
    ensures b ==> user != computer
    ensures b <==> (Beats(user, computer) && user != Paper) || (user, computer) == (Rock, Paper)
  {
    || (user == Rock && computer == Scissors)
    || (user == Rock && computer == Paper)
    || (user == Scissors && computer == Paper)
  }

  /** The outcome `playRound` reaches: win on a win pair, otherwise tie on
      equal actions, otherwise loss. */
  function Resolve(user: Action, computer: Action): (r: Outcome)
    ensures r == Win <==> WinPair(user, computer)
    ensures r == Tie <==> user == computer
  {
    if WinPair(user, computer) then Win
    else if user == computer then Tie
    else Loss
  }

  /** The usual rule, for reference: rock beats scissors, scissors beats
      paper, paper beats rock. */
  predicate Beats(x: Action, y: Action) {
    (x, y) in {(Rock, Scissors), (Scissors, Paper), (Paper, Rock)}
  }

  function StandardOutcome(user: Action, computer: Action): Outcome {
    if user == computer then Tie
    else if Beats(user, computer) then Win
    else Loss
  }

  /** The full table of outcomes over the nine pairs of moves. */
  lemma ResolveTable()
    ensures Resolve(Rock, Rock) == Tie
    ensures Resolve(Rock, Paper) == Win
    ensures Resolve(Rock, Scissors) == Win
    ensures Resolve(Paper, Rock) == Loss
    ensures Resolve(Paper, Paper) == Tie
    ensures Resolve(Paper, Scissors) == Loss
    ensures Resolve(Scissors, Rock) == Loss
    ensures Resolve(Scissors, Paper) == Win
    ensures Resolve(Scissors, Scissors) == Tie
  {
  }

  /** The remaining outcome: a loss exactly when the pair is neither a win
      pair nor two equal actions. */
  lemma ResolveCharacterised(user: Action, computer: Action)
    ensures Resolve(user, computer) == Loss <==> !WinPair(user, computer) && user != computer
  {
  }

  /** Against any move of the computer, rock never loses. */
  lemma RockNeverLoses(computer: Action)
    requires computer.IsMove()
    ensures Resolve(Rock, computer) != Loss
  {
  }

  /** Paper never wins, whatever the computer plays. */
  lemma PaperNeverWins(computer: Action)
    ensures Resolve(Paper, computer) != Win
  {
  }

  /** The program's rule and the usual rule disagree on exactly two pairs of
      moves: rock against paper, and paper against rock. */
  lemma DiffersFromStandardOn(user: Action, computer: Action)
    requires user.IsMove() && computer.IsMove()
    ensures Resolve(user, computer) != StandardOutcome(user, computer)
        <==> (user, computer) in {(Rock, Paper), (Paper, Rock)}
  {
  }

  /** The three counters of the `score` dictionary, as a value. */
  datatype Tally = Tally(wins: nat, ties: nat, losses: nat) {
    /** The number of rounds the counters have recorded. */
    function Total(): nat {
      wins + ties + losses
    }

    /** The counters after one more round with outcome `o`: exactly the
        counter of `o` goes up by one, and the other two stay as they are. */
    function Bump(o: Outcome): (r: Tally)
      ensures r.Total() == Total() + 1
      ensures r.AtLeast(this)
      ensures r.wins == wins + (if o == Win then 1 else 0)
      ensures r.ties == ties + (if o == Tie then 1 else 0)
      ensures r.losses == losses + (if o == Loss then 1 else 0)
    {
      match o
      case Win => this.(wins := wins + 1)
      case Tie => this.(ties := ties + 1)
      case Loss => this.(losses := losses + 1)
    }

    /** Every counter is at least as large as in `before`. */
    predicate AtLeast(before: Tally) {
      wins >= before.wins && ties >= before.ties && losses >= before.losses
    }
  }

  /** The global `score` dictionary: three counters updated in place. */
  class Score {
    var wins: nat
    var ties: nat
    var losses: nat

    /** The counters as a value. */
    function Current(): Tally
      reads this
    {
      Tally(wins, ties, losses)
    }

    /** All counters start at zero. */
    constructor ()
      ensures Current() == Tally(0, 0, 0)
    {
      wins, ties, losses := 0, 0, 0;
    }

    /** What `exitGame` reports: the three counters as they stand. */
    method Report() returns (w: nat, t: nat, l: nat)
      ensures Tally(w, t, l) == Current()
    {
      w, t, l := wins, ties, losses;
    }
  }

  /** `playRound`: the computer plays the move given by `draw`, the outcome is
      decided by the program's rule, and exactly one counter goes up by one. */
  method PlayRound(score: Score, userAction: Action, draw: int)
      returns (computerDecision: Action, outcome: Outcome)
    requires userAction.IsMove()
    requires 0 <= draw < 3
    modifies score
    ensures computerDecision == ComputerChoice(draw)
    ensures outcome == Resolve(userAction, computerDecision)
    ensures score.Current() == old(score.Current()).Bump(outcome)
  {
    computerDecision := ComputerChoice(draw);
    if || (userAction == Rock && computerDecision == Scissors)
       || (userAction == Rock && computerDecision == Paper)
       || (userAction == Scissors && computerDecision == Paper)
    {
      outcome := Win;
      score.wins := score.wins + 1;
    } else if userAction == computerDecision {
      outcome := Tie;
      score.ties := score.ties + 1;
    } else {
      outcome := Loss;
      score.losses := score.losses + 1;
    }
  }
}
