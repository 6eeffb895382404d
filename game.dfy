/** The top-level `while true` loop of terminalgame/main.swift: read a line,
    lower-case it, parse it; re-prompt on invalid input, stop on exit, and
    otherwise play a round. Console input is a finite sequence of lines and
    the random generator a sequence of draws in 0..2. */
module Game {
  import opened Actions
  import opened Round

  /** What the loop makes of one line: it lower-cases the line before
      `Action.from`, which lower-cases again, to the same effect. */
  function Command(line: string): Option<Action> {
    From(Lower(line))
  }

  /** The loop's own lower-casing changes nothing: each line is read exactly
      as `Action.from` alone would read it. */
  lemma CommandIsFrom(line: string)
    ensures Command(line) == From(line)
  {
    FromCaseInsensitive(line);
  }

  /** Every draw is one `Int.random(in: 0..<3)` could return. */
  predicate ValidDraws(draws: seq<int>) {
    forall k :: 0 <= k < |draws| ==> 0 <= draws[k] < 3
  }

  /** Whether some line is the exit command. */
  predicate HasExit(lines: seq<string>) {
    exists i :: 0 <= i < |lines| && Command(lines[i]) == Some(Exit)
  }

  /** The number of rounds the lines start: valid moves before the first exit. */
  function Rounds(lines: seq<string>): (r: nat)
    ensures r <= |lines|
  {
    if lines == [] then 0
    else match Command(lines[0])
      case None => Rounds(lines[1..])
      case Some(a) => if a == Exit then 0 else 1 + Rounds(lines[1..])
  }

  /** The state the loop ends in: the counters, and whether it left through exit. */
  datatype Session = Session(tally: Tally, exited: bool)

  /** The loop as a function: from counters `t`, consume `lines`, taking the
      next draw for every round. */
  function Play(t: Tally, lines: seq<string>, draws: seq<int>): (r: Session)
    requires ValidDraws(draws) && Rounds(lines) <= |draws|
    ensures r.tally.AtLeast(t)
    decreases lines
  {
    if lines == [] then Session(t, false)
    else match Command(lines[0])
      case None => Play(t, lines[1..], draws)
      case Some(a) =>
        if a == Exit then Session(t, true)
        else Play(t.Bump(Resolve(a, ComputerChoice(draws[0]))), lines[1..], draws[1..])
  }

  /** The counters' sum grows by exactly the number of rounds played. */
  lemma {:induction false} PlayTotal(t: Tally, lines: seq<string>, draws: seq<int>)
    requires ValidDraws(draws) && Rounds(lines) <= |draws|
    ensures Play(t, lines, draws).tally.Total() == t.Total() + Rounds(lines)
    decreases lines
  {
    if lines != [] {
      match Command(lines[0])
      case None => PlayTotal(t, lines[1..], draws);
      case Some(a) =>
        if a != Exit {
          var o := Resolve(a, ComputerChoice(draws[0]));
          PlayTotal(t.Bump(o), lines[1..], draws[1..]);
        }
    }
  }

  /** Whether a non-empty input holds exit: at its head or further on. */
  lemma HasExitUnfold(lines: seq<string>)
    requires lines != []
    ensures HasExit(lines) <==> Command(lines[0]) == Some(Exit) || HasExit(lines[1..])
  {
    if HasExit(lines) && Command(lines[0]) != Some(Exit) {
      var i :| 0 <= i < |lines| && Command(lines[i]) == Some(Exit);
      assert lines[1..][i - 1] == lines[i];
    }
    if HasExit(lines[1..]) {
      var i :| 0 <= i < |lines[1..]| && Command(lines[1..][i]) == Some(Exit);
      assert lines[i + 1] == lines[1..][i];
    }
  }

  /** The loop leaves through exit exactly when some line is the exit command;
      otherwise it runs out of input (where the program itself would keep
      reading empty lines forever). */
  lemma {:induction false} PlayExitedIff(t: Tally, lines: seq<string>, draws: seq<int>)
    requires ValidDraws(draws) && Rounds(lines) <= |draws|
    ensures Play(t, lines, draws).exited <==> HasExit(lines)
    decreases lines
  {
    if lines != [] {
      HasExitUnfold(lines);
      match Command(lines[0])
      case None => PlayExitedIff(t, lines[1..], draws);
      case Some(a) =>
        if a != Exit {
          PlayExitedIff(t.Bump(Resolve(a, ComputerChoice(draws[0]))), lines[1..], draws[1..]);
        }
    }
  }

  /** One step of the loop on an invalid line: nothing happens. */
  lemma PlaySkip(t: Tally, lines: seq<string>, draws: seq<int>)
    requires ValidDraws(draws) && Rounds(lines) <= |draws|
    requires lines != [] && Command(lines[0]) == None
    ensures Rounds(lines) == Rounds(lines[1..])
    ensures Play(t, lines, draws) == Play(t, lines[1..], draws)
  {
  }

  /** One step of the loop on exit: the loop stops where it is. */
  lemma PlayExit(t: Tally, lines: seq<string>, draws: seq<int>)
    requires ValidDraws(draws) && Rounds(lines) <= |draws|
    requires lines != [] && Command(lines[0]) == Some(Exit)
    ensures Rounds(lines) == 0
    ensures Play(t, lines, draws) == Session(t, true)
  {
  }

  /** One step of the loop on a move: a round with the next draw. */
  lemma PlayMove(t: Tally, lines: seq<string>, draws: seq<int>, a: Action)
    requires ValidDraws(draws) && Rounds(lines) <= |draws|
    requires lines != [] && Command(lines[0]) == Some(a) && a != Exit
    ensures Rounds(lines) == 1 + Rounds(lines[1..]) && draws != []
    ensures ValidDraws(draws[1..]) && 0 <= draws[0] < 3
    ensures Play(t, lines, draws)
         == Play(t.Bump(Resolve(a, ComputerChoice(draws[0]))), lines[1..], draws[1..])
  {
  }

  /** An invalid line, wherever it appears, starts no round. */
  lemma {:induction false} RoundsSkipInvalid(before: seq<string>, bad: string, after: seq<string>)
    requires Command(bad) == None
    ensures Rounds(before + [bad] + after) == Rounds(before + after)
    decreases before
  {
    var with, without := before + [bad] + after, before + after;
    if before == [] {
      assert with[0] == bad && with[1..] == without;
    } else {
      assert with[0] == without[0] == before[0];
      assert with[1..] == before[1..] + [bad] + after;
      assert without[1..] == before[1..] + after;
      RoundsSkipInvalid(before[1..], bad, after);
    }
  }

  /** An invalid line, wherever it appears, changes nothing: the loop plays
      as if it had never been typed. */
  lemma {:induction false} InvalidLineIgnored(t: Tally, before: seq<string>, bad: string,
                                              after: seq<string>, draws: seq<int>)
    requires Command(bad) == None
    requires ValidDraws(draws) && Rounds(before + after) <= |draws|
    ensures Rounds(before + [bad] + after) == Rounds(before + after)
    ensures Play(t, before + [bad] + after, draws) == Play(t, before + after, draws)
    decreases before
  {
    RoundsSkipInvalid(before, bad, after);
    var with, without := before + [bad] + after, before + after;
    if before == [] {
      assert with[0] == bad && with[1..] == without;
      PlaySkip(t, with, draws);
    } else {
      assert with[0] == without[0] == before[0];
      assert with[1..] == before[1..] + [bad] + after;
      assert without[1..] == before[1..] + after;
      match Command(before[0])
      case None =>
        PlaySkip(t, with, draws);
        PlaySkip(t, without, draws);
        InvalidLineIgnored(t, before[1..], bad, after, draws);
      case Some(a) =>
        if a == Exit {
          PlayExit(t, with, draws);
          PlayExit(t, without, draws);
        } else {
          PlayMove(t, with, draws, a);
          PlayMove(t, without, draws, a);
          var o := Resolve(a, ComputerChoice(draws[0]));
          InvalidLineIgnored(t.Bump(o), before[1..], bad, after, draws[1..]);
        }
    }
  }

  /** No line after exit starts a round. */
  lemma {:induction false} RoundsStopAtExit(before: seq<string>, exit: string, after: seq<string>)
    requires Command(exit) == Some(Exit)
    ensures Rounds(before + [exit] + after) == Rounds(before + [exit]) == Rounds(before)
    decreases before
  {
    var long, short := before + [exit] + after, before + [exit];
    if before == [] {
      assert long[0] == short[0] == exit;
    } else {
      assert long[0] == short[0] == before[0];
      assert long[1..] == before[1..] + [exit] + after;
      assert short[1..] == before[1..] + [exit];
      RoundsStopAtExit(before[1..], exit, after);
    }
  }

  /** Nothing after the exit command is read: the lines that follow it
      neither start rounds nor change the counters. */
  lemma {:induction false} NothingAfterExit(t: Tally, before: seq<string>, exit: string,
                                            after: seq<string>, draws: seq<int>)
    requires Command(exit) == Some(Exit)
    requires ValidDraws(draws) && Rounds(before) <= |draws|
    ensures Rounds(before + [exit] + after) == Rounds(before + [exit]) == Rounds(before)
    ensures Play(t, before + [exit] + after, draws) == Play(t, before + [exit], draws)
    decreases before
  {
    RoundsStopAtExit(before, exit, after);
    var long, short := before + [exit] + after, before + [exit];
    if before == [] {
      assert long[0] == short[0] == exit;
      PlayExit(t, long, draws);
      PlayExit(t, short, draws);
    } else {
      assert long[0] == short[0] == before[0];
      assert long[1..] == before[1..] + [exit] + after;
      assert short[1..] == before[1..] + [exit];
      match Command(before[0])
      case None =>
        PlaySkip(t, long, draws);
        PlaySkip(t, short, draws);
        NothingAfterExit(t, before[1..], exit, after, draws);
      case Some(a) =>
        if a == Exit {
          PlayExit(t, long, draws);
          PlayExit(t, short, draws);
        } else {
          PlayMove(t, long, draws, a);
          PlayMove(t, short, draws, a);
          var o := Resolve(a, ComputerChoice(draws[0]));
          NothingAfterExit(t.Bump(o), before[1..], exit, after, draws[1..]);
        }
    }
  }

  /** The main loop. It starts from zeroed counters, lower-cases each line and
      parses it; an invalid line is skipped, a move plays a round with the next
      draw, and exit stops the loop. The results are what `exitGame` reports
      and whether the loop left through exit. */
  method RunGame(lines: seq<string>, draws: seq<int>)
      returns (wins: nat, ties: nat, losses: nat, exited: bool)
    requires ValidDraws(draws) && Rounds(lines) <= |draws|
    ensures Play(Tally(0, 0, 0), lines, draws) == Session(Tally(wins, ties, losses), exited)
    ensures wins + ties + losses == Rounds(lines)
    ensures exited <==> HasExit(lines)
  {
    var score := new Score();
    var i, k := 0, 0;
    exited := false;
    while i < |lines|
      invariant 0 <= i <= |lines| && 0 <= k <= |draws|
      invariant ValidDraws(draws[k..]) && Rounds(lines[i..]) <= |draws| - k
      invariant Rounds(lines) == k + Rounds(lines[i..])
      invariant score.wins + score.ties + score.losses == k
      invariant !exited
      invariant Play(Tally(0, 0, 0), lines, draws) == Play(score.Current(), lines[i..], draws[k..])
    {
      ghost var rest, ds, current := lines[i..], draws[k..], score.Current();
      assert rest[0] == lines[i] && rest[1..] == lines[i + 1..];
      var userAction := Lower(lines[i]);
      var action := From(userAction);
      assert Command(rest[0]) == action;
      if action.None? {
        PlaySkip(current, rest, ds);
        i := i + 1;
        continue;
      }
      if action.value == Exit {
        exited := true;
        break;
      }
      PlayMove(current, rest, ds, action.value);
      assert ds[0] == draws[k] && ds[1..] == draws[k + 1..];
      var _, outcome := PlayRound(score, action.value, draws[k]);
      i, k := i + 1, k + 1;
    }
    wins, ties, losses := score.Report();
    PlayExitedIff(Tally(0, 0, 0), lines, draws);
  }

  /** The loop reads an action's token, in any case, as that action. */
  lemma CommandOfName(a: Action)
    ensures Command(Name(a)) == Some(a)
  {
    FromNameRoundTrip(a);
    FromCaseInsensitive(Name(a));
  }

  /** "banana" is not a command. */
  lemma BananaInvalid()
    ensures Command("banana") == None
  {
    var banana := "banana";
    LowerKeepsLowercase(banana);
    LowerKeepsLowercase(Lower(banana));
  }

  /** An empty game: typing exit straight away reports zero everywhere. The
      line may be "exit" or any capitalisation of it (`CommandOfName`). */
  lemma ScenarioImmediateExit(exit: string)
    requires Command(exit) == Some(Exit)
    ensures Play(Tally(0, 0, 0), [exit], []) == Session(Tally(0, 0, 0), true)
  {
    PlayExit(Tally(0, 0, 0), [exit], []);
  }

  /** "rock" against a computer drawing scissors (raw value 2), then exit:
      one win. */
  lemma ScenarioOneWin(rock: string, exit: string)
    requires Command(rock) == Some(Rock) && Command(exit) == Some(Exit)
    ensures Play(Tally(0, 0, 0), [rock, exit], [2]) == Session(Tally(1, 0, 0), true)
  {
    var lines := [rock, exit];
    assert lines[1..] == [exit];
    assert ComputerChoice(2) == Scissors;
    PlayMove(Tally(0, 0, 0), lines, [2], Rock);
    PlayExit(Tally(1, 0, 0), lines[1..], []);
  }

  /** An invalid line such as "banana" (`BananaInvalid`) is skipped, then two
      rocks against two rocks (raw value 0) tie, then exit. */
  lemma ScenarioInvalidThenTies(bad: string, rock: string, exit: string)
    requires Command(bad) == None
    requires Command(rock) == Some(Rock) && Command(exit) == Some(Exit)
    ensures Rounds([bad, rock, rock, exit]) == 2
    ensures Play(Tally(0, 0, 0), [bad, rock, rock, exit], [0, 0])
         == Session(Tally(0, 2, 0), true)
  {
    var l0 := [bad, rock, rock, exit];
    var l1 := [rock, rock, exit];
    var l2 := [rock, exit];
    var l3 := [exit];
    var d0, d1, d2 := [0, 0], [0], [];
    assert l0[0] == bad && l0[1..] == l1;
    assert l1[0] == rock && l1[1..] == l2;
    assert l2[0] == rock && l2[1..] == l3;
    assert d0[0] == 0 && d0[1..] == d1;
    assert d1[0] == 0 && d1[1..] == d2;
    assert ComputerChoice(0) == Rock;
    PlayExit(Tally(0, 2, 0), l3, d2);
    PlayMove(Tally(0, 1, 0), l2, d1, Rock);
    PlayMove(Tally(0, 0, 0), l1, d0, Rock);
    PlaySkip(Tally(0, 0, 0), l0, d0);
  }

  /** The one-win game as typed: "rock", then "exit". */
  lemma ScenarioOneWinTyped()
    ensures Play(Tally(0, 0, 0), ["rock", "exit"], [2]) == Session(Tally(1, 0, 0), true)
  {
    CommandOfName(Rock);
    CommandOfName(Exit);
    ScenarioOneWin("rock", "exit");
  }

  /** The skip-then-tie game as typed: "banana", "rock", "rock", "exit". */
  lemma ScenarioInvalidThenTiesTyped()
    ensures Rounds(["banana", "rock", "rock", "exit"]) == 2
    ensures Play(Tally(0, 0, 0), ["banana", "rock", "rock", "exit"], [0, 0])
         == Session(Tally(0, 2, 0), true)
  {
    BananaInvalid();
    CommandOfName(Rock);
    CommandOfName(Exit);
    ScenarioInvalidThenTies("banana", "rock", "exit");
  }
}
