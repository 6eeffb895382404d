# Rock, Paper, Scissors — a Dafny model of the game logic

This project models the command-line Rock, Paper, Scissors game in
`terminalgame/main.swift`. The model covers:

- the `Action` enum and its two conversions: `Action.from` turns text into an action and `Action.name` turns an action into text;
- `playRound`, which resolves one round against the computer and bumps one of the three counters in the global `score` dictionary;
- the `while true` loop that reads, parses and dispatches each line.

Three modules follow the parts of that file:

- `Actions` (`actions.dfy`): `Action`, ASCII lower-casing, `From` (`Action.from`) and `Name` (`Action.name`).
- `Round` (`round.dfy`): the enum's raw values, the computer's choice, the outcome rule `Resolve`, and the counters. The counters appear both as a value (`Tally`) and as the mutable `Score` object. `PlayRound` updates the object in place.
- `Game` (`game.dfy`): the loop. `Play` states it as a function, and the method `RunGame` runs it with a `while` loop over a `Score` object and is proved equal to `Play`.

The console and the random generator become inputs. The lines typed are a
sequence of strings. The values `Int.random(in: 0..<3)` returns are a sequence
of integers, each between 0 and 2. `RunGame` takes one value from that
sequence for each round it plays.

In three places the code does not do what a player of the game would usually expect. The model follows the code:

- **Win rule.** The usual rule is that paper beats rock. The code tests three pairs: rock–scissors, rock–paper and scissors–paper. So rock against paper is a win, and paper against rock falls through to a loss. Rock never loses and paper never wins. `Resolve` keeps the code's rule. `StandardOutcome` is the usual rule, kept for comparison. `DiffersFromStandardOn` proves the two rules differ on exactly those two pairs.
- **Whitespace.** One would expect blanks around a command to be ignored. The code only lower-cases, so `" rock"` is invalid (`NoTrimming`).
- **End of input.** One would expect end of input to act like `exit`. In the code, `readLine() ?? ""` yields an empty line, which is invalid, so the loop keeps prompting. In the model, input that ends without `exit` stops with `exited == false` (`PlayExitedIff`).

## Verifying

The three files go to Dafny 4.11 together. With its default settings:

    dafny verify actions.dfy round.dfy game.dfy

With a resource limit of 2,000,000 per proof obligation:

    dafny verify --resource-limit 2000000 --verification-time-limit 0 actions.dfy round.dfy game.dfy

## Model

| member | source | states |
|---|---|---|
| Actions.LowerChar | terminalgame/main.swift:28 | lower-casing maps `A`–`Z` onto `a`–`z` and fixes every other character; no upper-case letter remains |
| Actions.Lower | terminalgame/main.swift:28 | `lowercased()` keeps the length and lower-cases every character, position by position |
| Actions.Name | terminalgame/main.swift:38-45 | an action's token is one of the four tokens `from` recognises |
| Actions.LowerKeepsLowercase | terminalgame/main.swift:28 | `lowercased()` leaves a string of lower-case letters unchanged |
| Actions.NameIsLowercase | terminalgame/main.swift:38-45 | every token `name` returns is already in lower case |
| Actions.From | terminalgame/main.swift:27-35 | parsing succeeds exactly when the lower-cased string is one of the four tokens, and the parsed action's token is that lower-cased string |
| Actions.LowerIdempotent | terminalgame/main.swift:28 | lower-casing twice equals lower-casing once |
| Actions.NameInjective | terminalgame/main.swift:38-45 | two actions have the same token only when they are the same action |
| Actions.FromCaseInsensitive | terminalgame/main.swift:28 | `from(s) == from(lowercase(s))`, so the loop's extra `lowercased()` on line 109 changes nothing |
| Actions.FromAnyCapitalisation | terminalgame/main.swift:28-32 | every capitalisation of a token parses to that token's action |
| Actions.FromNameRoundTrip | terminalgame/main.swift:27-45 | `from(name(a)) == a` for all four actions, exit included |
| Actions.FromNoneIff | terminalgame/main.swift:28-33 | `from` returns nil exactly when the lower-cased string is no action's token, and otherwise returns the action whose token it is |
| Actions.TokensAreLetters | terminalgame/main.swift:29-32 | the four tokens consist of lower-case letters only |
| Actions.FromRejectsNonLetter | terminalgame/main.swift:28-33 | a string holding any non-letter character, such as a blank, parses to nil |
| Actions.NoTrimming | terminalgame/main.swift:28-33 | nothing is trimmed: a token with a leading or trailing blank is invalid |
| Round.RawValue | terminalgame/main.swift:20-24 | every raw value is below 4, and the three moves are exactly the actions whose raw value is below 3; the numbering itself (0 rock, 1 paper, 2 scissors, 3 exit, in declaration order) is in the body |
| Round.FromRaw | terminalgame/main.swift:69 | `Action(rawValue:)` succeeds exactly on 0 to 3 and inverts `rawValue` |
| Round.RawRoundTrip | terminalgame/main.swift:20-24 | converting an action to its raw value and back gives the same action |
| Round.ComputerChoice | terminalgame/main.swift:69 | for a draw in `0..<3` the force-unwrap succeeds; the computer's choice is never exit and its raw value is the draw |
| Round.WinPair | terminalgame/main.swift:73-75 | the three-pair win test never holds for equal actions, and it holds exactly on the usual winning pairs with paper-beats-rock removed and rock-beats-paper added |
| Round.Resolve | terminalgame/main.swift:73-88 | the outcome is a win exactly on the three win pairs and a tie exactly on equal actions |
| Round.ResolveTable | terminalgame/main.swift:73-88 | the outcome for all nine pairs of moves, as the code's conditions decide them |
| Round.ResolveCharacterised | terminalgame/main.swift:84-87 | the outcome is a loss exactly when the pair is neither a win pair nor two equal actions |
| Round.RockNeverLoses | terminalgame/main.swift:73-87 | against any computer move, rock does not lose |
| Round.PaperNeverWins | terminalgame/main.swift:73-87 | paper never wins |
| Round.DiffersFromStandardOn | terminalgame/main.swift:73-75 | among the nine pairs of moves, the code's rule differs from the usual rule exactly on rock against paper and on paper against rock |
| Round.Tally.Bump | terminalgame/main.swift:79-87 | `score[...] += 1` adds exactly 1 to the outcome's counter, leaves the other two unchanged, and raises the total by 1 |
| Round.Score.constructor | terminalgame/main.swift:13-17 | wins, ties and losses all start at 0 |
| Round.Score.Report | terminalgame/main.swift:91-105 | `exitGame` reports the three counters as they stand, without changing them |
| Round.PlayRound | terminalgame/main.swift:68-89 | it is called only with a move, never with exit (as at line 120); the computer's move comes from the draw; the outcome follows the code's rule; exactly that outcome's counter goes up by 1; nothing else changes |
| Game.CommandIsFrom | terminalgame/main.swift:109-111 | lower-casing the line before `Action.from`, which lower-cases again, reads it exactly as `Action.from` alone would |
| Game.Rounds | terminalgame/main.swift:108-124 | the number of rounds the lines start (valid moves before the first exit) is at most the number of lines |
| Game.Play | terminalgame/main.swift:108-124 | the loop as a function over the lines and draws; over any run, no counter ever decreases |
| Game.HasExitUnfold | terminalgame/main.swift:108-124 | a non-empty input holds `exit` exactly when its first line is `exit` or the rest holds one |
| Game.PlaySkip | terminalgame/main.swift:111-114 | one step on an invalid line: no round starts and the counters stay as they are |
| Game.PlayExit | terminalgame/main.swift:116-118 | one step on `exit`: the loop stops with the counters as they are, and no further round is played |
| Game.PlayMove | terminalgame/main.swift:119-121 | one step on a move: one round is played against the next draw, and the loop goes on with the remaining lines and draws |
| Game.PlayTotal | terminalgame/main.swift:108-124 | after the loop, wins + ties + losses equals the starting sum plus the number of valid non-exit lines before the first exit |
| Game.PlayExitedIff | terminalgame/main.swift:116-118 | the loop leaves through `exit` exactly when some line is the exit command |
| Game.RoundsSkipInvalid | terminalgame/main.swift:111-114 | inserting an invalid line anywhere does not change the number of rounds played |
| Game.InvalidLineIgnored | terminalgame/main.swift:111-114 | inserting an invalid line anywhere changes neither the rounds played nor the final counters |
| Game.RoundsStopAtExit | terminalgame/main.swift:116-118 | no line after `exit` starts a round, and neither does `exit` itself: the rounds are exactly those of the lines before it |
| Game.NothingAfterExit | terminalgame/main.swift:116-118 | the lines after `exit` are never read: the rounds are exactly those of the lines before `exit`, and the final counters are the same as if the input ended at `exit` |
| Game.RunGame | terminalgame/main.swift:108-124 | the loop starts from zero counters and ends with exactly the counters and exit flag of `Play`; wins + ties + losses equals the number of rounds; it exits exactly when some line is `exit` |
| Game.CommandOfName | terminalgame/main.swift:109-111 | the loop lower-cases each line and parses it, and an action's token comes out as that action |
| Game.BananaInvalid | terminalgame/main.swift:111-114 | the line `banana` is invalid |
| Game.ScenarioImmediateExit | terminalgame/main.swift:116-118 | typing `exit` at once leaves all counters at 0 |
| Game.ScenarioOneWin | terminalgame/main.swift:108-124 | a rock against a computer that draws scissors, then `exit`: 1 win, 0 ties, 0 losses |
| Game.ScenarioInvalidThenTies | terminalgame/main.swift:108-124 | an invalid line is skipped, then two rocks against two computer rocks tie, then `exit`: two rounds, 0 wins, 2 ties, 0 losses |
| Game.ScenarioOneWinTyped | terminalgame/main.swift:108-124 | the lines `rock`, `exit` as typed, against a draw of scissors: 1 win, 0 ties, 0 losses, left through exit |
| Game.ScenarioInvalidThenTiesTyped | terminalgame/main.swift:108-124 | the lines `banana`, `rock`, `rock`, `exit` as typed, against two draws of rock: two rounds, 0 wins, 2 ties, 0 losses, left through exit |

## Left out

- Printing is not modelled. This covers the welcome banner, the per-round messages, the `———` separators, the invalid-input warning and the summary text of `exitGame` (terminalgame/main.swift:3-11, 71, 77, 81, 85, 91-105, 112, 123). Only the counter values the summary shows are modelled (`Score.Report`).
- The `Colours` ANSI escape constants (terminalgame/main.swift:49-59) are not modelled. They are cosmetic.
- `input` and `readLine` (terminalgame/main.swift:62-65) are console I/O. The model takes the typed lines as a finite sequence instead.
- Input that ends without `exit` is not modelled faithfully. The real program then reads `""` forever and never terminates. The model instead stops with `exited == false`.
- `Int.random(in: 0..<3)` is randomness. It is replaced by a sequence of draws, each between 0 and 2. `RunGame` requires at least as many draws as rounds. The uniform distribution is not modelled.
- Actions.Lower: lower-cases ASCII letters only, not all of Swift's Unicode case mapping. So the model does not capture non-ASCII strings that lower-case to a token.
- `score` is a dictionary keyed by `"wins"`, `"ties"` and `"losses"`, with a default of 0. It is modelled as an object with three fields. The code never reads or writes any other key, so no behaviour is lost.
- Swift's `Int` counters could in principle overflow. The model uses unbounded naturals.
