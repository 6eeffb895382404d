/** The commands a player can type (the `Action` enum of terminalgame/main.swift)
    and the conversions between an action and its text token. */
module Actions {

  datatype Option<+T> = None | Some(value: T)

  /** The four recognised commands, in declaration order (their raw values are 0..3). */
  datatype Action = Rock | Paper | Scissors | Exit {
    /** A move that can be played in a round, as opposed to the exit command. */
    predicate IsMove() {
      this != Exit
    }
  }

  /** ASCII lower-casing of one character; every other character is left alone. */
  function LowerChar(c: char): (r: char)
    ensures 'A' <= c <= 'Z' ==> 'a' <= r <= 'z' && r as int - c as int == 32
    ensures !('A' <= c <= 'Z') ==> r == c
    ensures !('A' <= r <= 'Z')
  {
    if 'A' <= c <= 'Z' then (c as int + 32) as char else c
  }

  /** `String.lowercased()`, restricted to ASCII letters. */
  function Lower(s: string): (r: string)
    ensures |r| == |s|
    ensures forall i :: 0 <= i < |s| ==> r[i] == LowerChar(s[i])
  {
    if s == [] then [] else [LowerChar(s[0])] + Lower(s[1..])
  }

  /** The tokens `Action.from` accepts once its input is lower-cased. */
  const Tokens: set<string> := {"rock", "paper", "scissors", "exit"}

  /** `Action.name`: the token of an action. */
  function Name(a: Action): (r: string)
    ensures r in Tokens
  {
    match a
    case Rock => "rock"
    case Paper => "paper"
    case Scissors => "scissors"
    case Exit => "exit"
  }

  /** `Action.from`: lower-case the string, then look it up among the four
      tokens. Nothing is trimmed, so surrounding blanks make it invalid. */
  function From(s: string): (r: Option<Action>)
    ensures r.Some? <==> Lower(s) in Tokens
    ensures r.Some? ==> Name(r.value) == Lower(s)
  {
    var t := Lower(s);
    if t == "rock" then Some(Rock)
    else if t == "paper" then Some(Paper)
    else if t == "scissors" then Some(Scissors)
    else if t == "exit" then Some(Exit)
    else None
  }

  /** Lower-casing twice is lower-casing once. */
  lemma LowerIdempotent(s: string)
    ensures Lower(Lower(s)) == Lower(s)
  {
  }

  /** Different actions have different tokens. */
  lemma NameInjective(a: Action, b: Action)
    ensures Name(a) == Name(b) <==> a == b
  {
  }

  /** Parsing ignores letter case: a string and its lower-cased form parse alike. */
  lemma FromCaseInsensitive(s: string)
    ensures From(s) == From(Lower(s))
  {
    LowerIdempotent(s);
  }

  /** Any capitalisation of an action's token (ROCK, Rock, rOcK, ...) parses to that action. */
  lemma FromAnyCapitalisation(s: string, a: Action)
    requires Lower(s) == Name(a)
    ensures From(s) == Some(a)
  {
    NameInjective(From(s).value, a);
  }

  /** The round trip from an action to its token and back, for every action including exit. */
  lemma FromNameRoundTrip(a: Action)
    ensures From(Name(a)) == Some(a)
  {
    NameIsLowercase(a);
    FromAnyCapitalisation(Name(a), a);
  }

  /** `from` fails exactly on strings whose lower-cased form is no action's
      token; otherwise it returns the action whose token that is. A corollary
      of the contract of `From`. */
  lemma FromNoneIff(s: string)
    ensures From(s) == None <==> forall a: Action :: Name(a) != Lower(s)
    ensures forall a: Action :: Name(a) == Lower(s) ==> From(s) == Some(a)
  {
    forall a: Action | Name(a) == Lower(s)
      ensures From(s) == Some(a)
    {
      FromAnyCapitalisation(s, a);
    }
  }

  /** Every token is made of lower-case letters only. */
  lemma TokensAreLetters(t: string, j: int)
    requires t in Tokens && 0 <= j < |t|
    ensures 'a' <= t[j] <= 'z'
  {
    if t == "rock" {
    } else if t == "paper" {
    } else if t == "scissors" {
    } else {
    }
  }

  /** A string already in lower-case letters is left as it is. */
  lemma LowerKeepsLowercase(s: string)
    requires forall j :: 0 <= j < |s| ==> 'a' <= s[j] <= 'z'
    ensures Lower(s) == s
  {
  }

  /** Every token is already in lower case. */
  lemma NameIsLowercase(a: Action)
    ensures Lower(Name(a)) == Name(a)
  {
    forall j | 0 <= j < |Name(a)|
      ensures 'a' <= Name(a)[j] <= 'z'
    {
      TokensAreLetters(Name(a), j);
    }
    LowerKeepsLowercase(Name(a));
  }

  /** No whitespace is trimmed: a string holding any character other than a
      letter (a blank, a newline) is invalid. */
  lemma FromRejectsNonLetter(s: string, i: int)
    requires 0 <= i < |s|
    requires !('a' <= s[i] <= 'z') && !('A' <= s[i] <= 'Z')
    ensures From(s) == None
  {
    var t := Lower(s);
    assert t[i] == s[i];
    if t in Tokens {
      TokensAreLetters(t, i);
      assert false;
    }
  }

  /** A token with a blank before or after it is invalid. */
  lemma NoTrimming(a: Action)
    ensures From(" " + Name(a)) == None
    ensures From(Name(a) + " ") == None
  {
    FromRejectsNonLetter(" " + Name(a), 0);
    FromRejectsNonLetter(Name(a) + " ", |Name(a)|);
  }
}
