/** What travels on one connection of the TLS game server (HW3/server.py): connection ids,
    received reads, the server's replies and the (recipient, reply) pairs `sendall` produces. */
module Wire {
  import opened Json
  import opened Hints

  /** An opaque connection handle. */
  type ConnId = nat

  /** A number `random.randint(1, 10)` can return. */
  type Target = n: int | 1 <= n <= 10 witness 1

  /** `max_attempts`, the same in both game modes. */
  const MaxAttempts: int := 5

  /** One `recv(1024)` after UTF-8 decoding and `.strip()`: the text, what `json.loads` makes
      of it, and the value `random.randint(1, 10)` yields if handling this read draws a number. */
  datatype Read = Read(text: string, doc: Doc, roll: Target)

  /** What `recv` returns once the peer has closed: nothing, for ever. */
  const Eof: Read := Read("", Malformed, 1)

  /** The k-th read of a connection whose peer sends `input` and then closes. */
  function ReadAt(input: seq<Read>, k: nat): (r: Read)
    ensures k >= |input| ==> r.text == ""
    ensures k < |input| ==> r == input[k]
  {
    if k < |input| then input[k] else Eof
  }

  /** The `"message"` of every JSON object the server sends. */
  datatype Reply =
    | ModePrompt
    | SingleRules
    | Hinted(hint: Hint)
    | RangeError
    | Exhausted
    | InvalidInput
    | MultiRules
    | AllExhaustedBefore
    | AllExhaustedAfter
    | YouWon
    | SomeoneWon

  function Text(r: Reply): string {
    match r
    case ModePrompt => "Choose game mode: '1' for single player, '2' for multi player, 'exit' to terminate:"
    case SingleRules =>
      "You have a total of 5 attempts. Enter 'exit' to prematurely leave the game. Guess a number between 1 to 10:"
    case Hinted(h) => HintText(h)
    case RangeError => "Choose a number between 1 to 10! Guess again: "
    case Exhausted => "Sorry, you've used all of your attempts!"
    case InvalidInput => "Invalid input! Choose a number between 1 to 10 or type 'exit' to quit."
    case MultiRules =>
      "Multi player game started! Each player has 5 attempts. Enter 'exit' to prematurely leave the game. "
      + "Guess a number between 1 to 10:"
    case AllExhaustedBefore =>
      "Everyone has used all of their attempts without guessing the correct number! Enter 'exit' to prematurely "
      + "leave the game. \nStarting a new game with a new number. All clients have 5 new attempts!\n"
      + "Guess a number between 1 to 10: "
    case AllExhaustedAfter =>
      "Everyone has used all of their attempts without guessing the correct number!\nEnter 'exit' to prematurely "
      + "leave the game.\nStarting a new game with a new number. All clients have 5 new attempts!\n"
      + "Guess a number between 1 to 10: "
    case YouWon =>
      "Congratulations, you did it! Starting a new game with a new number.\nEnter 'exit' to prematurely leave "
      + "the game.\nAll clients have 5 new attempts! Guess a number between 1 to 10:"
    case SomeoneWon =>
      "Congratulations, someone guessed the correct number! Starting a new game with a new number.\nEnter 'exit' "
      + "to prematurely leave the game.\nAll clients have 5 new attempts! Guess a number between 1 to 10: "
  }

  /** The single player test `response.startswith("Congratulations") or "Sorry" in response`:
      of the texts above, the three winning ones start with "Congratulations" and only the
      exhaustion one contains "Sorry". */
  predicate EndsRound(r: Reply) {
    r == Hinted(YouDidIt) || r == YouWon || r == SomeoneWon || r == Exhausted
  }

  /** One `sendall`: who receives which reply. */
  datatype Send = Send(to: ConnId, reply: Reply)
}
