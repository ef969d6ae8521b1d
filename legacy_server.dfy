/** The older one-session game of server.py (`guess_the_number_server`): one client sends a
    start message, then guesses until it wins, runs out of tries, disconnects or sends
    something the handlers do not catch. The in-memory transcript `game_history` is kept
    next to the replies sent. */
module LegacyServer {
  import opened Json
  import opened Hints
  import opened Wire

  /** The `"message"` of every JSON object this server sends. */
  datatype LegacyReply = Welcome | Answer(hint: Hint) | OutOfRange | Sorry | NotANumber

  function LegacyText(r: LegacyReply): string {
    match r
    case Welcome => "Guess a number between 1 to 10:"
    case Answer(h) => HintText(h)
    case OutOfRange => "Number needs to be between 1 to 10! Guess again: "
    case Sorry => "Sorry, you've used all of your attempts!"
    case NotANumber => "Please enter a valid number. Guess again: "
  }

  /** `response.startswith("Congratulations") or "Sorry" in response` on the replies above. */
  predicate EndsGame(r: LegacyReply) { r == Answer(YouDidIt) || r == Sorry }

  /** One `game_history` entry: the decoded start message, a later client read as received,
      or a reply the server sent. */
  datatype Entry = ClientStart(start: Value) | ClientLine(text: string) | ServerLine(reply: LegacyReply)

  /** How the session ends: the game loop broke (the transcript is then saved), an empty
      read raised `ConnectionError`, or an exception no handler names was discarded by the
      `break` in the `finally` clause (nothing is saved in either case). */
  datatype Outcome = Finished | Disconnected | Aborted

  /** The transcript, the replies in order, and the outcome. */
  datatype Play = Play(history: seq<Entry>, sent: seq<LegacyReply>, outcome: Outcome)

  function Then(history: seq<Entry>, sent: seq<LegacyReply>, p: Play): Play {
    Play(history + p.history, sent + p.sent, p.outcome)
  }

  datatype LegacyInput = LGuess(g: int) | LInvalid | LAbort

  /** `int(json.loads(data)['guess'])` on a non-empty read: the `except (ValueError, KeyError)`
      clause catches bad JSON, a missing key and a non-numeral; `LAbort` is a TypeError
      (not an object, or a value `int()` refuses). */
  function LegacyInputOf(r: Read): LegacyInput {
    match r.doc
    case Malformed => LInvalid
    case Parsed(v) =>
      match Index(v, "guess")
      case Raise(e) => if e == KeyError || e == ValueError then LInvalid else LAbort
      case Ok(gv) =>
        match ToInt(gv)
        case Ok(g) => LGuess(g)
        case Raise(e) => if e == KeyError || e == ValueError then LInvalid else LAbort
  }

  /** One counted or refused guess `g` with `attempts` tries used: the tries used after it
      and the reply. */
  function LegacyTurn(number: Target, attempts: nat, g: int): (nat, LegacyReply) {
    if 1 <= g <= 10 then
      var h := DetermineResponse(g, number);
      (attempts + 1, if attempts + 1 >= MaxAttempts && h != YouDidIt then Sorry else Answer(h))
    else (attempts, OutOfRange)
  }

  /** Attempt counting and the reply rules: an in-range guess uses exactly one try and gets
      its hint, except that the fifth wrong one gets "Sorry"; a correct guess wins even as
      the fifth; an out-of-range guess uses no try. */
  lemma LegacyTurnRules(number: Target, attempts: nat, g: int)
    ensures var (used, reply) := LegacyTurn(number, attempts, g);
      && (used == attempts + 1 <==> 1 <= g <= 10)
      && (used == attempts || used == attempts + 1)
      && (!(1 <= g <= 10) ==> reply == OutOfRange)
      && (1 <= g <= 10 && g == number ==> reply == Answer(YouDidIt))
      && (1 <= g <= 10 && g != number ==>
            (reply == Sorry <==> used >= MaxAttempts))
      && (1 <= g <= 10 && g != number && used < MaxAttempts ==>
            reply == Answer(DetermineResponse(g, number)))
      && (EndsGame(reply) <==> 1 <= g <= 10 && (g == number || used >= MaxAttempts))
  {
  }

  /** What one read of the guess loop does: end the session without a reply, or send
      `reply` with `used` tries used, and end the game when `over`. */
  datatype Step = Stop(outcome: Outcome) | Go(used: nat, reply: LegacyReply, over: bool)

  function LegacyStep(number: Target, attempts: nat, r: Read): Step {
    if r.text == "" then Stop(Disconnected)
    else
      match LegacyInputOf(r)
      case LAbort => Stop(Aborted)
      case LInvalid => Go(attempts, NotANumber, false)
      case LGuess(g) =>
        var (used, reply) := LegacyTurn(number, attempts, g);
        Go(used, reply, EndsGame(reply))
  }

  /** Bad JSON, a missing `'guess'` key and a guess `int()` refuses with ValueError all get
      "Please enter a valid number" and use no try; the game goes on. */
  lemma InvalidReadRefused(number: Target, attempts: nat, r: Read)
    requires r.text != ""
    requires || r.doc == Malformed
             || (r.doc.Parsed? && r.doc.v.Obj? && "guess" !in r.doc.v.fields)
             || (r.doc.Parsed? && r.doc.v.Obj? && "guess" in r.doc.v.fields
                 && r.doc.v.fields["guess"].Str? && ParseInt(r.doc.v.fields["guess"].s) == None)
    ensures LegacyStep(number, attempts, r) == Go(attempts, NotANumber, false)
  {
  }

  /** The guess loop from `attempts` tries used, on the reads `rest` (then end of stream). */
  function Loop(number: Target, attempts: nat, rest: seq<Read>): (p: Play)
    decreases |rest|
  {
    var r := ReadAt(rest, 0);
    match LegacyStep(number, attempts, r)
    case Stop(o) => Play([ClientLine(r.text)], [], o)
    case Go(used, reply, over) =>
      if over then Play([ClientLine(r.text), ServerLine(reply)], [reply], Finished)
      else Then([ClientLine(r.text), ServerLine(reply)], [reply], Loop(number, used, rest[1..]))
  }

  /** `json.loads` of the start message succeeds: it raises on an empty text, as on any other
      text that is not JSON. */
  predicate Starts(first: Read) { first.text != "" && first.doc.Parsed? }

  /** The whole session on the reads `input`: the start message must decode, or the session
      ends at once; its read draws the target. */
  function Session(input: seq<Read>): Play {
    var first := ReadAt(input, 0);
    if !Starts(first) then Play([], [], Aborted)
    else Then([ClientStart(first.doc.v), ServerLine(Welcome)], [Welcome], Loop(first.roll, 0, input[1..]))
  }

  /** A client that sends nothing, or closes at once, never starts a game: the empty start
      text fails to decode. */
  lemma EmptyStartAborts(input: seq<Read>)
    requires ReadAt(input, 0).text == ""
    ensures Session(input) == Play([], [], Aborted)
  {
  }

  /** The client entries of a transcript, in order. */
  function Heard(history: seq<Entry>): seq<string> {
    if history == [] then []
    else (if history[0].ClientLine? then [history[0].text] else []) + Heard(history[1..])
  }

  /** The replies a transcript records, in order. */
  function Said(history: seq<Entry>): seq<LegacyReply> {
    if history == [] then []
    else (if history[0].ServerLine? then [history[0].reply] else []) + Said(history[1..])
  }

  lemma {:induction false} HeardAppend(a: seq<Entry>, b: seq<Entry>)
    ensures Heard(a + b) == Heard(a) + Heard(b)
  {
    if a != [] {
      assert (a + b)[0] == a[0];
      assert (a + b)[1..] == a[1..] + b;
      HeardAppend(a[1..], b);
    } else {
      assert a + b == b;
    }
  }

  lemma {:induction false} SaidAppend(a: seq<Entry>, b: seq<Entry>)
    ensures Said(a + b) == Said(a) + Said(b)
  {
    if a != [] {
      assert (a + b)[0] == a[0];
      assert (a + b)[1..] == a[1..] + b;
      SaidAppend(a[1..], b);
    } else {
      assert a + b == b;
    }
  }

  /** The entries one answered read adds. */
  lemma ExchangeEntries(text: string, reply: LegacyReply)
    ensures Heard([ClientLine(text), ServerLine(reply)]) == [text]
    ensures Said([ClientLine(text), ServerLine(reply)]) == [reply]
  {
    var h := [ClientLine(text), ServerLine(reply)];
    var tail := [ServerLine(reply)];
    assert h[1..] == tail && tail[1..] == [];
    assert Heard(tail) == [] && Said(tail) == [reply];
  }

  /** Every reply sent is recorded, once and in order. */
  lemma {:induction false} LoopRecordsReplies(number: Target, attempts: nat, rest: seq<Read>)
    ensures Said(Loop(number, attempts, rest).history) == Loop(number, attempts, rest).sent
    decreases |rest|
  {
    var r := ReadAt(rest, 0);
    var t := LegacyStep(number, attempts, r);
    if t.Go? {
      ExchangeEntries(r.text, t.reply);
      if !t.over {
        LoopRecordsReplies(number, t.used, rest[1..]);
        SaidAppend([ClientLine(r.text), ServerLine(t.reply)], Loop(number, t.used, rest[1..]).history);
      }
    }
  }

  /** Every read is recorded, in order, before anything is decided about it, the empty one
      that ends a session included. */
  lemma {:induction false} LoopRecordsReads(number: Target, attempts: nat, rest: seq<Read>)
    ensures var h := Heard(Loop(number, attempts, rest).history);
      && 1 <= |h|
      && (forall i | 0 <= i < |h| :: h[i] == ReadAt(rest, i).text)
      && (Loop(number, attempts, rest).outcome == Disconnected ==> h[|h| - 1] == "")
    decreases |rest|
  {
    var r := ReadAt(rest, 0);
    var t := LegacyStep(number, attempts, r);
    var p := Loop(number, attempts, rest);
    if t.Stop? {
      assert p.history == [ClientLine(r.text)];
      assert Heard(p.history) == [r.text] by { assert p.history[1..] == []; }
    } else {
      ExchangeEntries(r.text, t.reply);
      if !t.over {
        var q := Loop(number, t.used, rest[1..]);
        LoopRecordsReads(number, t.used, rest[1..]);
        HeardAppend([ClientLine(r.text), ServerLine(t.reply)], q.history);
        var h := Heard(p.history);
        assert h == [r.text] + Heard(q.history);
        forall i | 0 <= i < |h| ensures h[i] == ReadAt(rest, i).text {
          if i > 0 {
            assert h[i] == Heard(q.history)[i - 1];
          }
        }
      }
    }
  }

  /** The replies that answer a counted guess. */
  function Counted(sent: seq<LegacyReply>): nat {
    if sent == [] then 0 else (if sent[0].Answer? || sent[0] == Sorry then 1 else 0) + Counted(sent[1..])
  }

  /** The loop ends exactly when the reply is a win or "Sorry", so with `attempts` tries
      used it answers at most `5 - attempts` counted guesses. */
  lemma {:induction false} LoopCounted(number: Target, attempts: nat, rest: seq<Read>)
    requires attempts < MaxAttempts
    ensures Counted(Loop(number, attempts, rest).sent) <= MaxAttempts - attempts
    decreases |rest|
  {
    var r := ReadAt(rest, 0);
    var t := LegacyStep(number, attempts, r);
    var p := Loop(number, attempts, rest);
    if t.Go? {
      if LegacyInputOf(r).LGuess? {
        LegacyTurnRules(number, attempts, LegacyInputOf(r).g);
      }
      if t.over {
        assert p.sent == [t.reply];
        assert p.sent[1..] == [];
      } else {
        var q := Loop(number, t.used, rest[1..]);
        LoopCounted(number, t.used, rest[1..]);
        assert p.sent == [t.reply] + q.sent;
        assert p.sent[1..] == q.sent;
      }
    }
  }

  /** A session answers at most five counted guesses, records every reply it sends, and
      opens with the decoded start message and the welcome. */
  lemma SessionFacts(input: seq<Read>)
    ensures var p := Session(input);
      && Counted(p.sent) <= MaxAttempts
      && Said(p.history) == p.sent
      && (Starts(ReadAt(input, 0)) ==>
            |p.history| >= 3 && p.history[0] == ClientStart(ReadAt(input, 0).doc.v)
            && p.history[1] == ServerLine(Welcome))
  {
    var first := ReadAt(input, 0);
    if Starts(first) {
      var q := Loop(first.roll, 0, input[1..]);
      var head := [ClientStart(first.doc.v), ServerLine(Welcome)];
      LoopCounted(first.roll, 0, input[1..]);
      LoopRecordsReplies(first.roll, 0, input[1..]);
      LoopRecordsReads(first.roll, 0, input[1..]);
      SaidAppend(head, q.history);
      assert Said(head) == [Welcome] by {
        assert head[1..] == [ServerLine(Welcome)];
        assert head[1..][1..] == [];
      }
      assert Session(input).sent == [Welcome] + q.sent;
      assert Session(input).sent[1..] == q.sent;
      assert |q.history| >= 1;
    }
  }

  /** A read that ends the session adds only itself to the transcript. */
  lemma LoopStops(history: seq<Entry>, sent: seq<LegacyReply>, number: Target, attempts: nat, rest: seq<Read>)
    requires LegacyStep(number, attempts, ReadAt(rest, 0)).Stop?
    ensures Then(history, sent, Loop(number, attempts, rest))
      == Play(history + [ClientLine(ReadAt(rest, 0).text)], sent, LegacyStep(number, attempts, ReadAt(rest, 0)).outcome)
  {
  }

  /** A read that ends the game adds itself and its reply. */
  lemma LoopEnds(history: seq<Entry>, sent: seq<LegacyReply>, number: Target, attempts: nat, rest: seq<Read>)
    requires LegacyStep(number, attempts, ReadAt(rest, 0)).Go?
    requires LegacyStep(number, attempts, ReadAt(rest, 0)).over
    ensures var r := ReadAt(rest, 0);
      Then(history, sent, Loop(number, attempts, rest))
        == Play(history + [ClientLine(r.text)] + [ServerLine(LegacyStep(number, attempts, r).reply)],
                sent + [LegacyStep(number, attempts, r).reply], Finished)
  {
    var r := ReadAt(rest, 0);
    var reply := LegacyStep(number, attempts, r).reply;
    assert history + [ClientLine(r.text)] + [ServerLine(reply)] == history + [ClientLine(r.text), ServerLine(reply)];
  }

  /** Any other read adds itself and its reply, and the loop goes on. */
  lemma LoopGoesOn(history: seq<Entry>, sent: seq<LegacyReply>, number: Target, attempts: nat, rest: seq<Read>)
    requires LegacyStep(number, attempts, ReadAt(rest, 0)).Go?
    requires !LegacyStep(number, attempts, ReadAt(rest, 0)).over
    ensures rest != []
    ensures var r := ReadAt(rest, 0);
      var t := LegacyStep(number, attempts, r);
      Then(history, sent, Loop(number, attempts, rest))
        == Then(history + [ClientLine(r.text)] + [ServerLine(t.reply)], sent + [t.reply], Loop(number, t.used, rest[1..]))
  {
    var r := ReadAt(rest, 0);
    var reply := LegacyStep(number, attempts, r).reply;
    assert history + [ClientLine(r.text)] + [ServerLine(reply)] == history + [ClientLine(r.text), ServerLine(reply)];
  }

  /** The body of the guess loop after the empty-read check (server.py:112-146): the reply to
      read `r` with `attempts` tries used. */
  method GuessRound(number: Target, attempts: nat, r: Read) returns (st: Step)
    requires r.text != ""
    ensures st == LegacyStep(number, attempts, r)
  {
    match LegacyInputOf(r)
    case LAbort =>
      return Stop(Aborted);
    case LInvalid =>
      return Go(attempts, NotANumber, false);
    case LGuess(guess) =>
      var used := attempts;
      var response;
      if 1 <= guess <= 10 {
        var h := DetermineResponse(guess, number);
        response := Answer(h);
        used := used + 1;
        if used >= MaxAttempts {
          if h == YouDidIt {
            return Go(used, response, true);
          }
          response := Sorry;
        }
      } else {
        response := OutOfRange;
      }
      return Go(used, response, EndsGame(response));
  }

  /** `guess_the_number_server` for one connection whose client sends `input` and then
      closes: the transcript `game_history`, the replies sent, and how the session ended. */
  method GuessTheNumberServer(input: seq<Read>) returns (history: seq<Entry>, sent: seq<LegacyReply>, outcome: Outcome)
    ensures Play(history, sent, outcome) == Session(input)
  {
    var first := ReadAt(input, 0);
    if !Starts(first) {
      return [], [], Aborted;
    }
    history := [ClientStart(first.doc.v)];
    var number := first.roll;
    var attempts: nat := 0;
    sent := [Welcome];
    history := history + [ServerLine(Welcome)];
    var k := 1;
    while true
      invariant 1 <= k <= |input|
      invariant Session(input) == Then(history, sent, Loop(number, attempts, input[k..]))
      decreases |input| - k
    {
      var r := ReadAt(input, k);
      assert r == ReadAt(input[k..], 0);
      if r.text == "" {
        LoopStops(history, sent, number, attempts, input[k..]);
        history := history + [ClientLine(r.text)];
        return history, sent, Disconnected;
      }
      var st := GuessRound(number, attempts, r);
      if st.Stop? {
        LoopStops(history, sent, number, attempts, input[k..]);
        history := history + [ClientLine(r.text)];
        return history, sent, st.outcome;
      }
      if st.over {
        LoopEnds(history, sent, number, attempts, input[k..]);
        history := history + [ClientLine(r.text)] + [ServerLine(st.reply)];
        sent := sent + [st.reply];
        return history, sent, Finished;
      }
      LoopGoesOn(history, sent, number, attempts, input[k..]);
      history := history + [ClientLine(r.text)] + [ServerLine(st.reply)];
      sent := sent + [st.reply];
      assert input[k..][1..] == input[k + 1..];
      attempts := st.used;
      k := k + 1;
    }
  }
}
