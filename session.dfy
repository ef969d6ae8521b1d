/** One connection of the TLS game server (HW3/server.py) as a state machine driven by its
    reads: the mode prompt loop of `handle_client`, the round loop of `single_player_game`
    and the read loop of `multi_player_game`. Every read moves the machine one step; the
    room is the shared `MultiRoom.RoomState` and `wire` collects every `sendall`. */
module Session {
  import opened Json
  import opened Hints
  import opened Wire
  import opened MultiRoom

  /** How `handle_client` ends: the client chose 'exit', a read came back empty, or an
      exception reached the generic handler. */
  datatype EndReason = ClientExit | Disconnected | Failed

  datatype Phase =
    | AwaitMode
    | SinglePlay(number: Target, attempts: nat)
    | MultiPlay
    | Closed(why: EndReason)

  datatype Conf = Conf(room: RoomState, phase: Phase, wire: seq<Send>)

  /** What holds of every configuration a session reaches: the room is sound, a
      multiplayer session has its attempts entry, and a running single player round has
      tries left. */
  predicate SessionInv(c: ConnId, k: Conf) {
    && Weak(k.room)
    && (k.phase.MultiPlay? ==> c in k.room.attempts)
    && (k.phase.SinglePlay? ==> k.phase.attempts < MaxAttempts)
  }

  // ---------------------------------------------------------------------------
  // Mode selection (HW3/server.py:62-85)

  datatype ModeChoice = PlaySingle | PlayMulti | Quit | Reprompt | Stop(why: EndReason)

  /** What `handle_client` does with the read that answers its prompt. */
  function ChooseMode(r: Read): ModeChoice {
    if r.text == "" then Stop(Disconnected)
    else
      match r.doc
      case Malformed => Stop(Failed)
      case Parsed(v) =>
        match Get(v, "mode")
        case Raise(_) => Stop(Failed)
        case Ok(None) => Reprompt
        case Ok(Some(m)) =>
          if m == Str("1") then PlaySingle
          else if m == Str("2") then PlayMulti
          else if !Truthy(m) then Reprompt
          else if !m.Str? then Stop(Failed)   // `mode.lower()` on a value that is not a string
          else if Lower(m.s) == "exit" then Quit
          else Reprompt
  }

  /** The prompt answered by a JSON object whose "mode" is the string `s`: "1" starts single
      player, "2" joins the room, "exit" in any letter case ends the session, anything else
      gets the prompt again. */
  lemma ModeDispatch(r: Read, s: string)
    requires r.text != "" && r.doc.Parsed? && r.doc.v.Obj?
    requires "mode" in r.doc.v.fields && r.doc.v.fields["mode"] == Str(s)
    ensures ChooseMode(r) == PlaySingle <==> s == "1"
    ensures ChooseMode(r) == PlayMulti <==> s == "2"
    ensures ChooseMode(r) == Quit <==>
      |s| == 4 && s[0] in "eE" && s[1] in "xX" && s[2] in "iI" && s[3] in "tT"
    ensures ChooseMode(r) == Reprompt <==>
      s != "1" && s != "2" && Lower(s) != "exit"
  {
    LowerIsExit(s);
  }

  /** An empty read at the prompt ends the session as a disconnect; text that is not JSON,
      or JSON that is not an object, ends it through the generic handler. */
  lemma ModePromptFailures(r: Read)
    ensures r.text == "" ==> ChooseMode(r) == Stop(Disconnected)
    ensures r.text != "" && (r.doc.Malformed? || !r.doc.v.Obj?) ==> ChooseMode(r) == Stop(Failed)
  {
  }

  function ModeStep(c: ConnId, k: Conf, r: Read): (k': Conf)
    requires SessionInv(c, k) && k.phase == AwaitMode
    ensures SessionInv(c, k') && k.wire <= k'.wire
  {
    match ChooseMode(r)
    case PlaySingle => Conf(k.room, SinglePlay(r.roll, 0), k.wire + [Send(c, SingleRules)])
    case PlayMulti => Conf(Join(k.room, c, r.roll), MultiPlay, k.wire + [Send(c, MultiRules)])
    case Quit => k.(phase := Closed(ClientExit))
    case Reprompt => k.(wire := k.wire + [Send(c, ModePrompt)])
    case Stop(why) => k.(phase := Closed(why))
  }

  // ---------------------------------------------------------------------------
  // Single player (HW3/server.py:87-137)

  /** The exceptions the single player `except (json.JSONDecodeError, ValueError, KeyError)`
      clause catches; a JSON decoding error is a ValueError. */
  predicate CaughtInRound(e: PyError) { e == ValueError || e == KeyError }

  datatype SingleInput = SGuess(g: int) | SInvalid | SExit | SIgnore | SAbort

  /** `'guess' in data_json`, `int(data_json['guess'])` and `'exit' in data_json` on one
      non-empty read; `SAbort` is an exception that only the generic handler catches. */
  function SingleInputOf(r: Read): SingleInput {
    match r.doc
    case Malformed => SInvalid
    case Parsed(v) =>
      match Has("guess", v)
      case Raise(_) => SAbort
      case Ok(true) =>
        (match Index(v, "guess")
         case Raise(e) => if CaughtInRound(e) then SInvalid else SAbort
         case Ok(gv) =>
           match ToInt(gv)
           case Ok(g) => SGuess(g)
           case Raise(e) => if CaughtInRound(e) then SInvalid else SAbort)
      case Ok(false) => if Has("exit", v) == Ok(true) then SExit else SIgnore
  }

  /** The outcome of one single player read: the attempts counter after it, the reply sent
      (if any), and whether the round loop breaks. */
  datatype Turn = Turn(attempts: nat, reply: Option<Reply>, over: bool)

  function SingleTurn(number: Target, attempts: nat, r: Read): Turn {
    if r.text == "" then Turn(attempts, None, true)
    else
      match SingleInputOf(r)
      case SGuess(g) =>
        if g > 10 || g <= 0 then Turn(attempts, Some(RangeError), EndsRound(RangeError))
        else
          var h := DetermineResponse(g, number);
          var used := attempts + 1;
          var response := if used >= MaxAttempts && h != YouDidIt then Exhausted else Hinted(h);
          Turn(used, Some(response), EndsRound(response))
      case SInvalid => Turn(attempts, Some(InvalidInput), false)
      case SExit => Turn(attempts, None, true)
      case SIgnore => Turn(attempts, None, false)
      case SAbort => Turn(attempts, None, true)
  }

  /** Attempt counting: exactly an in-range integer guess uses an attempt, and exactly one.
      An out-of-range guess gets the range error, an unparsable one the invalid-input reply,
      and neither uses an attempt or ends the round; 'exit' ends the round without a reply. */
  lemma SingleAttemptCounting(number: Target, attempts: nat, r: Read)
    ensures var t := SingleTurn(number, attempts, r);
      && (t.attempts == attempts + 1 <==>
            r.text != "" && SingleInputOf(r).SGuess? && 1 <= SingleInputOf(r).g <= 10)
      && (t.attempts == attempts || t.attempts == attempts + 1)
    ensures r.text != "" && SingleInputOf(r).SGuess? && !(1 <= SingleInputOf(r).g <= 10) ==>
      SingleTurn(number, attempts, r) == Turn(attempts, Some(RangeError), false)
    ensures r.text != "" && SingleInputOf(r) == SInvalid ==>
      SingleTurn(number, attempts, r) == Turn(attempts, Some(InvalidInput), false)
    ensures r.text != "" && SingleInputOf(r) == SExit ==>
      SingleTurn(number, attempts, r) == Turn(attempts, None, true)
  {
  }

  /** Round end: a counted guess ends the round exactly when it is correct or the fifth one;
      the fifth wrong guess is answered "Sorry" instead of its hint; and a round with tries
      left before a read has at most five after it, fewer unless the round is over. */
  lemma SingleRoundEnd(number: Target, attempts: nat, r: Read)
    requires attempts < MaxAttempts
    ensures var t := SingleTurn(number, attempts, r);
      && t.attempts <= MaxAttempts
      && (!t.over ==> t.attempts < MaxAttempts)
      && (t.attempts == attempts + 1 ==>
            (t.over <==> (SingleInputOf(r).g == number || t.attempts == MaxAttempts))
            && (t.reply == Some(Exhausted) <==> (SingleInputOf(r).g != number && t.attempts == MaxAttempts))
            && (t.reply != Some(Exhausted) ==>
                  t.reply == Some(Hinted(DetermineResponse(SingleInputOf(r).g, number)))))
  {
  }

  function SingleStep(c: ConnId, k: Conf, r: Read): (k': Conf)
    requires SessionInv(c, k) && k.phase.SinglePlay?
    ensures SessionInv(c, k') && k.wire <= k'.wire && k'.room == k.room
  {
    var t := SingleTurn(k.phase.number, k.phase.attempts, r);
    var sent := k.wire + (if t.reply.Some? then [Send(c, t.reply.value)] else []);
    if t.over then Conf(k.room, AwaitMode, sent + [Send(c, ModePrompt)])
    else Conf(k.room, SinglePlay(k.phase.number, t.attempts), sent)
  }

  // ---------------------------------------------------------------------------
  // Multiplayer (HW3/server.py:153-268)

  datatype MultiInput = MDisconnect | MEscape | MBadNumber | MGuess(g: int) | MExit | MIgnore

  /** What the multiplayer loop makes of one read before it takes the lock: `MEscape` is an
      exception that reaches the loop's generic handler, which breaks out without leaving. */
  function MultiInputOf(r: Read): MultiInput {
    if r.text == "" then MDisconnect
    else
      match r.doc
      case Malformed => MEscape
      case Parsed(v) =>
        match Get(v, "guess")
        case Raise(_) => MEscape
        case Ok(guess) =>
          if guess.Some? && Truthy(guess.value) then
            match ToInt(guess.value)
            case Ok(g) => MGuess(g)
            case Raise(e) => if CaughtInRound(e) then MBadNumber else MEscape
          else
            match Get(v, "exit")
            case Ok(Some(e)) => if Truthy(e) then MExit else MIgnore
            case _ => MIgnore
  }

  /** `data_json.get('guess')` is a truthiness test: a guess of 0 or "" is not a guess, and
      without a truthy 'exit' the read gets no reply at all. */
  lemma FalsyGuessIgnored(r: Read, g: Value)
    requires r.text != "" && r.doc == Parsed(Obj(map["guess" := g])) && !Truthy(g)
    ensures MultiInputOf(r) == MIgnore
  {
  }

  /** A truthy guess that `int()` refuses with ValueError gets the range error and nothing
      else: roster, attempts, target and phase stay as they were, so no attempt is used.
      `int()` runs before the lock is taken, so this holds in an exhausted room too. */
  lemma NonNumeralGuessRefused(c: ConnId, k: Conf, r: Read, v: Value, s: string)
    requires SessionInv(c, k) && k.phase == MultiPlay
    requires r.text != "" && r.doc == Parsed(v) && Get(v, "guess") == Ok(Some(Str(s)))
    requires s != "" && ParseInt(s) == None
    ensures MultiStep(c, k, r).room == k.room && MultiStep(c, k, r).phase == MultiPlay
    ensures MultiStep(c, k, r).wire == k.wire + [Send(c, RangeError)]
  {
  }

  function MultiStep(c: ConnId, k: Conf, r: Read): (k': Conf)
    requires SessionInv(c, k) && k.phase == MultiPlay
    ensures SessionInv(c, k') && k.wire <= k'.wire
  {
    match MultiInputOf(r)
    case MDisconnect =>
      var (room, ok) := DisconnectLeave(k.room, c);
      RemoveKeepsWeak(k.room, c);
      if ok then Conf(room, AwaitMode, k.wire + [Send(c, ModePrompt)]) else Conf(room, Closed(Failed), k.wire)
    case MEscape => k.(phase := AwaitMode, wire := k.wire + [Send(c, ModePrompt)])
    case MBadNumber => k.(wire := k.wire + [Send(c, RangeError)])
    case MGuess(g) =>
      var (room, out) := Guess(k.room, c, g, r.roll);
      Conf(room, MultiPlay, k.wire + out)
    case MExit =>
      RemoveKeepsWeak(k.room, c);
      Conf(Remove(k.room, c).0, AwaitMode, k.wire + [Send(c, ModePrompt)])
    case MIgnore => k
  }

  /** Inside a session the disconnect clean-up never raises: the connection always still has
      its attempts entry, so an empty read in the room returns to the prompt (whose read
      then finds the peer gone). */
  lemma DisconnectCleanupSucceeds(c: ConnId, k: Conf, r: Read)
    requires SessionInv(c, k) && k.phase == MultiPlay && r.text == ""
    ensures MultiStep(c, k, r).phase == AwaitMode
    ensures c !in MultiStep(c, k, r).room.attempts
  {
  }

  // ---------------------------------------------------------------------------
  // The whole session

  function Step(c: ConnId, k: Conf, r: Read): (k': Conf)
    requires SessionInv(c, k)
    ensures SessionInv(c, k') && k.wire <= k'.wire
  {
    match k.phase
    case Closed(_) => k
    case AwaitMode => ModeStep(c, k, r)
    case SinglePlay(_, _) => SingleStep(c, k, r)
    case MultiPlay => MultiStep(c, k, r)
  }

  /** The configuration after the first `n` reads of `input` (then end of stream). */
  function Run(c: ConnId, start: Conf, input: seq<Read>, n: nat): (k: Conf)
    requires SessionInv(c, start)
    ensures SessionInv(c, k) && start.wire <= k.wire
    decreases n, 0
  {
    if n == 0 then start else After(c, start, input, n - 1)
  }

  /** The configuration after read number `m` (counting from 0) has been handled. */
  function After(c: ConnId, start: Conf, input: seq<Read>, m: nat): (k: Conf)
    requires SessionInv(c, start)
    ensures SessionInv(c, k) && start.wire <= k.wire
    decreases m, 1
  {
    Step(c, Run(c, start, input, m), ReadAt(input, m))
  }

  /** One more read is one more step. */
  lemma RunNext(c: ConnId, start: Conf, input: seq<Read>, n: nat)
    requires SessionInv(c, start)
    ensures Run(c, start, input, n + 1) == Step(c, Run(c, start, input, n), ReadAt(input, n))
  {
    assert Run(c, start, input, n + 1) == After(c, start, input, n);
  }

  /** The step a single player read makes, in terms of its `SingleTurn`. */
  lemma SingleNext(c: ConnId, start: Conf, input: seq<Read>, n: nat, room: RoomState, number: Target,
                   attempts: nat, wire: seq<Send>)
    requires SessionInv(c, start)
    requires Run(c, start, input, n) == Conf(room, SinglePlay(number, attempts), wire)
    ensures var t := SingleTurn(number, attempts, ReadAt(input, n));
      var sent := wire + (if t.reply.Some? then [Send(c, t.reply.value)] else []);
      Run(c, start, input, n + 1) ==
        if t.over then Conf(room, AwaitMode, sent + [Send(c, ModePrompt)])
        else Conf(room, SinglePlay(number, t.attempts), sent)
  {
    RunNext(c, start, input, n);
  }

  /** The step a multiplayer read makes. */
  lemma MultiNext(c: ConnId, start: Conf, input: seq<Read>, n: nat, room: RoomState, wire: seq<Send>)
    requires SessionInv(c, start)
    requires Run(c, start, input, n) == Conf(room, MultiPlay, wire)
    ensures SessionInv(c, Conf(room, MultiPlay, wire))
    ensures Run(c, start, input, n + 1) == MultiStep(c, Conf(room, MultiPlay, wire), ReadAt(input, n))
  {
    RunNext(c, start, input, n);
  }

  /** The configuration in which `handle_client` sends its first prompt. */
  function Opening(c: ConnId, room: RoomState): Conf {
    Conf(room, AwaitMode, [Send(c, ModePrompt)])
  }

  /** 'exit' at the prompt ends the session; nothing moves a closed session. */
  lemma ClosedIsFinal(c: ConnId, k: Conf, r: Read)
    requires SessionInv(c, k) && k.phase.Closed?
    ensures Step(c, k, r) == k
  {
  }

  /** The reads of the roster drift scenario below. */
  function JoinRead(roll: Target): Read {
    Read("{\"mode\": \"2\"}", Parsed(Obj(map["mode" := Str("2")])), roll)
  }

  function JunkRead(roll: Target): Read { Read("{", Malformed, roll) }

  function LeaveRead(roll: Target): Read {
    Read("{\"exit\": \"exit\"}", Parsed(Obj(map["exit" := Str("exit")])), roll)
  }

  /** Choosing mode 2 from the prompt joins the room. */
  lemma JoinStep(c: ConnId, roll: Target, k: Conf)
    requires SessionInv(c, k) && k.phase == AwaitMode
    ensures Step(c, k, JoinRead(roll)) ==
      Conf(Join(k.room, c, roll), MultiPlay, k.wire + [Send(c, MultiRules)])
  {
    assert ChooseMode(JoinRead(roll)) == PlayMulti by {
      assert Get(JoinRead(roll).doc.v, "mode") == Ok(Some(Str("2")));
    }
  }

  /** Text that is not JSON in the room returns to the prompt with the room untouched. */
  lemma JunkStep(c: ConnId, roll: Target, k: Conf)
    requires SessionInv(c, k) && k.phase == MultiPlay
    ensures Step(c, k, JunkRead(roll)) == k.(phase := AwaitMode, wire := k.wire + [Send(c, ModePrompt)])
  {
  }

  /** A truthy 'exit' in the room leaves it and returns to the prompt. */
  lemma LeaveStep(c: ConnId, roll: Target, k: Conf)
    requires SessionInv(c, k) && k.phase == MultiPlay
    ensures Step(c, k, LeaveRead(roll)) == Conf(Remove(k.room, c).0, AwaitMode, k.wire + [Send(c, ModePrompt)])
  {
    assert MultiInputOf(LeaveRead(roll)) == MExit by {
      var v := LeaveRead(roll).doc.v;
      assert Get(v, "guess") == Ok(None);
      assert Get(v, "exit") == Ok(Some(Str("exit")));
    }
  }

  /** The four reads of the scenario: join, text that is not JSON, join, exit. */
  function DriftInput(roll: Target): seq<Read> {
    [JoinRead(roll), JunkRead(roll), JoinRead(roll), LeaveRead(roll)]
  }

  lemma DriftAfterOne(c: ConnId, roll: Target)
    ensures var k := Run(c, Opening(c, Empty), DriftInput(roll), 1);
      k.phase == MultiPlay && k.room == Join(Empty, c, roll)
  {
    RunNext(c, Opening(c, Empty), DriftInput(roll), 0);
    JoinStep(c, roll, Opening(c, Empty));
  }

  lemma DriftAfterTwo(c: ConnId, roll: Target)
    ensures var k := Run(c, Opening(c, Empty), DriftInput(roll), 2);
      k.phase == AwaitMode && k.room == Join(Empty, c, roll)
  {
    DriftAfterOne(c, roll);
    RunNext(c, Opening(c, Empty), DriftInput(roll), 1);
    JunkStep(c, roll, Run(c, Opening(c, Empty), DriftInput(roll), 1));
  }

  lemma DriftAfterThree(c: ConnId, roll: Target)
    ensures var k := Run(c, Opening(c, Empty), DriftInput(roll), 3);
      && k.phase == MultiPlay && k.room == Join(Join(Empty, c, roll), c, roll)
      && k.room.clients == [c, c] && k.room.attempts == map[c := MaxAttempts] && k.room.active
  {
    DriftAfterTwo(c, roll);
    RunNext(c, Opening(c, Empty), DriftInput(roll), 2);
    JoinStep(c, roll, Run(c, Opening(c, Empty), DriftInput(roll), 2));
  }

  /** The intended room invariant (`MultiRoom.Consistent`) is not kept by sessions as written. A client
      joins the room, sends text that is not JSON (the loop breaks out without leaving),
      joins again from the prompt (and is listed twice), then exits the room: it is still on
      the roster, without an attempts entry, and the room stays active. */
  lemma RosterDrift(c: ConnId, roll: Target)
    ensures var k := Run(c, Opening(c, Empty), DriftInput(roll), 4);
      && k.phase == AwaitMode
      && k.room.clients == [c] && k.room.attempts == map[] && k.room.active
      && !Consistent(k.room)
  {
    var k3 := Run(c, Opening(c, Empty), DriftInput(roll), 3);
    DriftAfterThree(c, roll);
    RunNext(c, Opening(c, Empty), DriftInput(roll), 3);
    LeaveStep(c, roll, k3);
    DriftLeave(k3.room, c);
  }

  /** Leaving a room that lists `c` twice removes one entry and the only attempts key. */
  lemma DriftLeave(s: RoomState, c: ConnId)
    requires s.clients == [c, c] && s.attempts == map[c := MaxAttempts]
    ensures Remove(s, c).0 == s.(clients := [c], attempts := map[])
  {
    assert RemoveFirst(s.clients, c) == [c];
    assert s.attempts - {c} == map[];
  }
}
