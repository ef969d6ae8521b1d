/** The `GameServer` object of HW3/server.py: the room fields it updates in place, the
    methods that run one block under `multi_player_lock`, and the three loops
    (`handle_client`, `single_player_game`, `multi_player_game`) that drive one connection.
    Every `sendall` is appended to `wire`. Each loop is proved to follow the per-read state
    machine `Session.Run` step by step. */
module TlsServer {
  import opened Json
  import opened Hints
  import opened Wire
  import opened MultiRoom
  import opened Session

  class GameServer {
    var clients: seq<ConnId>
    var attempts: map<ConnId, int>
    var number: Option<Target>
    var active: bool
    var wire: seq<Send>

    /** The room fields as one value. */
    function State(): RoomState
      reads this
    {
      RoomState(clients, attempts, number, active)
    }

    constructor ()
      ensures State() == Empty && wire == []
    {
      clients := [];
      attempts := map[];
      number := None;
      active := false;
      wire := [];
    }

    /** `for client in self.multi_player_clients: client.sendall(msg)`. */
    method BroadcastAll(r: Reply)
      modifies this`wire
      ensures wire == old(wire) + Broadcast(clients, r)
    {
      var i := 0;
      while i < |clients|
        invariant 0 <= i <= |clients|
        invariant wire == old(wire) + Broadcast(clients[..i], r)
      {
        wire := wire + [Send(clients[i], r)];
        i := i + 1;
        assert Broadcast(clients[..i], r) == Broadcast(clients[..i - 1], r) + [Send(clients[i - 1], r)];
      }
      assert clients[..i] == clients;
    }

    /** The win fan-out loop: the winner and everyone else get different texts. */
    method AnnounceWin(winner: ConnId)
      modifies this`wire
      ensures wire == old(wire) + Announce(clients, winner)
    {
      var i := 0;
      while i < |clients|
        invariant 0 <= i <= |clients|
        invariant wire == old(wire) + Announce(clients[..i], winner)
      {
        var msg := if clients[i] == winner then YouWon else SomeoneWon;
        wire := wire + [Send(clients[i], msg)];
        i := i + 1;
        assert Announce(clients[..i], winner) == Announce(clients[..i - 1], winner) + [Send(clients[i - 1], msg)];
      }
      assert clients[..i] == clients;
    }

    /** Restart the round: a new target, and five attempts for everyone on the roster. */
    method Restart(roll: Target)
      modifies this`number, this`attempts
      ensures State() == Restarted(old(State()), roll)
    {
      number := Some(roll);
      attempts := map d | d in clients :: MaxAttempts;
    }

    /** HW3/server.py:142-147. */
    method JoinRoom(c: ConnId, roll: Target)
      modifies this
      ensures State() == Join(old(State()), c, roll) && wire == old(wire)
    {
      if !active {
        number := Some(roll);
        active := true;
      }
      clients := clients + [c];
      attempts := attempts[c := MaxAttempts];
    }

    /** HW3/server.py:250-254; `ok` is false when `remove` or `del` raises. */
    method LeaveRoom(c: ConnId) returns (ok: bool)
      modifies this
      ensures (State(), ok) == Remove(old(State()), c) && wire == old(wire)
    {
      if c !in clients {
        return false;
      }
      clients := RemoveFirst(clients, c);
      if c !in attempts {
        return false;
      }
      attempts := attempts - {c};
      if clients == [] {
        active := false;
      }
      ok := true;
    }

    /** HW3/server.py:259-264, the clean-up after a disconnect. */
    method DisconnectCleanup(c: ConnId) returns (ok: bool)
      modifies this
      ensures (State(), ok) == DisconnectLeave(old(State()), c) && wire == old(wire)
    {
      ok := true;
      if c in clients {
        ok := LeaveRoom(c);
      }
    }

    /** HW3/server.py:162-241: one guess `g` by `c` under the lock. */
    method GuessUnderLock(c: ConnId, g: int, roll: Target)
      requires Weak(State())
      modifies this
      ensures State() == Guess(old(State()), c, g, roll).0
      ensures wire == old(wire) + Guess(old(State()), c, g, roll).1
    {
      if AllExhausted(attempts) {
        BroadcastAll(AllExhaustedBefore);
        Restart(roll);
        return;
      }
      if c !in attempts {
        wire := wire + [Send(c, RangeError)];
        return;
      }
      if attempts[c] <= 0 {
        wire := wire + [Send(c, Exhausted)];
        return;
      }
      if g > 10 || g <= 0 {
        wire := wire + [Send(c, RangeError)];
        return;
      }
      attempts := attempts[c := attempts[c] - 1];
      var h := DetermineResponse(g, number.value);
      if h == YouDidIt {
        AnnounceWin(c);
        Restart(roll);
        return;
      }
      if AllExhausted(attempts) {
        BroadcastAll(AllExhaustedAfter);
        Restart(roll);
        return;
      }
      if attempts[c] <= 0 {
        wire := wire + [Send(c, Exhausted)];
      } else {
        wire := wire + [Send(c, Hinted(h))];
      }
    }

    /** One pass of the `single_player_game` loop over read `r` with `attempts` tries used:
        the tries used after it and whether the loop breaks. */
    method SingleRound(c: ConnId, number: Target, attempts: nat, r: Read) returns (used: nat, over: bool)
      modifies this`wire
      ensures var t := SingleTurn(number, attempts, r);
        && used == t.attempts && over == t.over
        && wire == old(wire) + (if t.reply.Some? then [Send(c, t.reply.value)] else [])
      ensures !over ==> r.text != ""
    {
      used := attempts;
      if r.text == "" {
        return used, true;
      }
      match SingleInputOf(r)
      case SGuess(g) =>
        var response;
        if g > 10 || g <= 0 {
          response := RangeError;
        } else {
          var h := DetermineResponse(g, number);
          used := used + 1;
          response := Hinted(h);
          if used >= MaxAttempts && h != YouDidIt {
            response := Exhausted;
          }
        }
        wire := wire + [Send(c, response)];
        over := EndsRound(response);
      case SInvalid =>
        wire := wire + [Send(c, InvalidInput)];
        over := false;
      case SExit =>
        over := true;
      case SIgnore =>
        over := false;
      case SAbort =>
        over := true;
    }

    /** `single_player_game`, entered after the mode read with index `k0 - 1`; returns the
        index of the next unread read. `roll` is what `randint` draws for the target. */
    method SinglePlayerGame(c: ConnId, input: seq<Read>, k0: nat, roll: Target, ghost start: Conf)
        returns (k: nat)
      requires SessionInv(c, start) && k0 <= |input|
      requires Run(c, start, input, k0) == Conf(State(), SinglePlay(roll, 0), wire + [Send(c, SingleRules)])
      modifies this`wire
      ensures k0 < k <= |input| + 1
      ensures Run(c, start, input, k) == Conf(State(), AwaitMode, wire + [Send(c, ModePrompt)])
    {
      var attempts: nat := 0;
      wire := wire + [Send(c, SingleRules)];
      k := k0;
      while attempts < MaxAttempts
        invariant k0 <= k <= |input|
        invariant Run(c, start, input, k) == Conf(State(), SinglePlay(roll, attempts), wire)
        decreases |input| - k
      {
        var r := ReadAt(input, k);
        SingleNext(c, start, input, k, State(), roll, attempts, wire);
        k := k + 1;
        var over;
        attempts, over := SingleRound(c, roll, attempts, r);
        if over {
          break;
        }
      }
    }

    /** One pass of the `multi_player_game` loop over read `r`: `more` when the loop goes
        on, and otherwise `ok` when it returns normally. */
    method MultiRound(c: ConnId, r: Read) returns (more: bool, ok: bool)
      requires SessionInv(c, Conf(State(), MultiPlay, wire))
      modifies this
      ensures more ==> r.text != ""
      ensures MultiStep(c, Conf(old(State()), MultiPlay, old(wire)), r) ==
        if more then Conf(State(), MultiPlay, wire)
        else if ok then Conf(State(), AwaitMode, wire + [Send(c, ModePrompt)])
        else Conf(State(), Closed(Failed), wire)
    {
      more, ok := false, true;
      match MultiInputOf(r)
      case MDisconnect =>
        ok := DisconnectCleanup(c);
      case MEscape =>
      case MBadNumber =>
        wire := wire + [Send(c, RangeError)];
        more := true;
      case MGuess(g) =>
        GuessUnderLock(c, g, r.roll);
        more := true;
      case MExit =>
        var _ := LeaveRoom(c);
      case MIgnore =>
        more := true;
    }

    /** `multi_player_game`, entered after the mode read with index `k0 - 1`; `ok` is false
        when the disconnect clean-up raises, which ends `handle_client` through its generic
        handler. */
    method MultiPlayerGame(c: ConnId, input: seq<Read>, k0: nat, roll: Target, ghost start: Conf)
        returns (ok: bool, k: nat)
      requires SessionInv(c, start) && k0 <= |input|
      requires Run(c, start, input, k0) == Conf(Join(State(), c, roll), MultiPlay, wire + [Send(c, MultiRules)])
      modifies this
      ensures k0 < k <= |input| + 1
      ensures ok ==> Run(c, start, input, k) == Conf(State(), AwaitMode, wire + [Send(c, ModePrompt)])
      ensures !ok ==> Run(c, start, input, k) == Conf(State(), Closed(Failed), wire)
    {
      JoinRoom(c, roll);
      wire := wire + [Send(c, MultiRules)];
      ok, k := RoomLoop(c, input, k0, start);
    }

    /** The read loop of `multi_player_game` (HW3/server.py:153-268), once the client has
        joined and been told the rules. */
    method RoomLoop(c: ConnId, input: seq<Read>, k0: nat, ghost start: Conf)
        returns (ok: bool, k: nat)
      requires SessionInv(c, start) && k0 <= |input|
      requires Run(c, start, input, k0) == Conf(State(), MultiPlay, wire)
      modifies this
      ensures k0 < k <= |input| + 1
      ensures ok ==> Run(c, start, input, k) == Conf(State(), AwaitMode, wire + [Send(c, ModePrompt)])
      ensures !ok ==> Run(c, start, input, k) == Conf(State(), Closed(Failed), wire)
    {
      k := k0;
      while true
        invariant k0 <= k <= |input|
        invariant Run(c, start, input, k) == Conf(State(), MultiPlay, wire)
        invariant SessionInv(c, Conf(State(), MultiPlay, wire))
        decreases |input| - k
      {
        var r := ReadAt(input, k);
        MultiNext(c, start, input, k, State(), wire);
        k := k + 1;
        var more;
        more, ok := MultiRound(c, r);
        if !more {
          return;
        }
      }
    }

    /** `handle_client` for connection `c` reading `input` (then end of stream), running
        alone against the room: the session ends for reason `why` after `n` reads, in the
        configuration `Session.Run` gives for them. */
    method HandleClient(c: ConnId, input: seq<Read>) returns (why: EndReason, n: nat)
      requires Weak(State())
      modifies this
      ensures 0 < n <= |input| + 2
      ensures Run(c, Conf(old(State()), AwaitMode, old(wire) + [Send(c, ModePrompt)]), input, n)
        == Conf(State(), Closed(why), wire)
    {
      ghost var start := Conf(State(), AwaitMode, wire + [Send(c, ModePrompt)]);
      n := 0;
      while true
        invariant n <= |input| + 1
        invariant Run(c, start, input, n) == Conf(State(), AwaitMode, wire + [Send(c, ModePrompt)])
        decreases |input| + 1 - n
      {
        wire := wire + [Send(c, ModePrompt)];
        var r := ReadAt(input, n);
        n := n + 1;
        match ChooseMode(r)
        case PlaySingle =>
          n := SinglePlayerGame(c, input, n, r.roll, start);
        case PlayMulti =>
          var ok;
          ok, n := MultiPlayerGame(c, input, n, r.roll, start);
          if !ok {
            return Failed, n;
          }
        case Quit =>
          return ClientExit, n;
        case Reprompt =>
        case Stop(w) =>
          return w, n;
      }
    }
  }
}
