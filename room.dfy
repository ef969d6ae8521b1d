/** The shared multiplayer room of HW3/server.py as a value: the roster
    `multi_player_clients` (a list, in join order), the remaining tries
    `multi_player_attempts`, the target `multi_player_number` and the flag
    `multi_player_active`. Each operation below is one block run under
    `multi_player_lock`, so it is one atomic transition here. */
module MultiRoom {
  import opened Json
  import opened Hints
  import opened Wire

  datatype RoomState = RoomState(
    clients: seq<ConnId>,
    attempts: map<ConnId, int>,
    number: Option<Target>,
    active: bool)

  /** The room as `GameServer.__init__` leaves it. */
  const Empty: RoomState := RoomState([], map[], None, false)

  /** What every reachable room satisfies: every attempts key is on the roster, every
      value lies in [0, 5], the room is active exactly when the roster is non-empty, and
      an active room has a target. */
  predicate Weak(s: RoomState) {
    && (forall c | c in s.attempts :: c in s.clients && 0 <= s.attempts[c] <= MaxAttempts)
    && (s.active <==> s.clients != [])
    && (s.active ==> s.number.Some?)
  }

  predicate NoDuplicates(xs: seq<ConnId>) {
    forall i, j | 0 <= i < j < |xs| :: xs[i] != xs[j]
  }

  /** The intended room invariant: the attempts keys are exactly the roster, which holds
      each connection once. HW3/server.py evidently means this: it declares the attempts
      map as one entry per multiplayer client (31-32), resets it by a comprehension over the
      roster (176-177), and leaves by `remove` followed by `del` (251-252). */
  predicate Consistent(s: RoomState) {
    && Weak(s)
    && NoDuplicates(s.clients)
    && (forall c | c in s.clients :: c in s.attempts)
  }

  /** `all(attempts <= 0 for attempts in multi_player_attempts.values())`, true of an empty map. */
  predicate AllExhausted(m: map<ConnId, int>) {
    forall c | c in m :: m[c] <= 0
  }

  /** `{c: max_attempts for c in multi_player_clients}`. */
  function FreshAttempts(clients: seq<ConnId>): (m: map<ConnId, int>)
    ensures forall c :: c in m <==> c in clients
    ensures forall c | c in m :: m[c] == MaxAttempts
  {
    map c | c in clients :: MaxAttempts
  }

  /** One `sendall` of reply `r` to each roster entry, in roster order. */
  function Broadcast(clients: seq<ConnId>, r: Reply): (out: seq<Send>)
    ensures |out| == |clients|
    ensures forall i :: 0 <= i < |clients| ==> out[i] == Send(clients[i], r)
  {
    seq(|clients|, i requires 0 <= i < |clients| => Send(clients[i], r))
  }

  /** The win fan-out: "you did it" to the winner, "someone guessed" to everyone else. */
  function Announce(clients: seq<ConnId>, winner: ConnId): (out: seq<Send>)
    ensures |out| == |clients|
    ensures forall i :: 0 <= i < |clients| ==>
      out[i] == Send(clients[i], if clients[i] == winner then YouWon else SomeoneWon)
  {
    seq(|clients|, i requires 0 <= i < |clients| =>
      Send(clients[i], if clients[i] == winner then YouWon else SomeoneWon))
  }

  /** The room after a round-ending event: a new target, every roster member back at five. */
  function Restarted(s: RoomState, roll: Target): (t: RoomState)
    ensures t.clients == s.clients && t.active == s.active && t.number == Some(roll)
    ensures forall c :: c in t.attempts <==> c in s.clients
    ensures forall c | c in t.attempts :: t.attempts[c] == MaxAttempts
  {
    s.(number := Some(roll), attempts := FreshAttempts(s.clients))
  }

  /** Joining (HW3/server.py:142-147): an inactive room draws its target and activates;
      the connection is appended to the roster with five attempts. */
  function Join(s: RoomState, c: ConnId, roll: Target): (t: RoomState)
    ensures t.active && t.clients == s.clients + [c]
    ensures t.attempts == s.attempts[c := MaxAttempts]
    ensures t.number == if s.active then s.number else Some(roll)
  {
    RoomState(s.clients + [c], s.attempts[c := MaxAttempts], if s.active then s.number else Some(roll), true)
  }

  /** The position of the first occurrence of `c`, as `list.index(c)` gives it. */
  function FirstIndex(xs: seq<ConnId>, c: ConnId): (i: nat)
    requires c in xs
    ensures i < |xs| && xs[i] == c && c !in xs[..i]
  {
    if xs[0] == c then 0
    else
      var i := FirstIndex(xs[1..], c);
      assert xs[..i + 1] == [xs[0]] + xs[1..][..i];
      i + 1
  }

  /** `list.remove(c)`: drops the first occurrence; `RemoveFirstCutsFirst` states where. */
  function RemoveFirst(xs: seq<ConnId>, c: ConnId): (ys: seq<ConnId>)
    ensures c !in xs ==> ys == xs
    ensures c in xs ==> |ys| == |xs| - 1 && multiset(ys) == multiset(xs) - multiset{c}
  {
    if xs == [] then []
    else if xs[0] == c then
      assert xs == [c] + xs[1..];
      xs[1..]
    else
      assert xs == [xs[0]] + xs[1..];
      [xs[0]] + RemoveFirst(xs[1..], c)
  }

  /** Cutting position `i + 1` of `xs` is keeping its head and cutting position `i` of its tail. */
  lemma CutAfterHead(xs: seq<ConnId>, i: nat)
    requires i + 1 < |xs|
    ensures [xs[0]] + (xs[1..][..i] + xs[1..][i + 1..]) == xs[..i + 1] + xs[i + 2..]
  {
    assert xs[..i + 1] == [xs[0]] + xs[1..][..i];
    assert xs[i + 2..] == xs[1..][i + 1..];
  }

  /** The removal cuts exactly the first occurrence and keeps the rest in order. */
  lemma {:induction false} RemoveFirstCutsFirst(xs: seq<ConnId>, c: ConnId)
    requires c in xs
    ensures RemoveFirst(xs, c) == xs[..FirstIndex(xs, c)] + xs[FirstIndex(xs, c) + 1..]
    decreases |xs|
  {
    if xs[0] == c {
      assert xs[..0] + xs[1..] == xs[1..];
    } else {
      RemoveFirstCutsFirst(xs[1..], c);
      CutAfterHead(xs, FirstIndex(xs[1..], c));
    }
  }

  /** Leaving (HW3/server.py:251-254): `remove` from the roster, `del` from the attempts,
      and deactivate once the roster is empty; `active` is not set otherwise and the target
      is kept. `remove` raises ValueError when `c` is not on the roster, and `del` raises
      KeyError (after the roster already lost `c`) when `c` has no attempts entry; the second
      component is false exactly when one of them raised. */
  function Remove(s: RoomState, c: ConnId): (res: (RoomState, bool))
    ensures c !in s.clients ==> res == (s, false)
    ensures c in s.clients && c !in s.attempts ==>
      res == (s.(clients := RemoveFirst(s.clients, c)), false)
    ensures c in s.clients && c in s.attempts ==>
      && res.1
      && res.0 == RoomState(RemoveFirst(s.clients, c), s.attempts - {c}, s.number,
                            if RemoveFirst(s.clients, c) == [] then false else s.active)
  {
    if c !in s.clients then (s, false)
    else
      var rest := RemoveFirst(s.clients, c);
      if c !in s.attempts then (s.(clients := rest), false)
      else (RoomState(rest, s.attempts - {c}, s.number, if rest == [] then false else s.active), true)
  }

  /** The disconnect clean-up (HW3/server.py:259-264): the same removal, guarded by
      `if connection in self.multi_player_clients`; false when `del` raised. */
  function DisconnectLeave(s: RoomState, c: ConnId): (res: (RoomState, bool))
    ensures c !in s.clients ==> res == (s, true)
    ensures c in s.clients ==> res == Remove(s, c)
  {
    if c in s.clients then Remove(s, c) else (s, true)
  }

  /** One guess `g` (already through `int()`) by `c`, under the lock (HW3/server.py:162-241):
      the new room and the `sendall`s, in order. `roll` is the number any restart draws. */
  function Guess(s: RoomState, c: ConnId, g: int, roll: Target): (res: (RoomState, seq<Send>))
    requires Weak(s)
  {
    if AllExhausted(s.attempts) then
      (Restarted(s, roll), Broadcast(s.clients, AllExhaustedBefore))
    else if c !in s.attempts then
      // the KeyError of `multi_player_attempts[connection]` is caught as a bad guess
      (s, [Send(c, RangeError)])
    else if s.attempts[c] <= 0 then
      (s, [Send(c, Exhausted)])
    else if g > 10 || g <= 0 then
      (s, [Send(c, RangeError)])
    else
      var left := s.attempts[c := s.attempts[c] - 1];
      var h := DetermineResponse(g, s.number.value);
      if h == YouDidIt then (Restarted(s, roll), Announce(s.clients, c))
      else if AllExhausted(left) then (Restarted(s, roll), Broadcast(s.clients, AllExhaustedAfter))
      else if left[c] <= 0 then (s.(attempts := left), [Send(c, Exhausted)])
      else (s.(attempts := left), [Send(c, Hinted(h))])
  }

  // ---------------------------------------------------------------------------
  // Room invariants

  lemma {:induction false} RemoveFirstMembers(xs: seq<ConnId>, c: ConnId, d: ConnId)
    requires d != c
    ensures d in RemoveFirst(xs, c) <==> d in xs
  {
    if c in xs {
      var ys := RemoveFirst(xs, c);
      assert d in multiset(ys) <==> d in multiset(xs);
    }
  }

  lemma NoDuplicatesTail(xs: seq<ConnId>)
    requires xs != [] && NoDuplicates(xs)
    ensures NoDuplicates(xs[1..]) && xs[0] !in xs[1..]
  {
    forall i, j | 0 <= i < j < |xs[1..]| ensures xs[1..][i] != xs[1..][j] {
      assert xs[1..][i] == xs[i + 1] && xs[1..][j] == xs[j + 1];
    }
  }

  lemma NoDuplicatesCons(x: ConnId, ys: seq<ConnId>)
    requires x !in ys && NoDuplicates(ys)
    ensures NoDuplicates([x] + ys)
  {
    var zs := [x] + ys;
    forall i, j | 0 <= i < j < |zs| ensures zs[i] != zs[j] {
      assert zs[j] == ys[j - 1];
      if i > 0 { assert zs[i] == ys[i - 1]; }
    }
  }

  lemma {:induction false} RemoveFirstNoDuplicates(xs: seq<ConnId>, c: ConnId)
    requires NoDuplicates(xs)
    ensures NoDuplicates(RemoveFirst(xs, c)) && c !in RemoveFirst(xs, c)
    decreases |xs|
  {
    if xs != [] {
      NoDuplicatesTail(xs);
      if xs[0] != c {
        RemoveFirstNoDuplicates(xs[1..], c);
        var tail := RemoveFirst(xs[1..], c);
        RemoveFirstMembers(xs[1..], c, xs[0]);
        NoDuplicatesCons(xs[0], tail);
        assert RemoveFirst(xs, c) == [xs[0]] + tail;
      }
    }
  }

  lemma JoinKeepsWeak(s: RoomState, c: ConnId, roll: Target)
    requires Weak(s)
    ensures Weak(Join(s, c, roll))
  {
  }

  /** Joining a connection that is not yet on the roster keeps the intended invariant. */
  lemma JoinKeepsConsistent(s: RoomState, c: ConnId, roll: Target)
    requires Consistent(s) && c !in s.clients
    ensures Consistent(Join(s, c, roll))
    ensures Join(s, c, roll).attempts[c] == MaxAttempts
  {
    var t := Join(s, c, roll);
    forall i, j | 0 <= i < j < |t.clients| ensures t.clients[i] != t.clients[j] {
      if j == |s.clients| { assert t.clients[i] == s.clients[i]; }
    }
  }

  /** A connection that joins while still on the roster is listed twice. */
  lemma RejoinDuplicates(s: RoomState, c: ConnId, roll: Target)
    requires c in s.clients
    ensures !NoDuplicates(Join(s, c, roll).clients)
  {
    var t := Join(s, c, roll);
    var i :| 0 <= i < |s.clients| && s.clients[i] == c;
    assert t.clients[i] == t.clients[|s.clients|];
  }

  /** Removal keeps the weak invariant unless `c` is on the roster without an attempts entry
      (the one case where `del` raises after `remove` succeeded). */
  lemma RemoveKeepsWeak(s: RoomState, c: ConnId)
    requires Weak(s) && (c in s.attempts || c !in s.clients)
    ensures Weak(Remove(s, c).0)
  {
    if c in s.clients {
      var t := Remove(s, c).0;
      forall d | d in t.attempts ensures d in t.clients {
        RemoveFirstMembers(s.clients, c, d);
      }
    }
  }

  /** Leaving a consistent room (by exit or by disconnect) succeeds, takes the connection off
      both the roster and the attempts map, keeps everyone else, and leaves the room inactive
      exactly when the roster becomes empty. */
  lemma LeaveKeepsConsistent(s: RoomState, c: ConnId)
    requires Consistent(s) && c in s.clients
    ensures Remove(s, c).1 && DisconnectLeave(s, c) == Remove(s, c)
    ensures var t := Remove(s, c).0;
      && Consistent(t)
      && c !in t.clients && c !in t.attempts
      && (forall d | d != c :: (d in t.clients <==> d in s.clients))
      && (t.active <==> |s.clients| > 1)
      && t.number == s.number
  {
    var t := Remove(s, c).0;
    RemoveFirstNoDuplicates(s.clients, c);
    forall d | d != c ensures d in t.clients <==> d in s.clients {
      RemoveFirstMembers(s.clients, c, d);
    }
    RemoveKeepsWeak(s, c);
  }

  lemma GuessKeepsWeak(s: RoomState, c: ConnId, g: int, roll: Target)
    requires Weak(s)
    ensures Weak(Guess(s, c, g, roll).0)
  {
  }

  lemma GuessKeepsConsistent(s: RoomState, c: ConnId, g: int, roll: Target)
    requires Consistent(s)
    ensures Consistent(Guess(s, c, g, roll).0)
  {
  }

  /** A guess never changes the roster or the active flag, and another member's operation
      never takes `c`'s attempts entry away: what makes interleaving sessions safe. */
  lemma OthersKeepMembership(s: RoomState, c: ConnId, d: ConnId, g: int, roll: Target)
    requires Weak(s) && c in s.attempts && d != c
    ensures Guess(s, d, g, roll).0.clients == s.clients && Guess(s, d, g, roll).0.active == s.active
    ensures c in Guess(s, d, g, roll).0.attempts
    ensures c in Join(s, d, roll).attempts
    ensures c in Remove(s, d).0.attempts && c in DisconnectLeave(s, d).0.attempts
  {
  }

  // ---------------------------------------------------------------------------
  // The guess rules

  /** Pre-check 1 (HW3/server.py:164-178): once every attempts value is spent, the guess is
      discarded whatever it is and whoever sent it; every roster entry is told that everyone
      is out, the target is redrawn and every member is back at five. */
  lemma ExhaustedRoomRestarts(s: RoomState, c: ConnId, g: int, roll: Target)
    requires Weak(s) && AllExhausted(s.attempts)
    ensures Guess(s, c, g, roll) == (Restarted(s, roll), Broadcast(s.clients, AllExhaustedBefore))
  {
  }

  /** Pre-checks 2 and 3 (HW3/server.py:181-188): a guesser with no tries left, or a guess
      outside 1..10, gets one reply and changes nothing. */
  lemma RefusedGuessChangesNothing(s: RoomState, c: ConnId, g: int, roll: Target)
    requires Weak(s) && !AllExhausted(s.attempts) && c in s.attempts
    requires s.attempts[c] <= 0 || g > 10 || g <= 0
    ensures Guess(s, c, g, roll).0 == s
    ensures Guess(s, c, g, roll).1 == [Send(c, if s.attempts[c] <= 0 then Exhausted else RangeError)]
  {
  }

  /** A counted guess (HW3/server.py:190-241). A correct one restarts the round and tells
      every roster entry exactly once: "you did it" to the guesser, "someone guessed" to the
      rest. A wrong one that spends the last try in the room restarts it with one "everyone
      is out" per roster entry. Any other wrong one takes one try from the guesser alone and
      answers the guesser alone: "Sorry" if that was its last try, the hint otherwise. */
  lemma CountedGuess(s: RoomState, c: ConnId, g: int, roll: Target)
    requires Weak(s) && !AllExhausted(s.attempts) && c in s.attempts && s.attempts[c] > 0
    requires 1 <= g <= 10
    ensures var (t, out) := Guess(s, c, g, roll);
      var left := s.attempts[c := s.attempts[c] - 1];
      && (g == s.number.value ==>
            t == Restarted(s, roll)
            && |out| == |s.clients|
            && (forall i :: 0 <= i < |out| ==> out[i].to == s.clients[i])
            && (forall i :: 0 <= i < |out| ==> (out[i].reply == YouWon <==> s.clients[i] == c))
            && (forall i :: 0 <= i < |out| ==> (out[i].reply == SomeoneWon <==> s.clients[i] != c)))
      && (g != s.number.value && AllExhausted(left) ==>
            t == Restarted(s, roll) && out == Broadcast(s.clients, AllExhaustedAfter))
      && (g != s.number.value && !AllExhausted(left) ==>
            t == s.(attempts := left)
            && out == [Send(c, if left[c] <= 0 then Exhausted else Hinted(DetermineResponse(g, s.number.value)))])
  {
  }

  /** Tries only go down, by one, for the guesser alone, unless the whole round restarts;
      then every roster member has the same five. */
  lemma AttemptsOnlyFall(s: RoomState, c: ConnId, g: int, roll: Target)
    requires Weak(s)
    ensures var t := Guess(s, c, g, roll).0;
      || t == Restarted(s, roll)
      || t == s
      || (c in s.attempts && s.attempts[c] > 0 && t == s.(attempts := s.attempts[c := s.attempts[c] - 1]))
  {
  }

  // ---------------------------------------------------------------------------
  // Two-player rounds

  /** Two players join a fresh room whose target is 4, and the first one guesses 4. */
  lemma FirstGuessWins(a: ConnId, b: ConnId, x: Target, roll: Target)
    requires a != b
    ensures var s := Join(Join(Empty, a, 4), b, x);
      var (t, out) := Guess(s, a, 4, roll);
      && s.number == Some(4)
      && out == [Send(a, YouWon), Send(b, SomeoneWon)]
      && t.attempts == map[a := MaxAttempts, b := MaxAttempts]
      && t.number == Some(roll)
  {
    var s := Join(Join(Empty, a, 4), b, x);
    assert s.clients == [a, b];
    var t := Guess(s, a, 4, roll).0;
    assert t.attempts == map[a := MaxAttempts, b := MaxAttempts];
  }

  /** Two players with one try left each, against target 3, both guess 1: the first gets
      "Sorry", the second spends the room's last try and both hear that everyone is out. */
  lemma BothRunOut(a: ConnId, b: ConnId, roll: Target)
    requires a != b
    ensures var s := RoomState([a, b], map[a := 1, b := 1], Some(3), true);
      var (s1, out1) := Guess(s, a, 1, roll);
      var (s2, out2) := Guess(s1, b, 1, roll);
      && out1 == [Send(a, Exhausted)]
      && out2 == [Send(a, AllExhaustedAfter), Send(b, AllExhaustedAfter)]
      && s2.attempts == map[a := MaxAttempts, b := MaxAttempts]
      && s2.number == Some(roll)
  {
    var s := RoomState([a, b], map[a := 1, b := 1], Some(3), true);
    assert !AllExhausted(s.attempts) by { assert s.attempts[a] > 0; }
    var left1 := s.attempts[a := 0];
    assert !AllExhausted(left1) by { assert left1[b] > 0; }
    var s1 := Guess(s, a, 1, roll).0;
    assert s1 == s.(attempts := left1);
    var left2 := left1[b := 0];
    assert AllExhausted(left2);
    var s2 := Guess(s1, b, 1, roll).0;
    assert s2.attempts == map[a := MaxAttempts, b := MaxAttempts];
  }
}
