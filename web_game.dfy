/** The Flask variant of the game (HW4/app.py): the hard-coded credential table, and the two
    SQLite tables `users` and `games` as in-memory collections that `login` and `game`
    update in place. */
module WebGame {
  import opened Json
  import opened Wire

  /** The module-level `users` dict of accepted credentials. */
  const Credentials: map<string, string> :=
    map["user1" := "password1", "user2" := "password2", "user3" := "password3"]

  /** `username in users and users[username] == password`. */
  predicate CredentialsOk(username: string, password: string) {
    username in Credentials && Credentials[username] == password
  }

  /** Exactly the three hard-coded pairs log in. */
  lemma OnlyHardCodedPairs(username: string, password: string)
    ensures CredentialsOk(username, password) <==>
      (username, password) in {("user1", "password1"), ("user2", "password2"), ("user3", "password3")}
  {
  }

  /** A `users` row: the password stored at first login and the score. */
  datatype UserRow = UserRow(password: string, score: int)

  /** A `games` row; its id is its position in the table. */
  datatype GameRow = GameRow(user: string, number: Target, attempts: nat, finished: bool)

  /** The messages `game` flashes. */
  datatype Flash = BadGuess | DidIt | TooSmall | TooHigh | NoTriesLeft | Rules

  function FlashText(f: Flash): string {
    match f
    case BadGuess => "Your input needs to be a number between 0 and 10!"
    case DidIt => "Congratulations, you did it."
    case TooSmall => "Hint: You guessed too small!"
    case TooHigh => "Hint: You guessed too high!"
    case NoTriesLeft => "Sorry, you've used all your attempts!"
    case Rules => "You have a total of 5 attempts. Guess a number between 1 to 10:"
  }

  /** The guess form as the request carries it: not posted, or posted with a text. */
  datatype GuessForm = NotPosted | Posted(text: string)

  /** `form.validate_on_submit()` with the `DataRequired` validator: posted and not blank. */
  predicate Validated(form: GuessForm) {
    form.Posted? && Strip(form.text) != ""
  }

  /** `int(form.guess.data)`, refused outside 0..10 like a non-numeral. */
  function AcceptedGuess(text: string): (g: Option<int>)
    ensures g.Some? ==> 0 <= g.value <= 10
    ensures g.Some? <==> ParseInt(text).Some? && 0 <= ParseInt(text).value <= 10
  {
    match ParseInt(text)
    case None => None
    case Some(n) => if n < 0 || n > 10 then None else Some(n)
  }

  /** The guess step on a game row (HW4/app.py:121-151): the row after an accepted guess
      `g`, and the message flashed. */
  function Judge(row: GameRow, g: int): (GameRow, Flash) {
    var attempts := row.attempts + 1;
    var message := if g == row.number then DidIt else if g < row.number then TooSmall else TooHigh;
    if attempts >= MaxAttempts && g != row.number then (row.(attempts := attempts, finished := true), NoTriesLeft)
    else (row.(attempts := attempts, finished := row.finished || g == row.number), message)
  }

  /** An accepted guess uses exactly one attempt and touches nothing but the attempts and
      the finished flag. A correct guess finishes the game. A wrong guess gets the hint its
      comparison gives, unless it is the fifth, which gets "Sorry" and finishes the game;
      otherwise the game stays as unfinished as it was. */
  lemma JudgeRules(row: GameRow, g: int)
    ensures var (next, message) := Judge(row, g);
      && next.attempts == row.attempts + 1
      && next.user == row.user && next.number == row.number
      && (g == row.number ==> next.finished && message == DidIt)
      && (g != row.number && row.attempts + 1 >= MaxAttempts ==> next.finished && message == NoTriesLeft)
      && (g < row.number && row.attempts + 1 < MaxAttempts ==> message == TooSmall && next.finished == row.finished)
      && (g > row.number && row.attempts + 1 < MaxAttempts ==> message == TooHigh && next.finished == row.finished)
  {
  }

  /** What every row of the `games` table satisfies: an unfinished game has tries left, and
      no game has used more than five. */
  predicate RowOk(row: GameRow) {
    row.attempts <= MaxAttempts && (!row.finished ==> row.attempts < MaxAttempts)
  }

  /** The guess step keeps rows sound. */
  lemma JudgeKeepsRowOk(row: GameRow, g: int)
    requires RowOk(row) && !row.finished
    ensures RowOk(Judge(row, g).0)
  {
  }

  /** Whether `i` is an unfinished game of `user`: a row `WHERE user_id = ? AND finished = 0`
      selects. */
  predicate OpenGame(games: seq<GameRow>, user: string, i: int) {
    0 <= i < |games| && games[i].user == user && !games[i].finished
  }

  predicate HasOpenGame(games: seq<GameRow>, user: string) {
    exists i | 0 <= i < |games| :: OpenGame(games, user, i)
  }

  /** The `games` table once `game` has made sure `user` has an unfinished game
      (HW4/app.py:95-109): unchanged if there is one, else with a fresh row for target `roll`. */
  function Opened(games: seq<GameRow>, user: string, roll: Target): (t: seq<GameRow>)
    ensures HasOpenGame(t, user)
    ensures games <= t && |t| <= |games| + 1
    ensures |t| == |games| + 1 <==> !HasOpenGame(games, user)
    ensures |t| == |games| + 1 ==> t[|games|] == GameRow(user, roll, 0, false)
  {
    if HasOpenGame(games, user) then games
    else
      var t := games + [GameRow(user, roll, 0, false)];
      assert OpenGame(t, user, |games|);
      t
  }

  /** Making sure a game exists keeps every row sound. */
  lemma OpenedKeepsRowOk(games: seq<GameRow>, user: string, roll: Target)
    requires forall i | 0 <= i < |games| :: RowOk(games[i])
    ensures var t := Opened(games, user, roll); forall i | 0 <= i < |t| :: RowOk(t[i])
  {
  }

  /** The score a user row holds, 0 for a user without one. */
  function ScoreOf(users: map<string, UserRow>, user: string): int {
    if user in users then users[user].score else 0
  }

  /** `UPDATE users SET score = score + 1 WHERE username = ?`: a no-op for a missing user. */
  function Credit(users: map<string, UserRow>, user: string): (u: map<string, UserRow>)
    ensures u.Keys == users.Keys
    ensures user in users ==> u[user] == users[user].(score := users[user].score + 1)
    ensures user in users ==> ScoreOf(u, user) == ScoreOf(users, user) + 1
    ensures forall v | v in users && v != user :: u[v] == users[v]
  {
    if user in users then users[user := users[user].(score := users[user].score + 1)] else users
  }

  class GameDb {
    var users: map<string, UserRow>
    var games: seq<GameRow>

    predicate Valid()
      reads this
    {
      forall i | 0 <= i < |games| :: RowOk(games[i])
    }

    /** `init_db` on a fresh database file. */
    constructor ()
      ensures users == map[] && games == [] && Valid()
    {
      users := map[];
      games := [];
    }

    /** The credential check and row creation of `login` (HW4/app.py:47-65); `roll` is the
        target `randint` draws for the new game. */
    method Login(username: string, password: string, roll: Target) returns (ok: bool)
      requires Valid()
      modifies this
      ensures Valid()
      ensures ok <==> CredentialsOk(username, password)
      ensures ok ==> users == (if username in old(users) then old(users)
                               else old(users)[username := UserRow(password, 0)])
      ensures ok ==> games == old(games) + [GameRow(username, roll, 0, false)]
      ensures !ok ==> users == old(users) && games == old(games)
    {
      if !(username in Credentials && Credentials[username] == password) {
        return false;
      }
      if username !in users {
        users := users[username := UserRow(password, 0)];
      }
      games := games + [GameRow(username, roll, 0, false)];
      ok := true;
    }

    /** HW4/app.py:95-109: the row of some unfinished game of `username`, inserted with
        target `roll` when there is none. */
    method OpenGameRow(username: string, roll: Target) returns (gid: nat)
      modifies this`games
      ensures games == Opened(old(games), username, roll)
      ensures OpenGame(games, username, gid)
      ensures HasOpenGame(old(games), username) ==> OpenGame(old(games), username, gid)
    {
      if exists i | 0 <= i < |games| :: OpenGame(games, username, i) {
        gid :| 0 <= gid < |games| && OpenGame(games, username, gid);
      } else {
        games := games + [GameRow(username, roll, 0, false)];
        gid := |games| - 1;
        assert OpenGame(games, username, gid);
      }
    }

    /** HW4/app.py:121-153: the accepted guess `g` on row `gid`; `won` when it hit. */
    method GuessRow(username: string, gid: nat, g: int) returns (message: Flash, won: bool)
      requires gid < |games|
      modifies this
      ensures won <==> g == old(games)[gid].number
      ensures |games| == |old(games)|
      ensures (games[gid], message) == Judge(old(games)[gid], g)
      ensures games == old(games)[gid := games[gid]]
      ensures users == (if won then Credit(old(users), username) else old(users))
    {
      var row := games[gid];
      var attempts := row.attempts + 1;
      won := g == row.number;
      if g == row.number {
        message := DidIt;
        games := games[gid := row.(attempts := attempts, finished := true)];
        if username in users {
          users := users[username := users[username].(score := users[username].score + 1)];
        }
      } else if g < row.number {
        message := TooSmall;
      } else {
        message := TooHigh;
      }
      if attempts >= MaxAttempts && g != row.number {
        message := NoTriesLeft;
        games := games[gid := games[gid].(attempts := attempts, finished := true)];
      } else {
        games := games[gid := games[gid].(attempts := attempts)];
      }
    }

    /** HW4/app.py:156-160: the attempts of some unfinished game of `username`, or 0. */
    method ShownAttempts(username: string) returns (shown: nat)
      ensures HasOpenGame(games, username) ==>
        exists i | 0 <= i < |games| :: OpenGame(games, username, i) && games[i].attempts == shown
      ensures !HasOpenGame(games, username) ==> shown == 0
    {
      if exists i | 0 <= i < |games| :: OpenGame(games, username, i) {
        var i :| 0 <= i < |games| && OpenGame(games, username, i);
        shown := games[i].attempts;
      } else {
        shown := 0;
      }
    }

    /** One request to `game` (HW4/app.py:85-169) by the logged-in `username`: `gid` is the row
        played (some unfinished game of the user, created if there is none), `flashes` the
        messages flashed, `shown` the attempts displayed and `score` the score displayed.
        `roll` is the target of a game created on the way. */
    method Play(username: string, form: GuessForm, roll: Target)
        returns (gid: nat, flashes: seq<Flash>, shown: nat, score: int)
      requires Valid()
      modifies this
      ensures Valid()
      ensures var t := Opened(old(games), username, roll);
        && OpenGame(t, username, gid)
        && (Validated(form) && AcceptedGuess(form.text).Some? ==>
              var g := AcceptedGuess(form.text).value;
              var won := g == t[gid].number;
              && games == t[gid := Judge(t[gid], g).0]
              && users == (if won then Credit(old(users), username) else old(users))
              && score == ScoreOf(old(users), username) + (if won then 1 else 0)
              && flashes == [Judge(t[gid], g).1] + (if shown == 0 then [Rules] else []))
        && (!(Validated(form) && AcceptedGuess(form.text).Some?) ==>
              && games == t && users == old(users) && score == ScoreOf(old(users), username)
              && flashes == (if Validated(form) then [BadGuess] else []) + (if shown == 0 then [Rules] else []))
      ensures HasOpenGame(games, username) ==>
        exists i | 0 <= i < |games| :: OpenGame(games, username, i) && games[i].attempts == shown
      ensures !HasOpenGame(games, username) ==> shown == 0
    {
      score := if username in users then users[username].score else 0;
      OpenedKeepsRowOk(games, username, roll);
      gid := OpenGameRow(username, roll);
      ghost var t := games;
      flashes := [];
      if Validated(form) {
        var guess := AcceptedGuess(form.text);
        if guess.None? {
          flashes := [BadGuess];
        } else {
          var message, won := GuessRow(username, gid, guess.value);
          PlayKeepsRowOk(t, username, gid, guess.value);
          if won {
            score := score + 1;
          }
          flashes := [message];
        }
      }
      shown := ShownAttempts(username);
      if shown == 0 {
        flashes := flashes + [Rules];
      }
    }
  }

  /** Every row but the one played is left as it was, so a finished game is never played
      again: the row played is unfinished before the request. */
  lemma OnlyPlayedRowChanges(t: seq<GameRow>, user: string, gid: int, g: int)
    requires OpenGame(t, user, gid)
    ensures var after := t[gid := Judge(t[gid], g).0];
      && |after| == |t|
      && !t[gid].finished
      && (forall i | 0 <= i < |t| && i != gid :: after[i] == t[i])
      && (forall i | 0 <= i < |t| && t[i].finished :: after[i] == t[i])
  {
  }

  /** A request keeps every row sound: the row played gets one more attempt and is finished
      by its fifth. */
  lemma PlayKeepsRowOk(t: seq<GameRow>, user: string, gid: int, g: int)
    requires forall i | 0 <= i < |t| :: RowOk(t[i])
    requires OpenGame(t, user, gid)
    ensures var after := t[gid := Judge(t[gid], g).0]; forall i | 0 <= i < |after| :: RowOk(after[i])
  {
    JudgeKeepsRowOk(t[gid], g);
  }

  /** The attempts shown are those of an unfinished game, so they are below five. */
  lemma ShownBelowFive(games: seq<GameRow>, user: string, i: int)
    requires forall j | 0 <= j < |games| :: RowOk(games[j])
    requires OpenGame(games, user, i)
    ensures games[i].attempts < MaxAttempts
  {
  }
}
