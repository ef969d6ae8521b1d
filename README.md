# Number-guessing game servers, modelled in Dafny

The repository holds three versions of a "guess a number between 1 and 10" game:

- **The TLS game server (HW3/server.py).** One thread per connection runs `handle_client`. That loop asks for a mode:
  - single player (`single_player_game`): one target and five attempts;
  - multiplayer (`multi_player_game`): a shared room. Every member has five attempts per round. A win or a room-wide exhaustion restarts the round for everyone.
- **The older one-session server (server.py).** It plays one game with one client and keeps the transcript `game_history`.
- **The Flask web variant (HW4/app.py).** It keeps users and games in two SQLite tables. It comes with an input validator for Wikipedia article URLs (HW4/scraper.py).

The model has nine modules:

- `Json`: the part of Python and JSON that the handlers rely on, namely decoded values, the exceptions they catch, truthiness, `in`, `[]`, `.get`, `int()` and `str.lower()`.
- `Hints`: `determine_response`.
- `Wire`: connection ids, reads, and the replies as a datatype with their exact texts.
- `MultiRoom`: the shared room as a value. Each block run under `multi_player_lock` (join, guess, leave, disconnect clean-up) is one function.
- `Session`: one HW3 connection as a state machine that takes one step per read. `Session.Run` gives the configuration after the first `n` reads.
- `TlsServer`: the `GameServer` class. Its fields are the room and the record of every `sendall`. Its methods follow the source's nested loops, and each one is proved to take exactly the steps `Session.Run` prescribes.
- `LegacyServer`: server.py's guess loop as a reference function. The method imitating the source's loop is proved equal to it. Lemmas cover the transcript and the attempt bound.
- `WebGame`: the HW4 tables as a class, with `login` and `game` as methods that change the rows in place. The pure guess step `Judge` has its own lemmas.
- `Scraper`: `validate_wikipedia_url` as the left-to-right match that the regex engine performs. It is proved to accept exactly the URLs that a separate description of the pattern's language allows. `get_wikipedia_url` is modelled as a retry loop.

Where the code departs from what it evidently intends, the model follows the code:

- **The room invariant does not survive sessions.** HW3/server.py evidently intends the attempts map to cover exactly the roster, with each connection listed once: it declares the map as one entry per multiplayer client (lines 31-32), resets it by a comprehension over the roster (176-177), and leaves by `remove` followed by `del` (251-252). The code does not keep this. A read that is not JSON, sent inside the room, leaves the loop through the generic handler without leaving the room. Choosing mode 2 again then lists the connection twice, and a later exit leaves it on the roster with no attempts entry. `Session.RosterDrift` proves this sequence. What every reachable room does satisfy is `MultiRoom.Weak`: every step a session takes keeps it (`Session.Step`). A bare `MultiRoom.Remove` breaks it in one case, when `del` raises after `remove` succeeded and the room stays active with an empty roster (HW3/server.py:251-254). A session never takes that step, because in the room its connection always has an attempts entry (`Session.SessionInv`), which is the proviso of `MultiRoom.RemoveKeepsWeak`.
- **The web game accepts a guess of 0.** It counts as an attempt even though targets are 1..10, because `game` only rejects values outside 0..10.

## Model

| member | source | states |
|---|---|---|
| Hints.DetermineResponse | HW3/server.py:13-19 | the answer is the win exactly when guess equals number, "too small" exactly when it is below, "too high" exactly when it is above |
| Hints.CongratulationsOnlyOnWin | HW3/server.py:116-121 | of the three answers only the winning one starts with "Congratulations", so the callers' prefix test detects exactly a win |
| Json.ParseShow | HW3/server.py:108 | `int()` on the decimal numeral of any integer gives that integer back |
| Json.LowerIsExit | HW3/server.py:79 | `mode.lower() == 'exit'` holds exactly for the sixteen letter-case spellings of "exit" |
| Wire.ReadAt | HW3/server.py:67-69 | a read within what the peer sent is that message, and a read past it is empty, which the loops treat as a disconnect |
| MultiRoom.FreshAttempts | HW3/server.py:176-177 | the reset map has exactly the roster as keys, each with five attempts |
| MultiRoom.Broadcast | HW3/server.py:165-174 | one send of the same reply to each roster entry, in roster order |
| MultiRoom.Announce | HW3/server.py:194-213 | one send per roster entry in order: "you did it" to the winner, "someone guessed" to every other entry |
| MultiRoom.Restarted | HW3/server.py:175-177 | a restart keeps roster and active flag, takes the new target and gives every roster member exactly five attempts |
| MultiRoom.Join | HW3/server.py:142-147 | joining activates the room, draws a target only if it was inactive, appends the connection and gives it five attempts |
| MultiRoom.FirstIndex | HW3/server.py:251 | the position `list.remove` cuts at: an occurrence of the connection with none before it |
| MultiRoom.RemoveFirst | HW3/server.py:251 | `list.remove` shortens the roster by one and takes one copy of the connection out of its multiset; without an occurrence the roster is unchanged |
| MultiRoom.RemoveFirstCutsFirst | HW3/server.py:251 | the removal cuts exactly the first occurrence and keeps the entries before and after it in order |
| MultiRoom.RemoveFirstNoDuplicates | HW3/server.py:251 | removing from a list without duplicates leaves none, and the removed connection is gone |
| MultiRoom.Remove | HW3/server.py:250-254 | leaving removes the connection from roster and attempts and deactivates an emptied roster; it reports failure when `remove` raises (not on the roster) or when `del` raises after `remove` succeeded (on the roster, no attempts entry) |
| MultiRoom.DisconnectLeave | HW3/server.py:259-264 | the clean-up does nothing for a connection not on the roster and is the same removal otherwise |
| MultiRoom.JoinKeepsWeak | HW3/server.py:142-147 | joining keeps the room sound (keys on the roster, values in 0..5, active exactly when the roster is non-empty, active rooms have a target) |
| MultiRoom.JoinKeepsConsistent | HW3/server.py:142-147 | a connection not yet on the roster joins a consistent room and leaves it consistent |
| MultiRoom.RejoinDuplicates | HW3/server.py:146-147 | a connection that joins while still on the roster is listed twice |
| MultiRoom.RemoveKeepsWeak | HW3/server.py:250-254 | removal keeps the room sound unless the connection is on the roster without an attempts entry |
| MultiRoom.LeaveKeepsConsistent | HW3/server.py:250-264 | leaving a consistent room succeeds by both routes, removes the connection from roster and map, keeps everyone else, keeps the target, and deactivates exactly when the leaver was alone |
| MultiRoom.Guess | HW3/server.py:162-241 | the guess under the lock: the all-exhausted restart, the no-attempts and range refusals, the win with its restart, the last-attempt restart, "Sorry" and the hint. It has no ensures of its own; `GuessKeepsWeak`, `GuessKeepsConsistent`, `ExhaustedRoomRestarts`, `RefusedGuessChangesNothing`, `CountedGuess` and `AttemptsOnlyFall` state its behaviour |
| MultiRoom.GuessKeepsWeak | HW3/server.py:162-241 | every guess outcome leaves the room sound |
| MultiRoom.GuessKeepsConsistent | HW3/server.py:162-241 | every guess outcome keeps a consistent room consistent |
| MultiRoom.OthersKeepMembership | HW3/server.py:142-264 | another connection's guess, join, leave or clean-up never removes this connection's attempts entry, and a guess never changes roster or active flag |
| MultiRoom.ExhaustedRoomRestarts | HW3/server.py:164-178 | when every attempts value is spent, any guess by anyone is discarded, everyone on the roster is told, the target is redrawn and everyone gets five attempts |
| MultiRoom.RefusedGuessChangesNothing | HW3/server.py:181-188 | a guesser with no attempts left, or a guess outside 1..10, gets one reply ("Sorry" or the range error) and the room is unchanged |
| MultiRoom.CountedGuess | HW3/server.py:190-241 | a correct guess restarts the round and tells every roster entry once (winner and others apart); a wrong guess that spends the room's last attempt restarts it with an "everyone is out" broadcast; any other wrong guess takes one attempt from the guesser and answers only the guesser, "Sorry" if it was the last attempt and the hint otherwise |
| MultiRoom.AttemptsOnlyFall | HW3/server.py:162-241 | a guess either restarts the round, changes nothing, or takes exactly one attempt from the guesser, who had one |
| MultiRoom.FirstGuessWins | HW3/server.py:190-216 | with two players and target 4, the first one's guess of 4 sends "you did it" to it and "someone guessed" to the other, and both get five new attempts |
| MultiRoom.BothRunOut | HW3/server.py:187-241 | two players with one attempt each guess wrong: the first gets "Sorry", the second triggers the "everyone is out" broadcast to both and the restart |
| Session.ChooseMode | HW3/server.py:62-85 | what the prompt loop does with one read. It has no ensures of its own; `ModeDispatch` and `ModePromptFailures` state its behaviour |
| Session.ModeDispatch | HW3/server.py:71-81 | a "mode" string starts single player exactly when it is "1", multiplayer exactly when "2", quits exactly on an "exit" spelling, and otherwise prompts again |
| Session.ModePromptFailures | HW3/server.py:67-85 | an empty read at the prompt ends the session as a disconnect; text that is not JSON, or JSON that is not an object, ends it through the generic handler |
| Session.ModeStep | HW3/server.py:62-85 | the prompt step keeps the session invariant and only appends to what was sent |
| Session.SingleInputOf | HW3/server.py:102-136 | how the single player loop classifies one non-empty read and which handler catches its exception. It has no ensures of its own; `SingleAttemptCounting` states its behaviour |
| Session.SingleTurn | HW3/server.py:102-136 | one single player read: the attempts after it, the reply and whether the round ends. It has no ensures of its own; `SingleAttemptCounting` and `SingleRoundEnd` state its behaviour |
| Session.SingleAttemptCounting | HW3/server.py:107-130 | exactly an in-range integer guess uses an attempt, and exactly one; an out-of-range guess gets the range error and an unparsable one the invalid-input reply, neither using an attempt nor ending the round; 'exit' ends the round with no reply |
| Session.SingleRoundEnd | HW3/server.py:110-122 | a counted guess ends the round exactly when correct or fifth; the fifth wrong one gets "Sorry" instead of its hint; attempts never exceed five and stay below five while the round goes on |
| Session.SingleStep | HW3/server.py:101-137 | a single player step keeps the session invariant, leaves the room alone and only appends to what was sent |
| Session.MultiInputOf | HW3/server.py:155-248 | how the multiplayer loop classifies one read before it takes the lock, including the exceptions that reach the generic handler. It has no ensures of its own; `NonNumeralGuessRefused`, `FalsyGuessIgnored` and `MultiStep` state its behaviour |
| Session.NonNumeralGuessRefused | HW3/server.py:159-245 | in the room, a non-empty guess string that is not a numeral gets the range reply and nothing else: roster, attempts, target and phase are unchanged, even in an exhausted room, because `int()` runs before the lock |
| Session.FalsyGuessIgnored | HW3/server.py:159-161 | a guess of 0 or "" fails the truthiness test and the read gets no reply |
| Session.MultiStep | HW3/server.py:153-268 | a multiplayer step keeps the session invariant (room sound, the connection's attempts entry present while in the room) and only appends to what was sent |
| Session.DisconnectCleanupSucceeds | HW3/server.py:257-265 | in a session, an empty read in the room always cleans up without raising, returns to the prompt and removes the attempts entry |
| Session.Step | HW3/server.py:59-268 | any read keeps the session invariant and only appends to what was sent |
| Session.Run | HW3/server.py:59-268 | every configuration a session reaches satisfies the invariant and extends the starting send record |
| Session.ClosedIsFinal | HW3/server.py:79-85 | once the session has ended no further read changes anything |
| Session.RosterDrift | HW3/server.py:139-268 | join, text that is not JSON, join, exit: the session is back at the prompt with the connection still on the roster, no attempts entry, the room active, and the intended room invariant `MultiRoom.Consistent` broken |
| Session.DriftLeave | HW3/server.py:250-254 | leaving a room that lists the connection twice removes one entry and its only attempts key |
| TlsServer.GameServer.constructor | HW3/server.py:30-35 | the server starts with an empty, inactive room and nothing sent |
| TlsServer.GameServer.BroadcastAll | HW3/server.py:165-174 | the fan-out loop sends the reply to each roster entry in order |
| TlsServer.GameServer.AnnounceWin | HW3/server.py:194-213 | the win loop sends each roster entry its text in order |
| TlsServer.GameServer.Restart | HW3/server.py:175-177 | the fields become the restarted room |
| TlsServer.GameServer.JoinRoom | HW3/server.py:142-147 | the fields become the room after `Join`, nothing is sent |
| TlsServer.GameServer.LeaveRoom | HW3/server.py:250-254 | the fields and the success flag are those of `Remove`, nothing is sent |
| TlsServer.GameServer.DisconnectCleanup | HW3/server.py:259-264 | the fields and the success flag are those of `DisconnectLeave` |
| TlsServer.GameServer.GuessUnderLock | HW3/server.py:162-241 | the fields become the room after `Guess` and exactly its sends are appended |
| TlsServer.GameServer.SingleRound | HW3/server.py:102-136 | one pass of the single player loop uses and replies as `SingleTurn` says; a pass that does not break consumed a non-empty read |
| TlsServer.GameServer.SinglePlayerGame | HW3/server.py:87-137 | the single player game consumes at least one read and returns to the prompt in exactly the configuration `Session.Run` gives after those reads |
| TlsServer.GameServer.MultiRound | HW3/server.py:154-268 | one pass of the multiplayer loop makes exactly the move `MultiStep` makes |
| TlsServer.GameServer.MultiPlayerGame | HW3/server.py:139-151 | joining, the rules message and the loop end at the prompt, or closed when the clean-up raised, exactly as `Session.Run` says |
| TlsServer.GameServer.RoomLoop | HW3/server.py:153-268 | the read loop of the room follows `Session.Run` read by read until it returns |
| TlsServer.GameServer.HandleClient | HW3/server.py:59-85 | a whole connection terminates having consumed at most two reads past its input, and ends, for the reason returned, in exactly the configuration `Session.Run` gives for the reads consumed |
| LegacyServer.LegacyInputOf | server.py:112-146 | how the guess loop classifies one non-empty read: a guess, a refusal the `except (ValueError, KeyError)` clause catches, or an abort. It has no ensures of its own; `InvalidReadRefused` states its behaviour |
| LegacyServer.LegacyTurn | server.py:118-135 | one numeric guess: the tries used after it and the reply. It has no ensures of its own; `LegacyTurnRules` states its behaviour |
| LegacyServer.LegacyStep | server.py:106-146 | one pass of the guess loop. It has no ensures of its own; `InvalidReadRefused`, `LegacyTurnRules` and `GuessRound` state its behaviour |
| LegacyServer.Loop | server.py:106-146 | the guess loop on the remaining reads. It has no ensures of its own; `LoopRecordsReplies`, `LoopRecordsReads` and `LoopCounted` state its behaviour |
| LegacyServer.Session | server.py:92-146 | a whole connection: the start message, the welcome and the guess loop. It has no ensures of its own; `SessionFacts`, `EmptyStartAborts` and `GuessTheNumberServer` state its behaviour |
| LegacyServer.EmptyStartAborts | server.py:95-96 | an empty start read fails to decode, so the session ends before any game |
| LegacyServer.InvalidReadRefused | server.py:112-146 | text that is not JSON, an object without `guess`, or a guess string that is not a numeral gets "Please enter a valid number", uses no attempt, and the game goes on |
| LegacyServer.LegacyTurnRules | server.py:118-135 | exactly an in-range guess uses one attempt; an out-of-range guess gets the range reply; a correct guess wins even as the fifth; a wrong guess gets "Sorry" exactly from the fifth attempt on and its hint before; the game ends exactly on a win or at five |
| LegacyServer.LoopRecordsReplies | server.py:137-146 | the transcript records every reply sent, once and in order |
| LegacyServer.LoopRecordsReads | server.py:106-110 | the transcript records every read in order, including the empty one that ends a disconnected session |
| LegacyServer.LoopCounted | server.py:106-142 | with `a` attempts used, the loop answers at most `5 - a` counted guesses |
| LegacyServer.SessionFacts | server.py:92-146 | a session answers at most five counted guesses, records every reply it sends, and opens with the decoded start message and the welcome |
| LegacyServer.GuessRound | server.py:112-146 | the nested ifs of one loop pass give exactly the step `LegacyStep` prescribes |
| LegacyServer.GuessTheNumberServer | server.py:92-151 | the loop's transcript, replies and outcome are exactly those of `Session` on the same reads |
| WebGame.OnlyHardCodedPairs | HW4/app.py:16-20 | exactly the three hard-coded user/password pairs pass the credential check |
| WebGame.AcceptedGuess | HW4/app.py:114-119 | a guess is accepted exactly when `int()` parses it and the value lies in 0..10 |
| WebGame.Judge | HW4/app.py:121-151 | the guess step on one game row. It has no ensures of its own; `JudgeRules` and `JudgeKeepsRowOk` state its behaviour |
| WebGame.JudgeRules | HW4/app.py:121-151 | an accepted guess adds exactly one attempt; a correct one finishes the game with "Congratulations"; a wrong one gets "too small" or "too high" by comparison, unless it reaches five attempts, when it gets "Sorry" and finishes the game; otherwise the game stays unfinished |
| WebGame.JudgeKeepsRowOk | HW4/app.py:121-151 | playing an unfinished game with tries left keeps: at most five attempts, fewer while unfinished |
| WebGame.Opened | HW4/app.py:95-109 | afterwards the user has an unfinished game; the table is extended by one fresh row (attempts 0, unfinished) exactly when there was none |
| WebGame.OpenedKeepsRowOk | HW4/app.py:100-105 | creating the game keeps every row sound |
| WebGame.Credit | HW4/app.py:132-134 | the score update raises the user's score by exactly one, keeps their password, and changes no other row; it is a no-op for a user without a row |
| WebGame.GameDb.Login | HW4/app.py:47-65 | login succeeds exactly for a hard-coded pair; on success a users row with score 0 is added only if absent and one unfinished game with 0 attempts is always appended; on failure nothing changes |
| WebGame.GameDb.OpenGameRow | HW4/app.py:95-109 | the row played is an unfinished game of the user, an existing one when there is one |
| WebGame.GameDb.GuessRow | HW4/app.py:121-153 | the row played becomes its `Judge` result and nothing else in the table changes; the score row rises by one exactly on a win |
| WebGame.GameDb.ShownAttempts | HW4/app.py:156-160 | the attempts shown are those of an unfinished game of the user, or 0 when none is left |
| WebGame.GameDb.Play | HW4/app.py:85-169 | a request keeps every row sound, plays an unfinished game (created if needed), changes only that row and only for an accepted guess, raises the score by one only on a win, flashes the error for a rejected guess, and flashes the rules exactly when the attempts shown are 0 |
| WebGame.OnlyPlayedRowChanges | HW4/app.py:95-151 | a request changes only the row played, which was unfinished, so a finished game is never played again |
| WebGame.PlayKeepsRowOk | HW4/app.py:121-151 | after a guess every row still has at most five attempts, fewer while unfinished |
| WebGame.ShownBelowFive | HW4/app.py:156-160 | the attempts shown for an unfinished game are below five |
| Scraper.NonNewlineRun | HW4/scraper.py:17 | the greedy `.` run stops exactly at the first newline or the end |
| Scraper.ArticleMatchesIsArticle | HW4/scraper.py:17 | the tail `.+$` accepts exactly one or more non-newline characters followed by at most one newline |
| Scraper.ValidateWikipediaUrl | HW4/scraper.py:16-18 | an accepted URL starts with "http" |
| Scraper.HeadOfUrl | HW4/scraper.py:17 | the head of the match reads scheme, subdomain and article back off a URL of the pattern's form |
| Scraper.ValidateIsPattern | HW4/scraper.py:16-18 | a URL is accepted exactly when it is "http://" or "https://", then optionally "en.", then "wikipedia.org/wiki/", then an article part |
| Scraper.ValidateUrl | HW4/scraper.py:17 | on a URL of the pattern's head, acceptance depends on the article part alone |
| Scraper.UppercaseSchemeRejected | HW4/scraper.py:17 | "HTTP" and "Http" schemes are rejected: there is no case-insensitive flag |
| Scraper.NothingBeforeScheme | HW4/scraper.py:17-18 | the match is anchored: any first character other than 'h', a space included, is rejected |
| Scraper.OtherSubdomainRejected | HW4/scraper.py:17 | a "fr." subdomain is rejected whatever follows |
| Scraper.BareWikiPathRejected | HW4/scraper.py:17 | "/wiki/" with nothing, or only a newline, after it is rejected |
| Scraper.NewlineRules | HW4/scraper.py:17-18 | a valid article is accepted with or without one trailing newline; a newline followed by anything, a second newline included, is rejected |
| Scraper.GetWikipediaUrl | HW4/scraper.py:7-13 | the loop returns the first input that passes the check, having refused every earlier one, and returns nothing only when every input was refused |

## Left out

- Sockets, TLS, `accept` loops and worker threads are not modelled. Each connection is one session run against the shared room with nothing interleaved. `MultiRoom.OthersKeepMembership` states what another session's locked block can do to this one.
- A read is one whole `recv(1024)`, already decoded as UTF-8 and stripped. Messages split or merged by TCP are not modelled, and neither are undecodable bytes.
- The random number draw is not modelled as randomness. It appears as the `roll` value a read or a request carries.
- `Wire.EndsRound` and `LegacyServer.EndsGame` decide the loops' test `response.startswith("Congratulations") or "Sorry" in response` by reply, not by text. The choice follows the reply texts: only the winning texts start with "Congratulations" (`Hints.CongratulationsOnlyOnWin` proves this for the hints), and only the exhaustion text contains "Sorry". That no other text contains "Sorry" is not proved.
- Logging and the ZeroMQ publisher socket are left out. Neither affects what is sent.
- JSON floats are left out: a parsed JSON value is never a float in the model. Floats do change what is sent. `int()` truncates `{"guess": 3.7}` to 3, which is then a counted guess in the single-player loop (HW3/server.py:107-119), in the room (159-161) and in the legacy loop (server.py:115-121). A float mode such as `{"mode": 1.0}` goes the way of an integer mode: `.lower()` raises AttributeError and the session ends (HW3/server.py:79, 84-85).
- `send` failures inside the broadcast loops are not modelled; every `sendall` is taken to succeed.
- Only ASCII is handled. `str.strip` and `int()` treat as whitespace exactly Python's ASCII whitespace: space, tab through carriage return, and 0x1C-0x1F. Non-ASCII whitespace such as U+00A0 is not stripped in the model, although Python strips it. `int()` accepts only ASCII digits and no underscores in the model, while Python also accepts other Unicode decimal digits and single underscores between digits. `str.lower()` folds only ASCII letters.
- The text of a server.py transcript entry ("Client: …", "Server: …") is not modelled. An entry keeps the decoded start message, the received read, or the reply.
- server.py's persistence is left out: `load_and_display_history` and `compress_and_save_history`, that is pickle, zlib and file I/O. A finished session is where the transcript would be saved.
- server.py's accept loop always breaks after one connection because of its `finally` clause. The model is that one session.
- From HW4/app.py, Flask routing, the login session cookie, CSRF, templates, `logout` and the rendering of flashed messages are left out. Each request is one method call on the tables, with its flashes returned as a sequence.
- Two web requests running at once are not modelled.
- SQLite row ids are positions in the `games` sequence. The schema file HW4/game_db.py is not part of this model.
- WebGame.GameDb.Play may play any unfinished game of the user. `fetchone()` without ORDER BY does not fix which one, and SQLite's actual choice is not modelled.
- WebGame.GameDb.ShownAttempts may likewise show the attempts of any unfinished game.
- `scrape_wikipedia_page`, `save_to_csv` and the scraper's main block are left out: HTTP, HTML parsing and CSV output.
- The prompt and error printing of `get_wikipedia_url` appear only as the count of refused inputs. End of input, where `input()` raises `EOFError`, is the `None` result.
