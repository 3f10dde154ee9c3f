# Wordle games-session data model and pebble-game initialisation, in Dafny

This project models two small programs for an actor-based on-chain runtime.

The first is the **games-session side of a Wordle game**. A coordinator keeps one
session per user and forwards guesses to a separate Wordle program, which owns
the secret word. The model covers the data model and the decision rules that
coordinator relies on (module `GamesSessionIo`, file `games_session_io.dfy`):

- the init message is valid only if it names a non-zero Wordle program;
- the coordinator is built from it with an empty session store;
- a Wordle reply (`GameStarted` or `WordChecked`) names a user;
- a checked word counts as guessed when the exact-match positions are `[0,1,2,3,4]`;
- each reply maps to the response the user receives;
- a session counts as waiting for the Wordle program in two `Wait...Reply` states;
- a default session record is given;
- the session store is exported as a list of `(user, session)` pairs.

The second is the **pebble game's `init` and `state` entry points** (module
`PebbleGame`, file `pebble_game.dfy`). `init` refuses a configuration whose
per-turn maximum exceeds the pebble count. Otherwise it stores a new game in the
program's global slot. `state` reads that slot back. The slot is the field
`game: Option<GameState>` of class `PebbleGame.PebbleProgram`.

`wrappers.dfy` holds the `Option`, `Result` and `Outcome` datatypes. The panics
of `assert_valid`, of the pebble game's `init` and of its `state` become a
`Fail`/`Failure` value that carries the reason. The `unimplemented!()` panic of
`has_guessed` on `GameStarted` becomes a precondition of `HasGuessed` instead.

Modelling choices:

- An actor id is 32 bytes in the runtime. Here it is a `nat`, and the all-zero id is `0`.
- A message id is also a `nat`, and its default is `0`.
- `Vec<u8>` is `seq<Byte>`, where `Byte` is the subset type `0..255`.
- The `HashMap` of sessions is a `map<ActorId, SessionInfo>`.
- The export walks the hash map in an unspecified order. So `Entries` is a ghost
  function that may pick any remaining key next. Its contract, and the predicate
  `ListsMap`, promise the entries and not their order.
- The crate `pebble_game_io` is not part of this model. Its types (`DifficultyLevel`,
  `Player`, `PebblesInit`, `GameState`) are rebuilt from their uses in
  pebble-game/src/lib.rs:30-37 and pebble-game/tests/basic.rs (`Easy`/`Hard`,
  `User`/`Program`). Their integer widths are not known, so pebble counts are `nat`.
- The two helpers `auxilar::check_first_player` and
  `auxilar::get_init_pebbles_start` are not part of this model. `Init` takes
  them as parameters: the chosen first player, and a total function that gives
  the starting pebbles.

The test `test_with_negative_input` (pebble-game/tests/basic.rs:112-137) sends a
configuration of 4 pebbles per turn out of 3 and then expects a readable game
state. The code of `init` (pebble-game/src/lib.rs:17-19) rejects that
configuration, as `test_init_should_failed` expects for 11 out of 10. The model
follows the code: `CheckConfigExamples` refuses 4 out of 3, and `InitThenState`
then returns `Failure(GetStateFailed)`.

`From<&GamesSession>` collects the pairs from a `HashMap` iterator, which
promises no order; the model states only that each entry appears exactly once
(`ListingsArePermutations`).

## Model

| member | source | states |
|---|---|---|
| `GamesSessionIo.AssertValid` | wordle-game/gamessession/io/src/lib.rs:29-34 | the init message passes exactly when `wordle_program_id` is not the zero id; otherwise it fails with "Invalid wordle_program_id" |
| `GamesSessionIo.FromInit` | wordle-game/gamessession/io/src/lib.rs:37-44 | the coordinator built from the init message has the same `wordle_program_id` and an empty session map (the rest is the default) |
| `GamesSessionIo.ValidInitGivesEmptyStore` | wordle-game/gamessession/io/src/lib.rs:29-44 | after a passing validation, the coordinator talks to a non-zero Wordle program, holds no session and exports an empty list |
| `GamesSessionIo.GetUser` | wordle-game/gamessession/io/src/lib.rs:93-98 | the result is the `user` field of either variant: the reply equals `GameStarted(result)` or `WordChecked(result, …)` with its own lists |
| `GamesSessionIo.HasGuessed` | wordle-game/gamessession/io/src/lib.rs:100-107 | defined only for `WordChecked` (it panics on `GameStarted`); true iff `correct_positions` has length 5 and holds position i at index i; `contained_in_word` and the user play no part |
| `GamesSessionIo.HasGuessedExamples` | wordle-game/gamessession/tests/basic.rs:75-101 | the reply the test expects for the guess "house" (`[0,1,3,4]`, nothing contained) is no win and reaches the user unchanged; `[0,1,2,3,4]` wins whatever `contained_in_word` holds; reversed or repeated positions do not win |
| `GamesSessionIo.ResponseFromEvent` | wordle-game/gamessession/io/src/lib.rs:110-124 | `GameStarted` maps to `StartSuccess` and only it does; `WordChecked` maps to `CheckWordResult` with both position lists unchanged; never `GameOver` |
| `GamesSessionIo.ResponseKeepsAllButUser` | wordle-game/gamessession/io/src/lib.rs:110-124 | with the reply's user put back, the response rebuilds the original reply: nothing but the user is dropped |
| `GamesSessionIo.ResponseIgnoresOnlyUser` | wordle-game/gamessession/io/src/lib.rs:110-124 | two replies give equal responses if and only if they differ at most in their user |
| `GamesSessionIo.DefaultSessionInfo` | wordle-game/gamessession/io/src/lib.rs:126-144 | the default session has `tries == 0`, status `Init` and zero message ids, and is not waiting for a reply |
| `GamesSessionIo.IsWaitReplyStatus` | wordle-game/gamessession/io/src/lib.rs:147-152 | true if and only if the status is `WaitWordleCheckWordReply` or `WaitWordleStartReply`; false for `Init`, `WaitUserInput`, `ReplyReceived(_)` and `GameOver(_)` |
| `GamesSessionIo.Entries` | wordle-game/gamessession/io/src/lib.rs:165-169 | the iterated pairs list the map: every pair is an entry with its value unchanged, every entry appears, no user twice, and the length is the map's size |
| `GamesSessionIo.ToState` | wordle-game/gamessession/io/src/lib.rs:161-171 | the export keeps `wordle_program_id` and lists every session exactly once, one pair per map entry |
| `GamesSessionIo.ListingLength` | wordle-game/gamessession/io/src/lib.rs:161-171 | any list of pairs that lists a map is exactly as long as the map |
| `GamesSessionIo.ListingsArePermutations` | wordle-game/gamessession/io/src/lib.rs:161-171 | any two listings of the same map are permutations of each other (equal multisets), so only the order is unspecified |
| `GamesSessionIo.ListingRebuildsMap` | wordle-game/gamessession/io/src/lib.rs:161-171 | collecting a listing back into a map gives the original map |
| `GamesSessionIo.StateRebuildsSessions` | wordle-game/gamessession/io/src/lib.rs:161-171 | the exported list determines the session store: collected back it is `sessions` |
| `PebbleGame.CheckConfig` | pebble-game/src/lib.rs:17-19 | a configuration passes exactly when `max_pebbles_per_turn <= pebbles_count`, equality included; otherwise it fails with the "greater than pebbles count" reason |
| `PebbleGame.CheckConfigExamples` | pebble-game/tests/basic.rs:9-137 | 11 of 10 and 4 of 3 pebbles per turn are refused; 3 of 10 and 10 of 10 are accepted |
| `PebbleGame.NewGame` | pebble-game/src/lib.rs:30-37 | the new game keeps count, per-turn maximum and difficulty of the configuration, has the given starting pebbles and first player, and no winner |
| `PebbleGame.PebbleProgram.constructor` | pebble-game/src/lib.rs:11 | the global game slot starts empty |
| `PebbleGame.PebbleProgram.Init` | pebble-game/src/lib.rs:14-39 | the result is the config check; on success the slot holds `NewGame` with `pebbles_remaining` from the start helper, called with the config and the same first player; on failure the slot is unchanged |
| `PebbleGame.PebbleProgram.State` | pebble-game/src/lib.rs:47-51 | fails with "Get state failed." exactly when the slot is empty; otherwise returns the stored game unchanged and modifies nothing |
| `PebbleGame.InitThenState` | pebble-game/tests/basic.rs:44-69 | init followed by a state read on a fresh program: an accepted config gives its count, maximum and difficulty, no winner and the helper's starting pebbles; a refused one leaves nothing to read |

## Left out

- The games-session coordinator (message dispatch, session transitions, reply correlation by message id, try limit, delayed timeout message) is not part of this model; its source is not among the modelled files.
- The Wordle program that holds the secret word and computes `correct_positions` and `contained_in_word` is not part of this model.
- The pebble game's `handle` is an `unimplemented!()` stub, so turns, giving up and restarting are not modelled.
- `auxilar::check_first_player` and `auxilar::get_init_pebbles_start` are not part of this model; they are parameters of `Init`. So the test's bound `pebbles_remaining <= pebbles_count` cannot be derived and is not stated.
- Message I/O is not modelled: `msg::load` (and its "Init Error." decode failure), `msg::reply`, the `Metadata` declaration and the SCALE encode/decode derives. The `unsafe static mut` slot is a field of an object.
- The action datatypes `GamesSessionAction` and `WordleAction` carry no logic in the modelled file, and only the coordinator uses them. They are not declared.
- `GamesSessionIo.Entries`: the order of the exported pairs is that of a hash-map iteration. The model leaves it unspecified and does not fix the order of any particular hash map.
- `GamesSessionIo.HasGuessed`: the `unimplemented!()` panic on a `GameStarted` reply is not modelled as a failure value; the precondition `e.WordChecked?` excludes that case.
