# Mafia game service and timer service, modelled in Dafny

This project models two pieces of an 8-player Mafia game server.

**The game service** (`src/game/game.service.ts`) does three things:

- It starts a game. It checks the roster size, shuffles the fixed role pool (2 mafia, 4 citizens, 1 police, 1 doctor) and deals one role to each player. It then stores a new game record under `game:<roomId>`.
- It resolves one night. It saves the submitted mafia, doctor and police actions. It picks the mafia target, kills that target unless the doctor protected them, and looks up the police target.
- It records a day vote.

The key-value store is modelled as a map from key to `Game`. JSON encoding and decoding are taken to be exact.

**The timer service** (`src/timer/timer.service.ts`) keeps one cancellable stop subject per key `<roomId>:<phase>`. A timer's expiry deletes its key. The asynchronous firing is modelled as an explicit `Expire` step.

Modules:

- `Wrappers`: Option, Result, Outcome.
- `GameModels`: the `Game`, `Player` and `VoteRecord` records.
- `JsObjects`: the order of `Object.values` on array-index keys.
- `Shuffle`: the role shuffle as an index permutation.
- `Games`: the game service.
- `Timers`: the timer service.

Each stateful service is a class. `GameService.store` is the game part of the key space. `TimerService` has `stopSubjects`, `pending` and `created`. Each class method is tied to a pure function of the old state, and the properties are proved about those functions.

What the code does, where it departs from the usual rules of Mafia:

- **Mafia target.** The kill target is not a random pick among the mafia's targets. It is the first value of `Object.values(mafiaActions)`. For integer keys (array indices), ECMA-262 section 10.1.11.1 (OrdinaryOwnPropertyKeys) lists them in ascending order. So the target is the one submitted under the smallest mafia userId.
- **Police inspection.** The inspection does not disclose "mafia" or "citizen". `getPlayerById` rebuilds the hard-coded roster, whose players never hold a role. So a found player is always reported with role `null` (`Games.InspectionRevealsNoRole`).
- **Votes.** `recordVote` rejects neither self-votes nor duplicate votes.
- **Timer restart.** Restarting a timer for the same (room, phase) does not cancel the earlier one (see Findings).

## Model

| member | source | states |
|---|---|---|
| `Games.GameService.StartGame` | src/game/game.service.ts:22-57 | With the roster `getPlayersForRoom` returns, `startGame` always succeeds. It returns that roster with the shuffled role at each index and nothing else changed: 8 alive players of the room, userIds 1001..1008, each holding a role. The roles held are a permutation of the pool. The store gains exactly the initial game under `game:<roomId>`. |
| `Games.GameService.StartGameWith` | src/game/game.service.ts:33-56 | A roster whose length is not 8 is rejected before any role is dealt, and the store is unchanged. Otherwise each player gets the shuffled role at its own index and keeps everything else. The held roles are a permutation of the pool. Only `game:<roomId>` is written. |
| `Games.DealtRolesArePool` | src/game/game.service.ts:23-41 | Dealing any shuffle of a role pool to as many players gives each player exactly the role at its position. Every other field of the player is unchanged. The multiset of held roles equals the pool. `StartGameWith` applies it to the 8-slot pool {mafia×2, citizen×4, police, doctor}. |
| `Shuffle.ShufflePreservesMultiset` | src/game/game.service.ts:38 | Rearranging a sequence by any permutation of its indices keeps every element with its multiplicity. |
| `Games.AssignRoles` | src/game/game.service.ts:39-41 | The in-order loop gives each player the role at its own index (the specification function `WithRoles`). |
| `Games.InitialGame` | src/game/game.service.ts:42-52 | The stored game is round 1 with night and vote off. `targetIds` and `deadIds` are empty. `aliveIds` equals `playersId`, which is the players' userIds in roster order. No night actions or votes are set. |
| `Games.PlayersForRoom` | src/game/game.service.ts:60-71 | Every room gets the same 8 players, with userIds 1001..1008 in order. All are alive, in that room, and without a role. |
| `Games.FindByUserId` | src/game/game.service.ts:156 | `find` returns null exactly when no player has the userId. Otherwise it returns the first player with that userId. |
| `Games.PlayerById` | src/game/game.service.ts:154-157 | A player is found exactly for userIds 1001..1008. The found player has no role. |
| `Games.GameKey` | src/game/game.service.ts:53 | A room's game key is the 5 characters `game:` followed by the room id. |
| `Games.GameKeyInjective` | src/game/game.service.ts:53 | Distinct rooms never share a game key. |
| `JsObjects.Values` | src/game/game.service.ts:103-105 | `Object.values` yields one value per key. Its values are exactly the object's values. The first value is the one under the smallest key. |
| `Games.MafiaTarget` | src/game/game.service.ts:103-106 | There is no target exactly when `mafiaActions` is absent or empty. Otherwise the target is the value submitted under the smallest mafia userId. |
| `Games.Without` | src/game/game.service.ts:111 | The filter removes every occurrence of the target and keeps every other id with its multiplicity. |
| `Games.WithoutAppend` | src/game/game.service.ts:111 | Filtering a concatenation is filtering each part and concatenating, so the surviving ids keep their original order. |
| `Games.ResolveNight` | src/game/game.service.ts:90-130 | The stored actions equal the submitted ones; an absent action clears the stored one. Only the actions and the alive/dead lists change. No target means no kill. A target the doctor chose gives `protected`, and alive/dead are unchanged. Otherwise the target is filtered out of `aliveIds` and appended once to `deadIds`. The police result exists exactly when `policeAction` is truthy (not absent, not 0) and the player is found, and it reports that player's role. |
| `Games.GameService.ProcessNightActions` | src/game/game.service.ts:80-134 | A missing game gives "Game not found" and writes nothing. Otherwise it returns `ResolveNight` of the stored game and stores the resolved game under the same key. |
| `Games.InspectionRevealsNoRole` | src/game/game.service.ts:122-130 | Every police result reports role null, because the looked-up roster was never dealt roles. |
| `Games.WithVote` | src/game/game.service.ts:145-148 | Exactly one `{voterId, targetId}` is appended at the end, and an absent list counts as empty. Earlier records are kept as a prefix. Nothing else changes. There is no self-vote or duplicate check. |
| `Games.GameService.RecordVote` | src/game/game.service.ts:137-151 | A missing game gives "Game not found" and writes nothing. Otherwise the stored game becomes `WithVote` of itself. |
| `Timers.TimerKey` | src/timer/timer.service.ts:26 | The key is the room id, a colon, then the phase, with nothing dropped or added; the same key is built at lines 53 and 65. |
| `Timers.Has` | src/timer/timer.service.ts:64-67 | `hasTimer` on the table: true exactly when the key `<roomId>:<phase>` is stored, and then the stored subject belongs to a timer that can still fire and whose expiry deletes that same key. |
| `Timers.TimerService.HasTimer` | src/timer/timer.service.ts:64-67 | True exactly when the key is stored; on a valid service a stored key's subject still has a live timer. |
| `Timers.Start` | src/timer/timer.service.ts:17-45 | An empty room id or phase is rejected and the table is unchanged. Otherwise `hasTimer` holds afterwards. The key maps to a fresh subject and every other key is unchanged. The timer under the key is stopped only when the bare roomId is itself a key. Every other live timer stays live. The table invariant is kept. |
| `Timers.Cancel` | src/timer/timer.service.ts:52-63 | A present key is removed, so `hasTimer` is false, and its timer can no longer fire. No other key changes. Every other live timer stays live and keeps the key it will delete. An absent key changes nothing. |
| `Timers.Expired` | src/timer/timer.service.ts:38-43 | A live timer's expiry deletes its key whatever is stored under it now, and the timer ends. Every other key keeps its subject, every other live timer keeps the key it will delete, and no subject is created. A stopped or already fired timer does nothing. |
| `Timers.KeysCollide` | src/timer/timer.service.ts:26 | The pairs ("1:day", "vote") and ("1", "day:vote") are different but build the same key. |
| `Timers.RestartLeavesStaleTimer` | src/timer/timer.service.ts:29-41 | Starting ("1", "day") twice leaves two live timers for one key. When the first fires it deletes the second's entry: `hasTimer` turns false, and `cancelTimer` can no longer stop the second. |
| `Timers.StartIntended` | src/timer/timer.service.ts:26-36 | The same as `Start`, but the replace check tests the key. It keeps at most one live timer per key. |
| `Timers.RestartIntendedStopsPrevious` | src/timer/timer.service.ts:29-32 | With the intended check, restarting ("1", "day") stops the first timer. |
| `Timers.CancelExpireKeepOnePerKey` | src/timer/timer.service.ts:52-63 | Cancelling a timer and a timer firing both keep at most one live timer per key. |
| `Timers.OnePerKeyUnique` | src/timer/timer.service.ts:36 | When every live timer is the one stored under its key, two live timers never share a key. |
| `Timers.TimerService.StartTimer` | src/timer/timer.service.ts:17-45 | The new table and result are exactly `Start` of the old table. |
| `Timers.TimerService.CancelTimer` | src/timer/timer.service.ts:52-63 | The new table is `Cancel` of the old one. |
| `Timers.TimerService.Expire` | src/timer/timer.service.ts:38-43 | The new table is `Expired` of the old one. |

## Left out

- `addPlayerToRoom` and `setPlayerReady`: the first only checks that a `room:<roomId>` key exists outside the game records and then logs; the second only logs.
- The shuffle's randomness: `sort` with a random comparator is modelled as an arbitrary permutation `order` of the pool's indices. Its bias is not modelled.
- `Date.now()`: the game id is an opaque input.
- Logging, and the error messages' text: errors are the `GameError` and `TimerError` values.
- Redis JSON round-trip: the store holds `Game` values exactly. Numbers JSON cannot represent (NaN, Infinity) are not modelled.
- `Games.MafiaTarget`: mafia keys are modelled as `JsObjects.ArrayIndex`, the integers 0 to 2^32-2, which JavaScript lists in ascending order. Other keys (negative, fractional, 2^32-1 and above) come after the array indices in creation order; the model's key type excludes them, so `mafiaActions` holding such a key is not modelled.
- `JsObjects.Values`: its contract fixes the first value, the length and the set of values, not the position of every later value; the game service reads only the first.
- RxJS scheduling: the `duration` is carried but time is not modelled. A timer fires only when `Expire` is applied. The model assumes each returned observable is subscribed exactly once, before it is cancelled. Every extra `subscribe` of that cold observable would start another timer whose firing runs `stopSubjects.delete(key)` again; `Timers.Expired` lets each timer fire at most once.
- Concurrency between overlapping service calls: each call is one atomic step on the store.
- The gateway's vote tallying, ties, end-game check and night-completion tracking: the methods they call are not defined in the repository's game service, so they are not part of this model.

## Findings

| source | as written | input that shows it | evidently intended | confidence | as-written member | corrected member |
|---|---|---|---|---|---|---|
| src/timer/timer.service.ts:29 | the replace check tests `stopSubjects.has(roomId)`, a bare room id, not the key `<roomId>:<phase>` | `startTimer("1", "day", d)` twice: the first timer is not cancelled, and when it fires it deletes the second timer's entry | cancel the existing timer for the same key before storing the new one | not executed | `Timers.RestartLeavesStaleTimer` (about `Timers.Start`) | `Timers.StartIntended`, with `Timers.RestartIntendedStopsPrevious` |

`Timers.TimerService.StartTimer` keeps the as-written behaviour, because that is what the service runs. `Timers.StartIntended` is the corrected definition, and the one-timer-per-key invariant is proved for it.
