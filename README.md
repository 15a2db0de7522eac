# spacebot, modelled in Dafny

spacebot is a multiplayer space-shooter for bots. This project models its
core. There is a Rust server: a `Game` whose `tick` moves, collides,
shoots and scores. A game actor runs the game loop and hands out player
ids. A room manager files games under join tokens. There is also a
JavaScript spectator page and two example bots. Every module is plain
Dafny 4 and verifies on its own terms, with no axioms.

| file | module | what it models |
|---|---|---|
| `types.dfy` | `Types` | `u32` and `wrapping_add`, `Option`/`Result`, the bot command type. Also the order-preserving filter that stands for `retain`/`extract_if`, and the multiset-of-ids ("bag") helpers the roster proofs use. |
| `decimal.dfy` | `Decimal` | The decimal spelling of a number (`u32::to_string`, JavaScript's `String(n)`). |
| `game.dfy` | `Game` | `server/src/game.rs`. Collisions, commands, `player_left`, `reset`, and every discrete pass of `tick` as a method of `class Game`. Each method is proved against a function of the old state. Lemmas state what those functions promise. |
| `game_actor.dfy` | `GameActor` | `server/src/actors/game_actor.rs`. The admission/start/end rules and the New → Running → Finished bookkeeping of `game_loop` as functions. The loop as `class GameLoop` around one `Game`. The actor's socket and command handlers as `class GameActor`. |
| `room_manager.dfy` | `RoomManager` | `server/src/actors/room_manager_actor.rs`: the room counter, the token-keyed room map, `create_room` and the `JoinRoom` lookup. |
| `spectator.dfy` | `Spectator` | `spectator/index.js`: the connection-status machine and reconnects, the message handler, the scale, the `Ship` flooring and the scoreboard diff/sort/rows, as `class Session`. |
| `condition.dfy` | `Condition` | `client/examples/complex/src/condition.rs`: the condition combinators and the stateful `AtInterval` timer. |
| `strategy.dfy` | `Strategy` | `client/examples/complex/src/strategy.rs`: the first-match decision tree and the priority order. |
| `complex_bot.dfy` | `ComplexBot` | `client/examples/complex/src/main.rs`: the initial tree and the behaviour switch of `tick`. |
| `simple_bot.dfy` | `SimpleBot` | `client/examples/simple.rs`: the counter-driven command cycle and the bouncing throttle. |

Modelling conventions:
- **Time.** Time is an integer number of milliseconds passed in by the caller. One call, or one loop turn, sees one instant.
- **Randomness and physics.** Random placement, random items, item effects and the motion integration come from the caller as values or functions; `World` bundles them for a loop turn. The model keeps what the server does with them: ids kept, clamping, the order of passes.
- **Floats.** `f32` quantities are `real`.
- **State.** State the source updates in place is a class field. `Vec`s and `HashMap`s are `seq` and `map` fields that the methods reassign. Each method's `ensures` gives the new state as a function of the old one.
- **Bot conditions.** A bot condition that mutates itself on evaluation is a value. `Evaluate` returns the condition as it is afterwards.

## Model

| member | source | states |
|---|---|---|
| Types.WrappingInc | server/src/game.rs:175 | The next bullet/item id is the successor modulo 2^32, and it is 0 exactly after u32::MAX. |
| Types.RemoveAt | server/src/game.rs:141 | `Vec::remove(i)` keeps the elements before `i` and shifts the later ones down by one. |
| Decimal.NatToString | server/src/actors/room_manager_actor.rs:59 | The spelling of a number is non-empty and all digits, and starts with '0' only for 0. |
| Decimal.ValueOfNatToString | server/src/actors/room_manager_actor.rs:59 | Reading back the decimal spelling of `n` gives `n`. |
| Decimal.NatToStringInjective | server/src/actors/room_manager_actor.rs:56-59 | Different counter values have different spellings. |
| Game.IsCollidingSymmetric | server/src/game.rs:26-34 | Whether two circles collide does not depend on which one asks. |
| Game.SelfCollides | server/src/game.rs:257 | Anything with a positive radius collides with itself. This is why the pairwise passes skip equal ids. |
| Game.IndexOf | server/src/game.rs:140 | `position` finds the first index holding the id, and finds none exactly when the id is absent. |
| Game.RemoveFirstKeys | server/src/game.rs:140-145 | Removing the first entry with an id takes exactly one copy of that id out, and changes nothing when the id is absent. |
| Game.ClampThrottle | server/src/game.rs:159-164 | The stored throttle lies in [0, 1]. It equals the request inside that range and the nearer bound outside it. |
| Game.FiringCountsOnce | server/src/game.rs:165-173 | A new bullet raises its shooter's active count by exactly one and nobody else's. |
| Game.BuriedIds | server/src/game.rs:276-281 | Sending players to the dead list keeps their ids, in order. |
| Game.MovedStaysInArena | server/src/game.rs:237-239 | The motion step changes only the position. The circle ends inside the arena whenever it fits. |
| Game.ScanPairs | server/src/game.rs:254-262 | The nested scan over a symmetric relation collects both ids of every related pair, and no other id. |
| Game.ScanClashes | server/src/game.rs:254-262 | The collision scan collects exactly the ids of players or bullets that touch another one with a different id. |
| Game.UnstruckApart | server/src/game.rs:263 | After the collided ids are removed, no two survivors with different ids touch. |
| Game.ShootAll | server/src/game.rs:284-302 | The hit pass records one shooter id and one bullet id per kill. |
| Game.ShootAllCredits | server/src/game.rs:290-296 | No player is killed by their own bullet. Every kill is credited to the owner of a bullet, with that bullet's id, that touched the victim. |
| Game.ShootAllConserves | server/src/game.rs:288-311 | The hit pass moves players from alive to killed and loses or invents none. |
| Game.UseAll | server/src/game.rs:314-322 | The item pass keeps the number of players. |
| Game.UseAllKeepsIds | server/src/game.rs:314-322 | Items change players but never their ids or their order. |
| Game.UseAllKeepsRoster | server/src/game.rs:314-322 | Items never change who is playing. |
| Game.UseAllRecordsItems | server/src/game.rs:314-323 | Only the id of an item that was on the field is recorded as used. |
| Game.AddHits | server/src/game.rs:328-331 | Each recorded hit adds exactly one point to the shooter, starting from 0 when absent. The board gains exactly the shooters as keys. |
| Game.PlacedIds | server/src/game.rs:114-121 | The new game's players carry exactly the re-added ids, in order. |
| Game.RestartedTimers | server/src/game.rs:305 | Restarting gives every listed player a timer set to the new instant and leaves every other timer alone. |
| Game.ReviveKeepsRoster | server/src/game.rs:201-211 | Reviving moves corpses to the live list and loses or invents no one. |
| Game.MoveKeepsRoster | server/src/game.rs:229-240 | Moving keeps every player's id, in order. |
| Game.KillKeepsRoster | server/src/game.rs:276-281 | The collision kill moves players to the dead list and loses or invents no one. |
| Game.ShootKeepsRoster | server/src/game.rs:303-311 | The hit pass moves its victims to the dead list and loses or invents no one. |
| Game.UpdateKeepsRoster | server/src/game.rs:155-164 | Rewriting a player in place under its own id keeps the roster. |
| Game.ResetKeepsRoster | server/src/game.rs:114-121 | A reset re-adds every live and every dead player once and no one else. |
| Game.Game.constructor | server/src/game.rs:102-112 | A new game has no players, bullets, corpses, items, scores or timers, and both id counters at 0. |
| Game.Game.AddPlayer | server/src/game.rs:129-135 | The spawned player, with the given id, is appended. Its survival timer is set to the timeout after now, and no other field changes. The roster gains exactly that id. |
| Game.Game.Rejoin | server/src/game.rs:115-121 | Calling `add_player` for each id in turn yields exactly the placed players and restarted timers. |
| Game.Game.Reset | server/src/game.rs:114-123 | The new game holds the live ids then the dead ids, placed anew, with fresh timers. Everything else is cleared, the item cap holds, and the roster is the one before. |
| Game.Game.PlayerLeft | server/src/game.rs:137-149 | Exactly one copy of the id leaves players and dead, if present; its score and timer go. No other field changes. An absent id leaves both lists unchanged. |
| Game.Game.HandleCmd | server/src/game.rs:151-193 | A command for an id that is not a live player changes nothing. Rotate sets the angle. Throttle stores the clamped value. Fire appends one bullet, built from the shooter with the old counter as id, exactly when the shooter is below its limit, and never passes the limit. Corpses, items, scores, timers and the item clock stay as they were, and so does the roster. |
| Game.Game.Revive | server/src/game.rs:199-211 | Due corpses rejoin in order. Every corpse left is due after now, and nobody is lost. |
| Game.Game.SpawnItem | server/src/game.rs:213-219 | An item with the next id is added only after the spawn interval and while fewer than 20 exist, so the cap holds. |
| Game.Game.AdvanceBullets | server/src/game.rs:221-227 | Each bullet is advanced, in order. |
| Game.Game.MovePlayers | server/src/game.rs:229-240 | Each player is moved and clamped into the arena, in order. |
| Game.Game.Move | server/src/game.rs:221-240 | The motion step advances the bullets, then moves and clamps the players. The roster is kept. |
| Game.Game.DropStrayBullets | server/src/game.rs:246-252 | Exactly the bullets inside the arena margins survive, in order. |
| Game.Game.DropClashingBullets | server/src/game.rs:254-263 | Every bullet touching another is removed with its partner. Only those are removed, and the survivors are pairwise apart. |
| Game.Game.BuryAll | server/src/game.rs:276-281 | The victims join the dead list in order, re-placed and due back 3 s after now. |
| Game.Game.RestartAll | server/src/game.rs:303-305 | Each victim's survival timer restarts. |
| Game.Game.KillClashingPlayers | server/src/game.rs:265-281 | Exactly the touching players die, re-placed and due back later. The survivors are pairwise apart and nobody is lost. |
| Game.Game.Shoot | server/src/game.rs:283-312 | The game's players, dead list and timers become the outcome of the hit pass, and the hits and used bullets are returned. The roster is kept. |
| Game.Game.ShootPass | server/src/game.rs:283-312 | The bullet loop of the hit pass computes exactly the hit-pass function. |
| Game.Game.TouchPlayers | server/src/game.rs:315-321 | One item acts on every player it touches and is recorded once per touch. |
| Game.Game.UseItems | server/src/game.rs:314-323 | The item loops compute the item-pass function. Exactly the used items are removed, so the item count never grows. The roster is kept. |
| Game.Game.UsePass | server/src/game.rs:314-322 | The nested item and player loops compute exactly the item-pass function. |
| Game.Game.DropUsedBullets | server/src/game.rs:325-326 | Exactly the bullets that killed someone are removed. |
| Game.Game.TallyHits | server/src/game.rs:328-331 | The scoreboard loop computes the one-point-per-hit board. Nothing else changes. |
| Game.Game.Tally | server/src/game.rs:328-331 | The loop over the hits computes exactly the one-point-per-hit board. |
| Game.AddHitsSnoc | server/src/game.rs:328-331 | Tallying one more hit adds one point to its shooter on the board tallied so far. |
| Game.Game.RewardSurvivors | server/src/game.rs:333-343 | Every due timer restarts one interval after now. Its player earns exactly one point when more than one player is alive. No other score or timer changes. |
| Game.Game.Tick | server/src/game.rs:197-344 | The item cap holds across the whole tick, and nobody joins or leaves the game during it. What each pass does is that pass's own contract. |
| GameActor.InitialInv | server/src/actors/game_actor.rs:72-74 | The loop starts New, with no players and no deadline, and satisfies its invariant. |
| GameActor.StepInv | server/src/actors/game_actor.rs:88-115 | Every command keeps the invariant: with a limit, never more players than the limit, and fewer while New; without a limit, never Finished; a deadline exactly while Running. |
| GameActor.StepsInv | server/src/actors/game_actor.rs:86-116 | A whole batch of drained commands keeps the invariant. |
| GameActor.EndOfTurnInv | server/src/actors/game_actor.rs:118-122 | The end check keeps the invariant. |
| GameActor.StatusForward | server/src/actors/game_actor.rs:89-122 | The status never moves back, under commands or the end check. |
| GameActor.FinishedStays | server/src/actors/game_actor.rs:89-122 | A finished game stays finished and admits nobody. |
| GameActor.StartSetsDeadline | server/src/actors/game_actor.rs:95-100 | Only a join starts a game, and starting sets the deadline to the time limit after now. |
| GameActor.Admission | server/src/actors/game_actor.rs:89-101 | With a limit, a join is admitted exactly while New. It starts the game exactly when it fills the last place. |
| GameActor.JoinOutcome | server/src/actors/game_actor.rs:89-94 | A refused join changes neither the loop nor the game. An admitted one counts one more player and adds it to the game. |
| GameActor.CommandsOnlyWhileRunning | server/src/actors/game_actor.rs:106-111 | A player's command reaches the game exactly while it runs. |
| GameActor.EndOfTurnFinishes | server/src/actors/game_actor.rs:160-174 | With a limit, a running game finishes exactly when its deadline has passed. |
| GameActor.NoLimit | server/src/actors/game_actor.rs:140-174 | Without a limit, every join is admitted and (re)starts the game, and the game never ends. |
| GameActor.LeaveUnderflowsAsWritten | server/src/actors/game_actor.rs:102-105 | With one place, a refused join followed by two leaves wraps the source's count to 2^32 - 1. The count of admitted players ends at 0. |
| GameActor.IssueNext | server/src/actors/game_actor.rs:234-241 | A new key gets the next id, and the loop is told of exactly that id. |
| GameActor.IssueOther | server/src/actors/game_actor.rs:263-269 | Removing a key and sending non-join commands keeps the issued ids consistent. |
| GameActor.StepAdmits | server/src/actors/game_actor.rs:89-111 | Outside a leave, a step adds to the admitted players exactly the player its effect lets into the game. |
| GameActor.NoLeavesMeans | server/src/actors/game_actor.rs:78-116 | The recursive "no leave in the batch" used by `Turn` means that no drained command is a `PlayerLeft`. |
| GameActor.OnlyCommandsMeans | server/src/actors/game_actor.rs:78-116 | The recursive "only game commands in the batch" used by `Turn` means that every drained command is a `GameCommand`. |
| GameActor.GameLoop.constructor | server/src/actors/game_actor.rs:69-74 | The loop starts with an empty game and the initial bookkeeping. |
| GameActor.GameLoop.Handle | server/src/actors/game_actor.rs:88-115 | One drained command updates the bookkeeping by the step function (`Step`, with the corrected leave count of "## Findings") and applies exactly its game effect: admit, remove, forward, reset, or nothing at all. Each effect states the game's whole new state: the fields it does not name stay as they were, and an ignored command leaves the game untouched. Without a leave, the game's roster gains exactly the player the bookkeeping admits. |
| GameActor.GameLoop.EndTurn | server/src/actors/game_actor.rs:118-127 | The end check runs, then a tick only while Running. A game that is not running is left untouched. The roster is kept. |
| GameActor.GameLoop.Turn | server/src/actors/game_actor.rs:76-128 | One turn applies the drained commands in order, with the corrected leave count of "## Findings", then the end check and the tick. The invariant holds throughout. A game that is not running and receives only players' commands is left untouched. In a turn without leaves, the players the game gains are exactly the players the bookkeeping admits. |
| GameActor.GameActor.constructor | server/src/actors/game_actor.rs:40-56 | The actor starts with no connections, spectators, names or keys, and the counter at 0. |
| GameActor.GameActor.Join | server/src/actors/game_actor.rs:210-253 | A spectator is only added to the spectators and sent the names. Otherwise the `JoinPlayer` outcome holds. |
| GameActor.GameActor.JoinPlayer | server/src/actors/game_actor.rs:219-252 | The new socket takes the key's connection and the old one is stopped. A known key reuses its id. A new key gets the counter, the counter increments, and the loop is told. The name is filed under the id and broadcast to everyone. |
| GameActor.GameActor.Leave | server/src/actors/game_actor.rs:255-273 | Only the socket holding the key's connection removes the key from both maps and tells the loop. A spectator leaving only leaves the spectators. |
| GameActor.GameActor.PlayerCommand | server/src/actors/game_actor.rs:282-288 | A command from a known key goes to the loop under its id; one from an unknown key is dropped. |
| GameActor.GameActor.ServerReset | server/src/actors/game_actor.rs:304-312 | A reset is forwarded to the loop. |
| RoomManager.RoomManager.constructor | server/src/actors/room_manager_actor.rs:42-48 | No rooms, and the counter at 0. |
| RoomManager.RoomManager.CreateRoom | server/src/actors/room_manager_actor.rs:50-76 | The counter increments and its decimal spelling is the new id, distinct from every existing room's. The room is filed under its 7-character token, replacing any room there. The result echoes the inputs. |
| RoomManager.RoomManager.JoinRoom | server/src/actors/room_manager_actor.rs:133-151 | A known token yields that room's game and echoes the request. An unknown token yields NotFound "Room not found". Nothing changes. |
| Spectator.NewShip | spectator/index.js:46-51 | A ship's coordinates are the floors of the incoming ones, and the angle is kept. |
| Spectator.Scale | spectator/index.js:150-152 | The scaled arena fits the canvas and touches it in the binding dimension. |
| Spectator.ScaleIsLargestFit | spectator/index.js:150-152 | No larger uniform scale fits. |
| Spectator.ScaleWidthBinds | spectator/index.js:150-152 | When the arena is relatively wider than the canvas, the scale is the canvas width over the arena width. |
| Spectator.ScaleHeightBinds | spectator/index.js:150-152 | When the arena is relatively taller than the canvas, the scale is the canvas height over the arena height. |
| Spectator.Render | spectator/index.js:142-170 | A frame draws at the largest scale that fits the canvas (`Scale`), the arena outline, one floored ship per player with its team name, and every bullet. |
| Spectator.PadEnd | spectator/index.js:191 | The score cell has length max(3, number of digits), starts with the digits and is padded with spaces. |
| Spectator.Insert | spectator/index.js:186 | Insertion adds exactly the one id. |
| Spectator.InsertMember | spectator/index.js:186 | After insertion, the members are the old ones plus the new id. |
| Spectator.InsertKeepsRanked | spectator/index.js:186 | Inserting into a list sorted by score keeps it sorted by score. |
| Spectator.SortIds | spectator/index.js:186 | Every scoreboard id appears once, by non-increasing score. |
| Spectator.RowsMakeTable | spectator/index.js:189-198 | One row per sorted id, ranked 1, 2, ..., is the scoreboard table. |
| Spectator.DrawScoreboard | spectator/index.js:185-201 | One row per key, ranks 1..n in score order, each with its name and padded score. |
| Spectator.Session.constructor | spectator/index.js:10-16 | The page starts connecting, with no names, no drawn scoreboard and no reconnect pending. |
| Spectator.Session.OnOpen | spectator/index.js:20-23 | Opening shows "connected". |
| Spectator.Session.OnClose | spectator/index.js:25-31 | Closing shows "disconnected" and schedules exactly one reconnect a second later. |
| Spectator.Session.OnError | spectator/index.js:33-37 | An error shows "error!", then closes, so exactly one reconnect is scheduled. |
| Spectator.Session.Reconnect | spectator/index.js:28-30 | A reconnect fires once its instant has come and starts connecting again. |
| Spectator.Session.HandleMessage | spectator/index.js:138-177 | `teamnames` replaces the directory and draws nothing. `state` draws a frame, and redraws the scoreboard exactly when it changed, updating the last drawn one only then. Other messages change nothing. |
| Condition.NewAtInterval | client/examples/complex/src/condition.rs:88-91 | A new timer keeps its interval. |
| Condition.NewAtIntervalFiresFirst | client/examples/complex/src/condition.rs:88-91 | A new timer fires on its first evaluation at or after its creation, and on none before. |
| Condition.Evaluate | client/examples/complex/src/condition.rs:7-86 | Evaluation changes at most the timers' next instants, and leaves a timer-free condition unchanged. |
| Condition.AlwaysHolds | client/examples/complex/src/condition.rs:13-16 | `Evaluate`'s case for `Always`, read off the definition: it is true. |
| Condition.AndShortCircuits | client/examples/complex/src/condition.rs:35-38 | `And` is the conjunction. The right side is not evaluated (its timer is unchanged) when the left is false. |
| Condition.OrShortCircuits | client/examples/complex/src/condition.rs:47-50 | `Or` is the disjunction. The right side is not evaluated when the left is true. |
| Condition.NotNegates | client/examples/complex/src/condition.rs:64-67 | `Evaluate`'s case for `Not`, read off the definition: it negates. |
| Condition.AtIntervalFiresWhenDue | client/examples/complex/src/condition.rs:76-86 | `Evaluate`'s case for `AtInterval`, read off the definition: the timer fires iff now is at or past next. Next then moves by exactly one interval, and otherwise stays. |
| Condition.AtIntervalRepeatCount | client/examples/complex/src/condition.rs:76-86 | A timer evaluated n times at one instant fires min(n, (now - next) / interval + 1) times when due (never before `next`), and `next` moves on one interval per firing. |
| Condition.AtIntervalCatchesUp | client/examples/complex/src/condition.rs:76-86 | A timer k intervals behind fires on k + 1 evaluations in a row. |
| Strategy.PriorityIsTotalOrder | client/examples/complex/src/strategy.rs:44-50 | Priorities are a strict total order, Empty < Low < Medium < High. |
| Strategy.NewPrioritized | client/examples/complex/src/strategy.rs:60-62 | The default is the no-op at the lowest priority. |
| Strategy.ConstructorsSetPriority | client/examples/complex/src/strategy.rs:64-74 | `with_low`/`with_medium`/`with_high` keep the behaviour and set exactly their priority. |
| Strategy.NextBehavior | client/examples/complex/src/strategy.rs:29-41 | A leaf offers its behaviour and changes nothing. A branch stays a branch with the same number of arms. |
| Strategy.FirstMatch | client/examples/complex/src/strategy.rs:31-38 | The search returns the remaining arms, one per arm. |
| Strategy.FirstTrue | client/examples/complex/src/strategy.rs:31-37 | The first arm whose condition holds, if any, and no earlier one. |
| Strategy.FirstMatchSpec | client/examples/complex/src/strategy.rs:31-38 | A branch answers with its first true arm's subtree, or None. The arms before it are only passed over, and the arms after it are not evaluated. |
| Strategy.NewStrategy | client/examples/complex/src/strategy.rs:13-15 | A strategy is a root branch of the given arms. |
| Strategy.Next | client/examples/complex/src/strategy.rs:17-19 | The strategy answers with the root branch's first-match result. |
| ComplexBot.InitialStrategy | client/examples/complex/src/main.rs:38-49 | The initial tree is a branch of two arms. |
| ComplexBot.InitialStrategyOffers | client/examples/complex/src/main.rs:38-49 | The tree offers the high-priority attack when a player is within 200, and the medium-priority dodge otherwise. |
| ComplexBot.SwitchRespectsPriority | client/examples/complex/src/main.rs:60-64 | A switch lowers priority only when the current behaviour has no command. A strictly higher offer is always taken, and no offer never switches. |
| ComplexBot.Player.constructor | client/examples/complex/src/main.rs:32-52 | The bot starts with the initial tree and the empty-priority no-op. |
| ComplexBot.Player.Tick | client/examples/complex/src/main.rs:56-67 | On a switch, the new behaviour's command is returned. Otherwise the current behaviour and its command are kept. Priority drops only when the current behaviour had nothing to say. |
| SimpleBot.StepThrottle | client/examples/simple.rs:29-37 | The throttle stays within [0, 99] hundredths. Stepping past an end reverses the direction and steps back. |
| SimpleBot.Choose | client/examples/simple.rs:39-43 | By counter mod 4: 0 sends Rotate with the old angle, 1 sends Fire, and 2 and 3 send Throttle with the new throttle. |
| SimpleBot.Player.constructor | client/examples/simple.rs:7-14 | Every field starts at zero. |
| SimpleBot.Player.Tick | client/examples/simple.rs:18-44 | The id is copied and the counter rises by one. The angle turns 0.05. The direction becomes 1 from 0 and otherwise only flips. The throttle bounces, and the command follows the cycle. |

## Left out

- Game.Game.Tick: its contract states that the item cap holds and that the roster is kept across the tick. It does not state the whole new state; what each pass does is the contract of that pass's method.
- GameActor.GameActor.JoinPlayer: requires the id counter below u32::MAX for a new key. There the source's `player_id_counter += 1` overflows: it panics in a debug build and reuses ids in a release build.
- GameActor.GameActor.Join: carries the same requirement as `JoinPlayer` for a new player key.
- GameActor.GameLoop.Handle: a leaving player is counted off only if it was admitted. This is the corrected count of "## Findings"; the source's own count is `GameActor.StepAsWritten`.
- GameActor.GameLoop.Turn: runs the same corrected step as `Handle`, so its bookkeeping differs from the source's after a leave of a player that was never admitted.
- GameActor.GameLoop.EndTurn: the tick it runs is stated only up to the game's item cap and roster, as for `Game.Game.Tick`.
- GameActor.GameLoop.Turn: it does not state the game's whole new state after a mixed batch. The game side is stated per command by `Handle` and for the end of the turn by `EndTurn`; `Turn` states the quiet case and the roster for batches without leaves.
- RoomManager.RoomManager.CreateRoom: the room counter is unbounded, so the `u32` overflow after 2^32 rooms is not modelled. The random token is a parameter, required to be 7 alphanumeric characters.
- SimpleBot.Player.Tick: the throttle is in exact hundredths. The source adds `0.01` in `f32`, whose rounding can turn the sweep round one step earlier or later. The tick counter is unbounded rather than a `u32`.
- Spectator.Scale: requires positive bounds. JavaScript would divide by zero and draw with `Infinity`.
- Spectator.Render: requires positive bounds, for the same reason.
- Spectator.Session.HandleMessage: requires positive bounds for a `state` message, for the same reason.
- Floating point: `f32` is `real`, so there is no rounding and no NaN. A NaN throttle, which `max`/`min` turn into 0, is not modelled.
- Scores and survival points are unbounded. The `u32` overflow of `+= 1` is not modelled.
- Physics: `angle_to_vector`, `dt` and the position integration of `tick` come from the caller as `advance`, `move` and `toVector`. The model keeps the clamping into the arena.
- Randomness: `PlayerState::randomize`, `Item::new_randomized`, `Item::apply_to` and the RNG are tokyo code that is not part of this model. They come in as parameters. The model keeps the player's id across them (`randomize(p).(id := p.id)`).
- Clocks: `Instant::now()` and `SystemTime::now()` are one instant per call.
- `Game::new` builds `GameState::new(bounds)`. Its contents beyond empty collections (the bounds echo) are not modelled.
- Threads and delivery: the loop thread, its channels, the oneshot cancel, `LoopHelper`'s pacing, and `do_send` delivery to sockets are not modelled. This includes the `GameState` broadcast at server/src/actors/game_actor.rs:291-298; `GameActor.GameActor.Audience` names its recipients. The commands sent to the loop are the `sent` sequence.
- `HashMap` iteration order is not modelled. The survival reward is proved for every visiting order.
- `GameActor::new` takes three arguments, but `Room::new` (server/src/actors/room_manager_actor.rs:35) calls it with one. The room's game address is a parameter, and the limits the room records are not passed to a game here.
- The analyzer-backed conditions (`PlayerWithin`, `PlayerWithHigherScore`, `BulletColliding`, `PlayerGettingNear`) and the behaviours' commands are tokyo code. They are not part of this model: their verdicts and commands come from the caller.
- Spectator page: canvas drawing, the DOM, `sanitizeHTML`, resizing and `JSON.parse` are not modelled. A missing team name is an absent value, where the page shows `undefined`. The leaderboard's tie-break by ascending id matches the page's key order only for ids up to 4294967294: id 4294967295 is not an array index, so the page lists it after the others in insertion order.
- The HTTP/WebSocket controllers, the Redis and store actors and `server/src/main.rs` are not part of this model.

## Findings

| source | as written | input that shows it | evidently intended | confidence | as-written member | corrected member |
|---|---|---|---|---|---|---|
| server/src/actors/game_actor.rs:102-105 | `num_players -= 1` on every `PlayerLeft`, including a leave by a player whose `PlayerJoined` was refused | `max_players = 1`: join 0 (admitted, game starts), join 1 (refused), leave 1, leave 0. The count reaches 0 while player 0 still plays, then wraps to 4294967295, which panics in a debug build. | Count off only players that were let in, so the count stays the number of admitted players within the limit | not executed | GameActor.LeaveUnderflowsAsWritten | GameActor.StepInv |
