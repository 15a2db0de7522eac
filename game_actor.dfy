/** The game actor of the server (server/src/actors/game_actor.rs): the
    bookkeeping of the game loop (the status New → Running → Finished, the
    players let in and the deadline) as functions of the commands it
    drains, the loop itself as a class around one `Game`, and the actor's
    handlers that hand out player ids and forward commands to the loop.

    The loop thread, its channels and its sleeping are not modelled: the
    commands a turn drains are a parameter, and one turn sees one instant
    `now` (milliseconds). */
module GameActor {
  import opened Types
  import Game

  datatype GameStatus = New | Running | Finished

  /** `GameLoopCommand`. */
  datatype LoopCommand =
    | PlayerJoined(id: U32)
    | PlayerLeft(id: U32)
    | GameCommand(id: U32, cmd: Command)
    | Reset

  /** The loop's own variables: the status, the players it let in (its
      `num_players` is their number) and the deadline of a running game. */
  datatype LoopState = LoopState(status: GameStatus, admitted: multiset<U32>, gameOverAt: Option<int>)

  function NumPlayers(s: LoopState): nat
  {
    |s.admitted|
  }

  /** How far along a status is: the status only ever moves forward. */
  function Rank(status: GameStatus): nat
  {
    match status
    case New => 0
    case Running => 1
    case Finished => 2
  }

  /** `can_add_player`. A `max_players` of 0 means no limit. */
  predicate CanAddPlayer(status: GameStatus, maxPlayers: U32, numPlayers: nat)
  {
    maxPlayers == 0 || (status == New && numPlayers < maxPlayers)
  }

  /** `can_start_game`. */
  predicate CanStartGame(status: GameStatus, maxPlayers: U32, numPlayers: nat)
  {
    maxPlayers == 0 || (status == New && numPlayers == maxPlayers)
  }

  /** `will_end_game` at instant `now`. */
  predicate WillEndGame(status: GameStatus, maxPlayers: U32, gameOverAt: Option<int>, now: int)
  {
    maxPlayers != 0 && status == Running && gameOverAt.Some? && now >= gameOverAt.value
  }

  /** The deadline a game started at `now` gets. */
  function Deadline(timeLimitSeconds: U32, now: int): int
  {
    now + timeLimitSeconds * 1000
  }

  /** One command of the loop, on its own variables. A leaving player is
      counted off only if it was let in (see the Findings of README.md). */
  function Step(s: LoopState, maxPlayers: U32, timeLimitSeconds: U32, cmd: LoopCommand, now: int)
    : LoopState
  {
    match cmd
    case PlayerJoined(id) =>
      if !CanAddPlayer(s.status, maxPlayers, NumPlayers(s)) then s
      else
        var admitted := s.admitted + multiset{id};
        if CanStartGame(s.status, maxPlayers, |admitted|)
        then LoopState(Running, admitted, Some(Deadline(timeLimitSeconds, now)))
        else s.(admitted := admitted)
    case PlayerLeft(id) =>
      if id in s.admitted then s.(admitted := s.admitted - multiset{id}) else s
    case GameCommand(_, _) => s
    case Reset => s
  }

  /** The commands `cmds`, in order. */
  function Steps(s: LoopState, maxPlayers: U32, timeLimitSeconds: U32, cmds: seq<LoopCommand>,
                 now: int): LoopState
    decreases |cmds|
  {
    if cmds == [] then s
    else Step(Steps(s, maxPlayers, timeLimitSeconds, cmds[..|cmds| - 1], now),
              maxPlayers, timeLimitSeconds, cmds[|cmds| - 1], now)
  }

  /** The end check after the commands of a turn. */
  function EndOfTurn(s: LoopState, maxPlayers: U32, now: int): LoopState
  {
    if WillEndGame(s.status, maxPlayers, s.gameOverAt, now)
    then s.(status := Finished, gameOverAt := None)
    else s
  }

  /** What a command does to the game. */
  datatype GameEffect = Admit(id: U32) | Remove(id: U32) | Forward(id: U32, cmd: Command)
                      | Restart | Ignore

  function Effect(s: LoopState, maxPlayers: U32, cmd: LoopCommand): GameEffect
  {
    match cmd
    case PlayerJoined(id) =>
      if CanAddPlayer(s.status, maxPlayers, NumPlayers(s)) then Admit(id) else Ignore
    case PlayerLeft(id) => Remove(id)
    case GameCommand(id, c) => if s.status == Running then Forward(id, c) else Ignore
    case Reset => Restart
  }

  /** No command of `cmds` is a leave. */
  predicate NoLeaves(cmds: seq<LoopCommand>)
    decreases |cmds|
  {
    cmds == [] || (NoLeaves(cmds[..|cmds| - 1]) && !cmds[|cmds| - 1].PlayerLeft?)
  }

  /** Every command of `cmds` is a player's game command. */
  predicate OnlyCommands(cmds: seq<LoopCommand>)
    decreases |cmds|
  {
    cmds == [] || (OnlyCommands(cmds[..|cmds| - 1]) && cmds[|cmds| - 1].GameCommand?)
  }

  /** `NoLeaves` is the plain "no command is a leave". */
  lemma {:induction false} NoLeavesMeans(cmds: seq<LoopCommand>)
    ensures NoLeaves(cmds) <==> forall j :: 0 <= j < |cmds| ==> !cmds[j].PlayerLeft?
    decreases |cmds|
  {
    if cmds != [] {
      var init := cmds[..|cmds| - 1];
      NoLeavesMeans(init);
      assert forall j :: 0 <= j < |init| ==> init[j] == cmds[j];
    }
  }

  /** `OnlyCommands` is the plain "every command is a game command". */
  lemma {:induction false} OnlyCommandsMeans(cmds: seq<LoopCommand>)
    ensures OnlyCommands(cmds) <==> forall j :: 0 <= j < |cmds| ==> cmds[j].GameCommand?
    decreases |cmds|
  {
    if cmds != [] {
      var init := cmds[..|cmds| - 1];
      OnlyCommandsMeans(init);
      assert forall j :: 0 <= j < |init| ==> init[j] == cmds[j];
    }
  }

  /** The player an effect lets into the game. */
  function Joined(e: GameEffect): multiset<U32>
  {
    if e.Admit? then multiset{e.id} else multiset{}
  }

  /** Short of a leave, a command lets into the bookkeeping exactly the
      player it lets into the game. */
  lemma StepAdmits(s: LoopState, maxPlayers: U32, timeLimitSeconds: U32, cmd: LoopCommand, now: int)
    requires !cmd.PlayerLeft?
    ensures Step(s, maxPlayers, timeLimitSeconds, cmd, now).admitted
            == s.admitted + Joined(Effect(s, maxPlayers, cmd))
  {
  }

  /** Two tallies that started level (`r0` against `a0`) and gain the
      same players stay level. */
  lemma GainedAlike(r: multiset<U32>, r': multiset<U32>, a: multiset<U32>, a': multiset<U32>,
                    r0: multiset<U32>, a0: multiset<U32>, joined: multiset<U32>)
    requires r + a0 == r0 + a
    requires r' == r + joined && a' == a + joined
    ensures r' + a0 == r0 + a'
  {
    assert forall x :: (r' + a0)[x] == (r + a0)[x] + joined[x] == (r0 + a)[x] + joined[x];
  }

  /** What holds of the loop's variables from its start on: with a limit,
      never more players than the limit, and fewer while the game is new;
      without one, the game never finishes; a deadline exactly while the
      game runs. */
  ghost predicate Inv(s: LoopState, maxPlayers: U32)
  {
    && (maxPlayers > 0 ==> NumPlayers(s) <= maxPlayers)
    && (maxPlayers > 0 && s.status == New ==> NumPlayers(s) < maxPlayers)
    && (maxPlayers == 0 ==> s.status != Finished)
    && (s.gameOverAt.Some? <==> s.status == Running)
  }

  function Initial(): LoopState
  {
    LoopState(New, multiset{}, None)
  }

  // ---------------------------------------------------------------------
  // Properties of the loop's bookkeeping

  lemma InitialInv(maxPlayers: U32)
    ensures Inv(Initial(), maxPlayers)
  {
  }

  /** Every command keeps the loop's invariant. */
  lemma StepInv(s: LoopState, maxPlayers: U32, timeLimitSeconds: U32, cmd: LoopCommand, now: int)
    requires Inv(s, maxPlayers)
    ensures Inv(Step(s, maxPlayers, timeLimitSeconds, cmd, now), maxPlayers)
  {
    if cmd.PlayerLeft? && cmd.id in s.admitted {
      assert NumPlayers(Step(s, maxPlayers, timeLimitSeconds, cmd, now)) == NumPlayers(s) - 1;
    }
  }

  lemma {:induction false} StepsInv(s: LoopState, maxPlayers: U32, timeLimitSeconds: U32,
                                    cmds: seq<LoopCommand>, now: int)
    requires Inv(s, maxPlayers)
    ensures Inv(Steps(s, maxPlayers, timeLimitSeconds, cmds, now), maxPlayers)
    decreases |cmds|
  {
    if cmds != [] {
      StepsInv(s, maxPlayers, timeLimitSeconds, cmds[..|cmds| - 1], now);
      StepInv(Steps(s, maxPlayers, timeLimitSeconds, cmds[..|cmds| - 1], now), maxPlayers,
              timeLimitSeconds, cmds[|cmds| - 1], now);
    }
  }

  /** The end check keeps the loop's invariant. */
  lemma EndOfTurnInv(s: LoopState, maxPlayers: U32, now: int)
    requires Inv(s, maxPlayers)
    ensures Inv(EndOfTurn(s, maxPlayers, now), maxPlayers)
  {
  }

  /** The status never moves back, under commands or the end check. */
  lemma StatusForward(s: LoopState, maxPlayers: U32, timeLimitSeconds: U32, cmd: LoopCommand,
                      now: int)
    requires Inv(s, maxPlayers)
    ensures Rank(Step(s, maxPlayers, timeLimitSeconds, cmd, now).status) >= Rank(s.status)
    ensures Rank(EndOfTurn(s, maxPlayers, now).status) >= Rank(s.status)
  {
  }

  /** A finished game stays finished: nobody is let in, and the end check
      leaves it alone. */
  lemma FinishedStays(s: LoopState, maxPlayers: U32, timeLimitSeconds: U32, cmd: LoopCommand,
                      now: int)
    requires Inv(s, maxPlayers) && s.status == Finished
    ensures Step(s, maxPlayers, timeLimitSeconds, cmd, now).status == Finished
    ensures EndOfTurn(s, maxPlayers, now).status == Finished
    ensures !Effect(s, maxPlayers, cmd).Admit?
  {
  }

  /** A game that starts gets its deadline `time_limit_seconds` after the
      instant it started. */
  lemma StartSetsDeadline(s: LoopState, maxPlayers: U32, timeLimitSeconds: U32, cmd: LoopCommand,
                          now: int)
    requires s.status != Running
    requires Step(s, maxPlayers, timeLimitSeconds, cmd, now).status == Running
    ensures cmd.PlayerJoined?
    ensures Step(s, maxPlayers, timeLimitSeconds, cmd, now).gameOverAt
            == Some(Deadline(timeLimitSeconds, now))
  {
  }

  /** With a limit, a join is let in exactly while the game is new, and it
      starts the game exactly when it fills the last place. */
  lemma Admission(s: LoopState, maxPlayers: U32, timeLimitSeconds: U32, id: U32, now: int)
    requires Inv(s, maxPlayers) && maxPlayers > 0
    ensures CanAddPlayer(s.status, maxPlayers, NumPlayers(s)) <==> s.status == New
    ensures var t := Step(s, maxPlayers, timeLimitSeconds, PlayerJoined(id), now);
            s.status == New ==>
              && t.admitted == s.admitted + multiset{id}
              && (t.status == Running <==> NumPlayers(s) + 1 == maxPlayers)
  {
  }

  /** A refused join changes nothing, in the loop or in the game; one that
      is let in counts one more player and adds it to the game. */
  lemma JoinOutcome(s: LoopState, maxPlayers: U32, timeLimitSeconds: U32, id: U32, now: int)
    ensures var t := Step(s, maxPlayers, timeLimitSeconds, PlayerJoined(id), now);
            if CanAddPlayer(s.status, maxPlayers, NumPlayers(s))
            then NumPlayers(t) == NumPlayers(s) + 1 && id in t.admitted
                 && Effect(s, maxPlayers, PlayerJoined(id)) == Admit(id)
            else t == s && Effect(s, maxPlayers, PlayerJoined(id)) == Ignore
  {
  }

  /** A player's command reaches the game only while the game runs. */
  lemma CommandsOnlyWhileRunning(s: LoopState, maxPlayers: U32, id: U32, c: Command)
    ensures Effect(s, maxPlayers, GameCommand(id, c)).Forward? <==> s.status == Running
  {
  }

  /** With a limit, the end check finishes a running game exactly when its
      deadline has passed; a game still running after it is before its
      deadline. */
  lemma EndOfTurnFinishes(s: LoopState, maxPlayers: U32, now: int)
    requires Inv(s, maxPlayers) && maxPlayers > 0
    ensures s.status == Running ==>
              (EndOfTurn(s, maxPlayers, now).status == Finished <==> now >= s.gameOverAt.value)
    ensures EndOfTurn(s, maxPlayers, now).status == Running ==> now < s.gameOverAt.value
  {
  }

  /** Without a limit every join is let in and (re)starts the game, and the
      game never ends. */
  lemma NoLimit(s: LoopState, timeLimitSeconds: U32, id: U32, now: int)
    ensures Step(s, 0, timeLimitSeconds, PlayerJoined(id), now)
            == LoopState(Running, s.admitted + multiset{id}, Some(Deadline(timeLimitSeconds, now)))
    ensures EndOfTurn(s, 0, now) == s
  {
  }

  // ---------------------------------------------------------------------
  // The player count as written

  /** The loop's variables as the source keeps them: a bare `u32` count. */
  datatype CountedState = CountedState(status: GameStatus, numPlayers: U32, gameOverAt: Option<int>)

  /** One command with the count as written: `+= 1` on a join let in and
      `-= 1` on every leave, wrapping at 2^32 as a release build does. */
  function StepAsWritten(s: CountedState, maxPlayers: U32, timeLimitSeconds: U32, cmd: LoopCommand,
                         now: int): CountedState
  {
    match cmd
    case PlayerJoined(id) =>
      if !CanAddPlayer(s.status, maxPlayers, s.numPlayers) then s
      else
        var n := WrappingInc(s.numPlayers);
        if CanStartGame(s.status, maxPlayers, n)
        then CountedState(Running, n, Some(Deadline(timeLimitSeconds, now)))
        else s.(numPlayers := n)
    case PlayerLeft(_) =>
      s.(numPlayers := if s.numPlayers == 0 then U32_LIMIT - 1 else s.numPlayers - 1)
    case GameCommand(_, _) => s
    case Reset => s
  }

  /** With one place: player 0 joins and starts the game, player 1 is
      refused, both leave. The count as written drops to 0 while player 0
      is still in the game, then wraps to 2^32 - 1; the count of players
      let in ends at 0. */
  lemma LeaveUnderflowsAsWritten()
    ensures var s0 := CountedState(New, 0, None);
            var s1 := StepAsWritten(s0, 1, 60, PlayerJoined(0), 0);
            var s2 := StepAsWritten(s1, 1, 60, PlayerJoined(1), 0);
            var s3 := StepAsWritten(s2, 1, 60, PlayerLeft(1), 0);
            var s4 := StepAsWritten(s3, 1, 60, PlayerLeft(0), 0);
            s1.numPlayers == 1 && s2 == s1 && s3.numPlayers == 0 && s4.numPlayers == U32_LIMIT - 1
    ensures var t := Steps(Initial(), 1, 60, [PlayerJoined(0), PlayerJoined(1), PlayerLeft(1)], 0);
            t.admitted == multiset{0} && NumPlayers(Step(t, 1, 60, PlayerLeft(0), 0)) == 0
  {
    var cmds := [PlayerJoined(0), PlayerJoined(1), PlayerLeft(1)];
    assert cmds[..2] == [PlayerJoined(0), PlayerJoined(1)];
    assert cmds[..2][..1] == [PlayerJoined(0)];
    assert [PlayerJoined(0)][..0] == [];
  }

  // ---------------------------------------------------------------------
  // The loop

  /** The effects of the world a turn needs: where a joining player and
      the players of a reset game are placed, the item a spawn adds, the
      motion, the re-placement of a killed player, an item's effect and
      the direction of an angle. */
  datatype World = World(spawn: Game.PlayerState, place: nat -> Game.PlayerState,
                         spawned: Game.Item, advance: Game.BulletState -> (real, real),
                         move: Game.PlayerState -> (real, real),
                         randomize: Game.PlayerState -> Game.PlayerState,
                         applyTo: (Game.Item, Game.PlayerState) -> Game.PlayerState,
                         toVector: real -> (real, real))

  /** `game_loop`: the game it runs and its own variables. */
  class GameLoop {
    const game: Game.Game
    const maxPlayers: U32
    const timeLimitSeconds: U32
    var state: LoopState

    ghost predicate Valid()
      reads this, game`items
    {
      game.Valid() && Inv(state, maxPlayers)
    }

    constructor (config: Game.Config, maxPlayers: U32, timeLimitSeconds: U32, now: int)
      ensures Valid() && fresh(game)
      ensures this.maxPlayers == maxPlayers && this.timeLimitSeconds == timeLimitSeconds
      ensures state == Initial() && game.players == [] && game.dead == []
    {
      game := new Game.Game(config, now);
      this.maxPlayers := maxPlayers;
      this.timeLimitSeconds := timeLimitSeconds;
      state := Initial();
    }

    /** One drained command at instant `now`: the bookkeeping takes one
        step and the game gets exactly the command's effect, every field
        the effect does not name staying as it was. Without a leave, the
        game gains the players the bookkeeping lets in and no others. */
    method Handle(cmd: LoopCommand, now: int, world: World)
      requires Valid()
      modifies this`state, game
      ensures Valid()
      ensures state == Step(old(state), maxPlayers, timeLimitSeconds, cmd, now)
      ensures match Effect(old(state), maxPlayers, cmd)
              case Admit(id) => game.PlayerAdded(id, world.spawn, now)
              case Remove(id) => game.PlayerRemoved(id)
              case Forward(id, c) => game.Commanded(id, c, world.toVector)
              case Restart => game.Restarting(world.place, now)
              case Ignore => unchanged(game)
      ensures !cmd.PlayerLeft? ==>
                game.Roster() == old(game.Roster()) + Joined(Effect(old(state), maxPlayers, cmd))
    {
      StepInv(state, maxPlayers, timeLimitSeconds, cmd, now);
      var e := Effect(state, maxPlayers, cmd);
      state := Step(state, maxPlayers, timeLimitSeconds, cmd, now);
      match e {
        case Admit(id) => game.AddPlayer(id, world.spawn, now);
        case Remove(id) => game.PlayerLeft(id);
        case Forward(id, c) => game.HandleCmd(id, c, world.toVector);
        case Restart => game.Reset(world.place, now);
        case Ignore =>
      }
    }

    /** The end of a turn: the end check, then a tick while the game runs. */
    method EndTurn(now: int, world: World)
      requires Valid()
      modifies this`state, game
      ensures Valid()
      ensures state == EndOfTurn(old(state), maxPlayers, now)
      ensures state.status != Running ==> unchanged(game)
      ensures game.Roster() == old(game.Roster())
    {
      EndOfTurnInv(state, maxPlayers, now);
      state := EndOfTurn(state, maxPlayers, now);
      if state.status == Running {
        game.Tick(now, world.spawned, world.advance, world.move, world.randomize, world.applyTo);
      }
    }

    /** One turn of `game_loop`: the commands drained from the channel, in
        order, then the end check and the tick. A game that is not running
        ignores its players' commands; without a leave, the game gains
        exactly the players the bookkeeping lets in. */
    method Turn(cmds: seq<LoopCommand>, now: int, world: World)
      requires Valid()
      modifies this`state, game
      ensures Valid()
      ensures state == EndOfTurn(Steps(old(state), maxPlayers, timeLimitSeconds, cmds, now),
                                 maxPlayers, now)
      ensures OnlyCommands(cmds) && old(state).status != Running ==> unchanged(game)
      ensures NoLeaves(cmds) ==>
                game.Roster() + old(state).admitted == old(game.Roster()) + state.admitted
    {
      ghost var s0, r0 := state, game.Roster();
      for k := 0 to |cmds|
        invariant Valid()
        invariant state == Steps(s0, maxPlayers, timeLimitSeconds, cmds[..k], now)
        invariant (OnlyCommands(cmds[..k]) && s0.status != Running)
                    ==> state.status != Running && unchanged(game)
        invariant NoLeaves(cmds[..k]) ==> game.Roster() + s0.admitted == r0 + state.admitted
      {
        assert cmds[..k + 1][..k] == cmds[..k];
        ghost var s1, r1 := state, game.Roster();
        Handle(cmds[k], now, world);
        assert cmds[..k + 1][k] == cmds[k];
        if NoLeaves(cmds[..k + 1]) {
          StepAdmits(s1, maxPlayers, timeLimitSeconds, cmds[k], now);
          GainedAlike(r1, game.Roster(), s1.admitted, state.admitted, r0, s0.admitted,
                      Joined(Effect(s1, maxPlayers, cmds[k])));
        }
      }
      assert cmds[..|cmds|] == cmds;
      EndTurn(now, world);
    }
  }

  // ---------------------------------------------------------------------
  // The actor

  /** The address of a client socket, kept opaque. */
  type Addr = nat

  const SPECTATOR: string := "SPECTATOR"

  /** The ids of the `PlayerJoined` commands among `q`, in order. */
  function JoinedIds(q: seq<LoopCommand>): seq<U32>
    decreases |q|
  {
    if q == [] then []
    else JoinedIds(q[..|q| - 1]) + (if q[|q| - 1].PlayerJoined? then [q[|q| - 1].id] else [])
  }

  lemma JoinedIdsSnoc(q: seq<LoopCommand>, c: LoopCommand)
    ensures JoinedIds(q + [c]) == JoinedIds(q) + (if c.PlayerJoined? then [c.id] else [])
  {
    assert (q + [c])[..|q + [c]| - 1] == q;
  }

  /** The ids of `keys` are below `counter` and distinct, and the
      `PlayerJoined` commands of `sent` carry 0, 1, ..., `counter` - 1 in
      that order. */
  ghost predicate Issued(keys: map<string, U32>, counter: U32, sent: seq<LoopCommand>)
  {
    && (forall k :: k in keys ==> keys[k] < counter)
    && (forall k, k' :: (k in keys && k' in keys && keys[k] == keys[k']) ==> k == k')
    && |JoinedIds(sent)| == counter
    && (forall i :: 0 <= i < |JoinedIds(sent)| ==> JoinedIds(sent)[i] == i)
  }

  /** A new key gets the next id, and the loop is told of it. */
  lemma IssueNext(keys: map<string, U32>, counter: U32, sent: seq<LoopCommand>, key: string)
    requires Issued(keys, counter, sent) && key !in keys && counter < U32_LIMIT - 1
    ensures Issued(keys[key := counter], counter + 1, sent + [PlayerJoined(counter)])
  {
    JoinedIdsSnoc(sent, PlayerJoined(counter));
  }

  /** A key going away and commands other than `PlayerJoined` keep ids
      issued. */
  lemma IssueOther(keys: map<string, U32>, counter: U32, sent: seq<LoopCommand>, key: string,
                   extra: seq<LoopCommand>)
    requires Issued(keys, counter, sent)
    requires |extra| <= 1 && forall c :: c in extra ==> !c.PlayerJoined?
    ensures Issued(keys - {key}, counter, sent + extra)
    ensures Issued(keys, counter, sent + extra)
  {
    if extra == [] {
      assert sent + extra == sent;
    } else {
      assert extra == [extra[0]];
      JoinedIdsSnoc(sent, extra[0]);
    }
  }

  /** `GameActor`: its connections, spectators, team names and player ids,
      and the commands it has sent to the loop so far. */
  class GameActor {
    var connections: map<string, Addr>
    var spectators: set<Addr>
    var teamNames: map<U32, string>
    var playerIdCounter: U32
    var apiKeyToPlayerId: map<string, U32>
    /** What `msg_tx` has carried, oldest first. */
    var sent: seq<LoopCommand>

    /** Every API key holds an id already handed out, no two keys share one,
        and the loop was told of each id exactly once, in the order they
        were handed out. */
    ghost predicate Valid()
      reads this`apiKeyToPlayerId, this`playerIdCounter, this`sent
    {
      Issued(apiKeyToPlayerId, playerIdCounter, sent)
    }

    constructor ()
      ensures Valid()
      ensures connections == map[] && spectators == {} && teamNames == map[]
      ensures playerIdCounter == 0 && apiKeyToPlayerId == map[] && sent == []
    {
      connections, spectators, teamNames := map[], {}, map[];
      playerIdCounter, apiKeyToPlayerId, sent := 0, map[], [];
    }

    /** Everyone the game state and the team names go to. */
    function Audience(): set<Addr>
      reads this`connections, this`spectators
    {
      connections.Values + spectators
    }

    /** `SocketEvent::Join`. Returns the old connection told to stop, the
        id sent to the joining socket, and who gets the new team names. */
    method Join(apiKey: string, teamName: string, addr: Addr)
      returns (stopped: Option<Addr>, idSent: Option<U32>, teamNamesTo: set<Addr>)
      requires Valid()
      requires apiKey != SPECTATOR && apiKey !in apiKeyToPlayerId ==>
                 playerIdCounter < U32_LIMIT - 1
      modifies this
      ensures Valid()
      ensures apiKey == SPECTATOR ==>
                && spectators == old(spectators) + {addr}
                && connections == old(connections) && teamNames == old(teamNames)
                && apiKeyToPlayerId == old(apiKeyToPlayerId) && sent == old(sent)
                && playerIdCounter == old(playerIdCounter)
                && stopped == None && idSent == None && teamNamesTo == {addr}
      ensures apiKey != SPECTATOR ==> JoinedAsPlayer(apiKey, teamName, addr, stopped, idSent, teamNamesTo)
    {
      if apiKey == SPECTATOR {
        spectators := spectators + {addr};
        stopped, idSent, teamNamesTo := None, None, {addr};
      } else {
        var id;
        stopped, id, teamNamesTo := JoinPlayer(apiKey, teamName, addr);
        idSent := Some(id);
      }
    }

    /** What a join under a player's key does: the new socket takes the
        key's connection (the old one is told to stop), a known key keeps
        its id, a new key gets the next id and the loop is told it joined,
        and the team name is filed under the id and sent to everyone. */
    twostate predicate JoinedAsPlayer(apiKey: string, teamName: string, addr: Addr,
                                      new stopped: Option<Addr>, new idSent: Option<U32>,
                                      teamNamesTo: set<Addr>)
      reads this
    {
      && connections == old(connections)[apiKey := addr]
      && spectators == old(spectators)
      && stopped == (if apiKey in old(connections) then Some(old(connections)[apiKey]) else None)
      && (if apiKey in old(apiKeyToPlayerId)
          then idSent == Some(old(apiKeyToPlayerId)[apiKey])
               && apiKeyToPlayerId == old(apiKeyToPlayerId)
               && playerIdCounter == old(playerIdCounter) && sent == old(sent)
          else idSent == Some(old(playerIdCounter))
               && apiKeyToPlayerId == old(apiKeyToPlayerId)[apiKey := old(playerIdCounter)]
               && playerIdCounter == old(playerIdCounter) + 1
               && sent == old(sent) + [PlayerJoined(old(playerIdCounter))])
      && idSent.Some?
      && teamNames == old(teamNames)[idSent.value := teamName]
      && teamNamesTo == Audience()
    }

    /** The join of a player's socket. A new key needs an id below
        `u32::MAX`. */
    method JoinPlayer(apiKey: string, teamName: string, addr: Addr)
      returns (stopped: Option<Addr>, playerId: U32, teamNamesTo: set<Addr>)
      requires Valid()
      requires apiKey !in apiKeyToPlayerId ==> playerIdCounter < U32_LIMIT - 1
      modifies this`connections, this`teamNames, this`playerIdCounter, this`apiKeyToPlayerId
      modifies this`sent
      ensures Valid()
      ensures JoinedAsPlayer(apiKey, teamName, addr, stopped, Some(playerId), teamNamesTo)
    {
      stopped := if apiKey in connections then Some(connections[apiKey]) else None;
      connections := connections[apiKey := addr];
      if apiKey in apiKeyToPlayerId {
        playerId := apiKeyToPlayerId[apiKey];
      } else {
        playerId := playerIdCounter;
        IssueNext(apiKeyToPlayerId, playerIdCounter, sent, apiKey);
        playerIdCounter := playerIdCounter + 1;
        apiKeyToPlayerId := apiKeyToPlayerId[apiKey := playerId];
        sent := sent + [PlayerJoined(playerId)];
      }
      teamNames := teamNames[playerId := teamName];
      teamNamesTo := Audience();
    }

    /** `SocketEvent::Leave`: only the socket that holds the key's
        connection takes the key away, and the loop is told the player
        left. */
    method Leave(apiKey: string, addr: Addr)
      requires Valid()
      modifies this`connections, this`spectators, this`apiKeyToPlayerId, this`sent
      ensures Valid()
      ensures apiKey == SPECTATOR ==>
                && spectators == old(spectators) - {addr}
                && connections == old(connections) && apiKeyToPlayerId == old(apiKeyToPlayerId)
                && sent == old(sent)
      ensures apiKey != SPECTATOR ==>
                spectators == old(spectators)
                && if apiKey in old(connections) && old(connections)[apiKey] == addr
                   then connections == old(connections) - {apiKey}
                        && apiKeyToPlayerId == old(apiKeyToPlayerId) - {apiKey}
                        && sent == old(sent) + (if apiKey in old(apiKeyToPlayerId)
                                                then [PlayerLeft(old(apiKeyToPlayerId)[apiKey])]
                                                else [])
                   else connections == old(connections)
                        && apiKeyToPlayerId == old(apiKeyToPlayerId) && sent == old(sent)
    {
      if apiKey == SPECTATOR {
        spectators := spectators - {addr};
      } else if apiKey in connections && connections[apiKey] == addr {
        var told := if apiKey in apiKeyToPlayerId then [PlayerLeft(apiKeyToPlayerId[apiKey])] else [];
        IssueOther(apiKeyToPlayerId, playerIdCounter, sent, apiKey, told);
        sent := sent + told;
        apiKeyToPlayerId := apiKeyToPlayerId - {apiKey};
        connections := connections - {apiKey};
      }
    }

    /** `Handler<PlayerGameCommand>`: a command from a known key goes to
        the loop under that key's player id. */
    method PlayerCommand(apiKey: string, cmd: Command)
      requires Valid()
      modifies this`sent
      ensures Valid()
      ensures sent == old(sent) + (if apiKey in apiKeyToPlayerId
                                   then [GameCommand(apiKeyToPlayerId[apiKey], cmd)] else [])
    {
      if apiKey in apiKeyToPlayerId {
        IssueOther(apiKeyToPlayerId, playerIdCounter, sent, apiKey,
                   [GameCommand(apiKeyToPlayerId[apiKey], cmd)]);
        sent := sent + [GameCommand(apiKeyToPlayerId[apiKey], cmd)];
      }
    }

    /** `Handler<ServerCommand>`: a reset goes to the loop. */
    method ServerReset()
      requires Valid()
      modifies this`sent
      ensures Valid()
      ensures sent == old(sent) + [Reset]
    {
      IssueOther(apiKeyToPlayerId, playerIdCounter, sent, "", [Reset]);
      sent := sent + [Reset];
    }
  }
}
