/**
 * The game service (game.service.ts): dealing roles and creating the game record,
 * resolving one night, and recording a day vote, against the key-value store that
 * holds one JSON-encoded `Game` per room under `game:<roomId>`. JSON encoding is
 * taken to be exact, so the store is a map from key to `Game`.
 */
module Games {
  import opened Wrappers
  import opened GameModels
  import opened JsObjects
  import opened Shuffle

  /** The errors the service throws. */
  datatype GameError =
    | NotEnoughPlayers   // "8 players are needed to start the game"
    | GameNotFound       // "Game not found"

  /** `{killed: false, reason: 'protected'}` or `{killed: true, target}`. */
  datatype KillResult = Protected | Killed(target: int)

  /** `{inspected: true, role}`; the role is null when the player has none. */
  datatype PoliceResult = Inspected(role: Option<Role>)

  /** What `processNightActions` returns. */
  datatype NightOutcome = NightOutcome(
    killResult: Option<KillResult>,
    policeResult: Option<PoliceResult>,
    game: Game)

  /** The store key of a room's game. */
  function GameKey(roomId: string): (key: string)
    ensures |key| == |roomId| + 5 && key[..5] == "game:" && key[5..] == roomId
  {
    "game:" + roomId
  }

  /** Distinct rooms never share a game key. */
  lemma GameKeyInjective(a: string, b: string)
    ensures GameKey(a) == GameKey(b) ==> a == b
  {
  }

  /** The fixed 8-slot role pool: 2 mafia, 4 citizens, 1 police, 1 doctor. */
  const RolePool: seq<Role> := [Mafia, Mafia, Citizen, Citizen, Citizen, Citizen, Police, Doctor]

  /** The hard-coded roster every room gets: players 1..8 with userIds 1001..1008, no roles. */
  function PlayersForRoom(roomId: string): (players: seq<Player>)
    ensures |players| == 8
    ensures forall i :: 0 <= i < 8 ==>
      players[i].userId == 1001 + i && players[i].roomId == roomId &&
      players[i].role == None && players[i].isAlive
  {
    [ Player(1, 1001, "Player1", roomId, None, true),
      Player(2, 1002, "Player2", roomId, None, true),
      Player(3, 1003, "Player3", roomId, None, true),
      Player(4, 1004, "Player4", roomId, None, true),
      Player(5, 1005, "Player5", roomId, None, true),
      Player(6, 1006, "Player6", roomId, None, true),
      Player(7, 1007, "Player7", roomId, None, true),
      Player(8, 1008, "Player8", roomId, None, true) ]
  }

  /** The index of the first player with that userId, if any. */
  function FirstIndex(players: seq<Player>, userId: int): (r: Option<nat>)
    ensures r.None? ==> forall i :: 0 <= i < |players| ==> players[i].userId != userId
    ensures r.Some? ==> r.value < |players| && players[r.value].userId == userId
    ensures r.Some? ==> forall i :: 0 <= i < r.value ==> players[i].userId != userId
  {
    if |players| == 0 then None
    else if players[0].userId == userId then Some(0)
    else
      match FirstIndex(players[1..], userId)
      case None => None
      case Some(k) => Some(k + 1)
  }

  /** `players.find((p) => p.userId === userId) || null`: the first player with that userId. */
  function FindByUserId(players: seq<Player>, userId: int): (r: Option<Player>)
    ensures r.None? <==> forall i :: 0 <= i < |players| ==> players[i].userId != userId
    ensures r.Some? ==> r.value.userId == userId
    ensures r.Some? ==> exists i :: (0 <= i < |players| && players[i] == r.value &&
                                     forall j :: 0 <= j < i ==> players[j].userId != userId)
  {
    match FirstIndex(players, userId)
    case None => None
    case Some(i) => Some(players[i])
  }

  /** `getPlayerById`: looks the userId up in a freshly built roster of the room. */
  function PlayerById(roomId: string, userId: int): (r: Option<Player>)
    ensures r.Some? <==> 1001 <= userId <= 1008
    ensures r.Some? ==> r.value.userId == userId && r.value.role == None
  {
    var players := PlayersForRoom(roomId);
    var r := FindByUserId(players, userId);
    assert 1001 <= userId <= 1008 ==> players[userId - 1001].userId == userId;
    r
  }

  /** Every player with the role at the same position; nothing else of the player changes. */
  function WithRoles(players: seq<Player>, roles: seq<Role>): (dealt: seq<Player>)
    requires |roles| == |players|
  {
    seq(|players|, i requires 0 <= i < |players| => players[i].(role := Some(roles[i])))
  }

  /** The roles a fully dealt roster holds, in roster order. */
  function HeldRoles(players: seq<Player>): (roles: seq<Role>)
    requires forall i :: 0 <= i < |players| ==> players[i].role.Some?
    ensures |roles| == |players|
  {
    seq(|players|, i requires 0 <= i < |players| => players[i].role.value)
  }

  /** The `forEach` that gives each player the shuffled role at its index. */
  method AssignRoles(players: seq<Player>, roles: seq<Role>) returns (dealt: seq<Player>)
    requires |roles| == |players|
    ensures dealt == WithRoles(players, roles)
  {
    dealt := players;
    var index := 0;
    while index < |players|
      invariant 0 <= index <= |players| && |dealt| == |players|
      invariant forall i :: 0 <= i < index ==> dealt[i] == players[i].(role := Some(roles[i]))
      invariant forall i :: index <= i < |players| ==> dealt[i] == players[i]
    {
      dealt := dealt[index := dealt[index].(role := Some(roles[index]))];
      index := index + 1;
    }
  }

  /**
   * Dealing a shuffled pool, one role per player: each player holds exactly one role and
   * keeps everything else, and the roles held are a permutation of the pool.
   */
  lemma DealtRolesArePool(players: seq<Player>, pool: seq<Role>, order: seq<nat>)
    requires |players| == |pool| && IsShuffle(order, |pool|)
    ensures forall i :: 0 <= i < |order| ==> order[i] < |pool|
    ensures |WithRoles(players, Permute(pool, order))| == |players|
    ensures forall i :: 0 <= i < |players| ==>
      WithRoles(players, Permute(pool, order))[i] == players[i].(role := Some(pool[order[i]]))
    ensures multiset(HeldRoles(WithRoles(players, Permute(pool, order)))) == multiset(pool)
  {
    ShufflePreservesMultiset(pool, order);
    var shuffled := Permute(pool, order);
    var dealt := WithRoles(players, shuffled);
    assert HeldRoles(dealt) == shuffled;
  }

  /** The userIds of a roster, in roster order. */
  function UserIds(players: seq<Player>): (ids: seq<int>)
    ensures |ids| == |players| && forall i :: 0 <= i < |players| ==> ids[i] == players[i].userId
  {
    seq(|players|, i requires 0 <= i < |players| => players[i].userId)
  }

  /** The game record `startGame` stores: round 1 by day, everyone alive, nobody dead. */
  function InitialGame(gameId: int, roomId: string, players: seq<Player>): (g: Game)
    ensures g.id == gameId && g.roomId == roomId && g.round == 1
    ensures !g.isNight && !g.isVote && g.targetIds == [] && g.deadIds == []
    ensures g.aliveIds == g.playersId && |g.playersId| == |players|
    ensures forall i :: 0 <= i < |players| ==> g.playersId[i] == players[i].userId
    ensures g.mafiaActions == None && g.doctorAction == None && g.policeAction == None
    ensures g.voteRecords == None
  {
    Game(gameId, roomId, 1, UserIds(players), false, [], UserIds(players), [], false,
         None, None, None, None)
  }

  /** `Object.values(mafiaActions)[0]`: the target submitted under the smallest mafia userId. */
  function MafiaTarget(mafiaActions: Option<map<ArrayIndex, int>>): (target: Option<int>)
    ensures target.None? <==> mafiaActions.None? || mafiaActions.value.Keys == {}
    ensures target.Some? ==> exists k :: (k in mafiaActions.value && target.value == mafiaActions.value[k] &&
                                          forall j :: j in mafiaActions.value ==> k <= j)
  {
    var targets := if mafiaActions.Some? then Values(mafiaActions.value) else [];
    if |targets| > 0 then Some(targets[0]) else None
  }

  /** `ids.filter((id) => id !== x)`: every occurrence of x removed, order kept. */
  function Without(ids: seq<int>, x: int): (r: seq<int>)
    ensures x !in r
    ensures forall y :: y != x ==> multiset(r)[y] == multiset(ids)[y]
    ensures |r| + multiset(ids)[x] == |ids|
  {
    if |ids| == 0 then []
    else
      assert ids == [ids[0]] + ids[1..];
      if ids[0] == x then Without(ids[1..], x) else [ids[0]] + Without(ids[1..], x)
  }

  /** Filtering a concatenation filters each part in turn: the survivors keep their order. */
  lemma {:induction false} WithoutAppend(a: seq<int>, b: seq<int>, x: int)
    ensures Without(a + b, x) == Without(a, x) + Without(b, x)
  {
    if |a| > 0 {
      assert (a + b)[0] == a[0];
      assert (a + b)[1..] == a[1..] + b;
      WithoutAppend(a[1..], b, x);
    } else {
      assert a + b == b;
    }
  }

  /** JavaScript truthiness of an optional number: absent and 0 are falsy. */
  predicate Truthy(n: Option<int>) {
    n.Some? && n.value != 0
  }

  /** The game record and results `processNightActions` produces from the stored game. */
  function ResolveNight(roomId: string, game: Game, actions: NightActions): (out: NightOutcome)
    // the submitted actions replace the stored ones, absent ones clearing them
    ensures out.game.mafiaActions == actions.mafiaActions
    ensures out.game.doctorAction == actions.doctorAction
    ensures out.game.policeAction == actions.policeAction
    // nothing but the actions and the alive/dead lists changes
    ensures out.game == game.(mafiaActions := actions.mafiaActions, doctorAction := actions.doctorAction,
      policeAction := actions.policeAction, aliveIds := out.game.aliveIds, deadIds := out.game.deadIds)
    // no target: no kill
    ensures MafiaTarget(actions.mafiaActions).None? ==>
      out.killResult == None && out.game.aliveIds == game.aliveIds && out.game.deadIds == game.deadIds
    // the doctor protected the target: no kill
    ensures MafiaTarget(actions.mafiaActions).Some? && actions.doctorAction == MafiaTarget(actions.mafiaActions) ==>
      out.killResult == Some(Protected) && out.game.aliveIds == game.aliveIds && out.game.deadIds == game.deadIds
    // otherwise the target leaves the living and joins the dead exactly once
    ensures MafiaTarget(actions.mafiaActions).Some? && actions.doctorAction != MafiaTarget(actions.mafiaActions) ==>
      var t := MafiaTarget(actions.mafiaActions).value;
      && out.killResult == Some(Killed(t))
      && out.game.aliveIds == Without(game.aliveIds, t)
      && out.game.deadIds == game.deadIds + [t]
    // the police inspection runs only for a truthy target found in the room's roster
    ensures out.policeResult.Some? <==> Truthy(actions.policeAction) && PlayerById(roomId, actions.policeAction.value).Some?
    ensures out.policeResult.Some? ==> out.policeResult.value.role == PlayerById(roomId, actions.policeAction.value).value.role
  {
    var stored := game.(mafiaActions := actions.mafiaActions, doctorAction := actions.doctorAction,
      policeAction := actions.policeAction);
    var target := MafiaTarget(stored.mafiaActions);
    var killResult :=
      if target.None? then None
      else if stored.doctorAction == target then Some(Protected)
      else Some(Killed(target.value));
    var after :=
      if killResult.Some? && killResult.value.Killed? then
        stored.(aliveIds := Without(stored.aliveIds, target.value), deadIds := stored.deadIds + [target.value])
      else stored;
    var player := if Truthy(stored.policeAction) then PlayerById(roomId, stored.policeAction.value) else None;
    var policeResult := if player.Some? then Some(Inspected(player.value.role)) else None;
    NightOutcome(killResult, policeResult, after)
  }

  /**
   * With the roster `getPlayerById` reads, the inspection never reveals a role: the
   * looked-up player is a fresh roster entry that was never dealt one.
   */
  lemma InspectionRevealsNoRole(roomId: string, game: Game, actions: NightActions)
    ensures var out := ResolveNight(roomId, game, actions);
      out.policeResult.Some? ==> out.policeResult.value.role == None
  {
  }

  /** The votes recorded so far; an absent list is empty. */
  function Votes(game: Game): seq<VoteRecord> {
    game.voteRecords.GetOr([])
  }

  /** `recordVote`'s update: exactly one ballot appended, nothing else changed. */
  function WithVote(game: Game, voterId: int, targetId: int): (g: Game)
    ensures g.voteRecords.Some?
    ensures |Votes(g)| == |Votes(game)| + 1
    ensures Votes(g)[..|Votes(game)|] == Votes(game)
    ensures Votes(g)[|Votes(game)|] == VoteRecord(voterId, targetId)
    ensures g == game.(voteRecords := g.voteRecords)
  {
    game.(voteRecords := Some(Votes(game) + [VoteRecord(voterId, targetId)]))
  }

  /** The service over the store; `store` is the part of the key space holding games. */
  class GameService {
    var store: map<string, Game>

    constructor(initial: map<string, Game>)
      ensures store == initial
    {
      store := initial;
    }

    /** `startGame` for the roster `getPlayersForRoom` returns; the roster check always passes. */
    method StartGame(roomId: string, order: seq<nat>, gameId: int) returns (r: Result<seq<Player>, GameError>)
      requires IsShuffle(order, |RolePool|)
      modifies this
      ensures r.Success? && |r.value| == 8
      ensures forall i :: 0 <= i < |order| ==> order[i] < |RolePool|
      ensures r.value == WithRoles(PlayersForRoom(roomId), Permute(RolePool, order))
      ensures forall i :: 0 <= i < 8 ==>
        r.value[i].role.Some? && r.value[i] == PlayersForRoom(roomId)[i].(role := r.value[i].role)
      ensures forall i :: 0 <= i < 8 ==> r.value[i].userId == 1001 + i && r.value[i].isAlive && r.value[i].roomId == roomId
      ensures multiset(HeldRoles(r.value)) == multiset(RolePool)
      ensures store == old(store)[GameKey(roomId) := InitialGame(gameId, roomId, r.value)]
    {
      var players := PlayersForRoom(roomId);
      r := StartGameWith(roomId, players, order, gameId);
    }

    /**
     * `startGame` after the roster is fetched: rejects a roster that is not 8 long before
     * anything is dealt or stored; otherwise deals the shuffled pool and stores the game.
     */
    method StartGameWith(roomId: string, players: seq<Player>, order: seq<nat>, gameId: int)
      returns (r: Result<seq<Player>, GameError>)
      requires IsShuffle(order, |RolePool|)
      modifies this
      ensures |players| != 8 ==> r == Failure(NotEnoughPlayers) && store == old(store)
      ensures |players| == 8 ==> r.Success? && |r.value| == 8
      ensures |players| == 8 ==> forall i :: 0 <= i < |order| ==> order[i] < |RolePool|
      ensures |players| == 8 ==> r.value == WithRoles(players, Permute(RolePool, order))
      ensures |players| == 8 ==> multiset(HeldRoles(r.value)) == multiset(RolePool)
      ensures |players| == 8 ==> store == old(store)[GameKey(roomId) := InitialGame(gameId, roomId, r.value)]
    {
      if |players| != 8 {
        r := Failure(NotEnoughPlayers);
        return;
      }
      DealtRolesArePool(players, RolePool, order);
      var shuffledRoles := Permute(RolePool, order);
      var dealt := AssignRoles(players, shuffledRoles);
      var playersId := UserIds(dealt);
      var game := Game(gameId, roomId, 1, playersId, false, [], playersId, [], false,
                       None, None, None, None);
      assert game == InitialGame(gameId, roomId, dealt);
      store := store[GameKey(roomId) := game];
      r := Success(dealt);
    }

    /** `processNightActions`: resolves the night against the stored game and stores the result. */
    method ProcessNightActions(roomId: string, actions: NightActions) returns (r: Result<NightOutcome, GameError>)
      modifies this
      ensures GameKey(roomId) !in old(store) ==> r == Failure(GameNotFound) && store == old(store)
      ensures GameKey(roomId) in old(store) ==>
        && r == Success(ResolveNight(roomId, old(store)[GameKey(roomId)], actions))
        && store == old(store)[GameKey(roomId) := r.value.game]
    {
      var key := GameKey(roomId);
      if key !in store {
        r := Failure(GameNotFound);
        return;
      }
      var game := store[key];
      game := game.(mafiaActions := actions.mafiaActions);
      game := game.(doctorAction := actions.doctorAction);
      game := game.(policeAction := actions.policeAction);
      var killResult: Option<KillResult> := None;
      var target := MafiaTarget(game.mafiaActions);
      if target.Some? {
        if game.doctorAction == target {
          killResult := Some(Protected);
        } else {
          game := game.(aliveIds := Without(game.aliveIds, target.value));
          game := game.(deadIds := game.deadIds + [target.value]);
          killResult := Some(Killed(target.value));
        }
      }
      var policeResult: Option<PoliceResult> := None;
      if Truthy(game.policeAction) {
        var player := PlayerById(roomId, game.policeAction.value);
        if player.Some? {
          policeResult := Some(Inspected(player.value.role));
        }
      }
      store := store[key := game];
      r := Success(NightOutcome(killResult, policeResult, game));
    }

    /** `recordVote`: appends one ballot to the stored game's vote records. */
    method RecordVote(roomId: string, voterId: int, targetId: int) returns (r: Outcome<GameError>)
      modifies this
      ensures GameKey(roomId) !in old(store) ==> r == Fail(GameNotFound) && store == old(store)
      ensures GameKey(roomId) in old(store) ==>
        r == Pass && store == old(store)[GameKey(roomId) := WithVote(old(store)[GameKey(roomId)], voterId, targetId)]
    {
      var key := GameKey(roomId);
      if key !in store {
        r := Fail(GameNotFound);
        return;
      }
      var game := store[key];
      if game.voteRecords.None? {
        game := game.(voteRecords := Some([]));
      }
      game := game.(voteRecords := Some(game.voteRecords.value + [VoteRecord(voterId, targetId)]));
      store := store[key := game];
      r := Pass;
    }
  }
}
