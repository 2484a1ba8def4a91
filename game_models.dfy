/** The records the game service stores and returns (game.model.ts, player.model.ts). */
module GameModels {
  import opened Wrappers
  import opened JsObjects

  /** The four roles of the role pool. */
  datatype Role = Mafia | Citizen | Police | Doctor

  /** A seated player; `role` is absent until roles are dealt. */
  datatype Player = Player(
    id: int,
    userId: int,
    username: string,
    roomId: string,
    role: Option<Role>,
    isAlive: bool)

  /** One day-vote ballot. */
  datatype VoteRecord = VoteRecord(voterId: int, targetId: int)

  /**
   * The game record stored under `game:<roomId>`. Optional fields are absent
   * until set. `mafiaActions` maps a mafia player's userId to the userId they target.
   */
  datatype Game = Game(
    id: int,
    roomId: string,
    round: int,
    playersId: seq<int>,
    isNight: bool,
    targetIds: seq<int>,
    aliveIds: seq<int>,
    deadIds: seq<int>,
    isVote: bool,
    mafiaActions: Option<map<ArrayIndex, int>>,
    doctorAction: Option<int>,
    policeAction: Option<int>,
    voteRecords: Option<seq<VoteRecord>>)

  /** The night actions a client submits. */
  datatype NightActions = NightActions(
    mafiaActions: Option<map<ArrayIndex, int>>,
    doctorAction: Option<int>,
    policeAction: Option<int>)
}
