// Shared vocabulary of the wurwolves backend: the enumerations the role
// files, the game and the resolver agree on, the database records they read
// and write, and the error outcomes an operation can end in.

module Types {

  /** Stages a game moves through. */
  datatype GameStage = LOBBY | NIGHT | DAY | VOTING | ENDED

  /** Every role the distribution module knows how to hand out. */
  datatype PlayerRole =
    | SPECTATOR | VILLAGER | WOLF | SEER | MEDIC | JESTER | VIGILANTE | MAYOR
    | MILLER | ACOLYTE | PRIEST | PROSTITUTE | MASON | EXORCIST | FOOL | NARRATOR

  datatype PlayerState = ALIVE | WOLFED | LYNCHED | SHOT | SPECTATING

  /** The states a killed player can be in. */
  predicate IsDead(s: PlayerState)
  {
    s in {WOLFED, LYNCHED, SHOT}
  }

  /** Teams of role descriptions; NARRATOR is the narrator role's own team. */
  datatype Team = VILLAGERS | WOLVES | SPECTATORS | JESTER_TEAM | NARRATOR_TEAM

  datatype Option<T> = None | Some(value: T)

  /** The ways an operation of the backend can fail. */
  datatype Error =
    | Http(code: int, detail: string)
    | TypeError
    | ValueError
    | KeyError
    | AttributeError
    | RuntimeError
    | AssertionError

  datatype Result<T> = Ok(value: T) | Err(error: Error)

  /** A user account, shared by every game the user joins. */
  datatype User = User(id: nat, name: string, nameIsGenerated: bool)

  /**
   * A player row: one user's seat in one game. `previousRole` is nullable
   * in the database, hence the Option.
   */
  datatype Player = Player(
    id: nat,
    userId: nat,
    role: PlayerRole,
    state: PlayerState,
    previousRole: Option<PlayerRole>,
    active: bool,
    lastSeen: int,
    votes: int)

  /**
   * An action row: a player's choice in one numbered stage. `stage` and
   * `selectedPlayerId` are nullable columns.
   */
  datatype Action = Action(
    id: nat,
    playerId: nat,
    selectedPlayerId: Option<int>,
    stage: Option<GameStage>,
    stageId: int,
    expired: bool)

  /** A chat message; an empty `visibleTo` means everybody can read it. */
  datatype Message = Message(text: string, isStrong: bool, visibleTo: seq<nat>, expired: bool)

  /** The strings that the role enumeration's members carry as values. */
  function RoleValue(r: PlayerRole): string
  {
    match r
    case SPECTATOR => "SPECTATOR"
    case VILLAGER => "VILLAGER"
    case WOLF => "WOLF"
    case SEER => "SEER"
    case MEDIC => "MEDIC"
    case JESTER => "JESTER"
    case VIGILANTE => "VIGILANTE"
    case MAYOR => "MAYOR"
    case MILLER => "MILLER"
    case ACOLYTE => "ACOLYTE"
    case PRIEST => "PRIEST"
    case PROSTITUTE => "PROSTITUTE"
    case MASON => "MASON"
    case EXORCIST => "EXORCIST"
    case FOOL => "FOOL"
    case NARRATOR => "NARRATOR"
  }

  /** Python truthiness of an optional integer id: None and 0 are false. */
  predicate Truthy(x: Option<int>)
  {
    x.Some? && x.value != 0
  }
}
