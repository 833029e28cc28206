// The client's selectors (`react-ui/src/features/selectors.js`): reads of
// the store, whose `backend` part is the last view the server sent and
// whose `selectedPlayer` is the client's own choice.

module Selectors {
  import opened Types
  import opened GameState
  import Seqs
  import Masons
  import opened FrontendParser

  /** The store: the server's view, plus the player the user has picked on screen. */
  datatype ClientState = ClientState(backend: FrontendState, selectedPlayer: Option<nat>)

  function SelectMessages(s: ClientState): seq<ChatMsg> { s.backend.chat }
  function SelectStage(s: ClientState): GameStage { s.backend.stage }
  function SelectMyID(s: ClientState): nat { s.backend.myID }
  function SelectMyName(s: ClientState): string { s.backend.myName }
  function SelectMyNameIsGenerated(s: ClientState): bool { s.backend.myNameIsGenerated }
  function SelectAllPlayers(s: ClientState): seq<PlayerView> { s.backend.players }
  function SelectControls(s: ClientState): RoleState { s.backend.controls }
  function SelectStateHash(s: ClientState): int { s.backend.stateHash }
  function SelectSelectedPlayer(s: ClientState): Option<nat> { s.selectedPlayer }

  /** The selectors of server data ignore the on-screen choice, and the choice ignores the server data. */
  lemma SelectorsSeparateSources(a: ClientState, b: ClientState)
    ensures a.backend == b.backend ==>
      SelectMessages(a) == SelectMessages(b) && SelectStage(a) == SelectStage(b) && SelectMyID(a) == SelectMyID(b)
      && SelectMyName(a) == SelectMyName(b) && SelectMyNameIsGenerated(a) == SelectMyNameIsGenerated(b)
      && SelectAllPlayers(a) == SelectAllPlayers(b) && SelectControls(a) == SelectControls(b)
      && SelectStateHash(a) == SelectStateHash(b)
    ensures a.selectedPlayer == b.selectedPlayer ==> SelectSelectedPlayer(a) == SelectSelectedPlayer(b)
  {
  }

  /** `getPlayerById`: the first entry with an equal id, or undefined. */
  function GetPlayerById(players: seq<PlayerView>, id: nat): (r: Option<PlayerView>)
    ensures r.Some? <==> exists i :: 0 <= i < |players| && players[i].id == id
    ensures r.Some? ==> r.value in players && r.value.id == id
  {
    Seqs.Find((p: PlayerView) => p.id == id, players)
  }

  /** `selectPlayerName(id)`: reading `.name` of undefined throws a TypeError. */
  function SelectPlayerName(s: ClientState, id: nat): (r: Result<string>)
    ensures r.Err? <==> GetPlayerById(s.backend.players, id).None?
    ensures r.Err? ==> r.error == TypeError
    ensures r.Ok? ==> exists p :: p in s.backend.players && p.id == id && p.name == r.value
  {
    match GetPlayerById(s.backend.players, id)
    case None => Err(TypeError)
    case Some(p) => Ok(p.name)
  }

  /** `selectPlayerStatus(id)`, likewise. */
  function SelectPlayerStatus(s: ClientState, id: nat): (r: Result<PlayerState>)
    ensures r.Err? <==> GetPlayerById(s.backend.players, id).None?
    ensures r.Err? ==> r.error == TypeError
    ensures r.Ok? ==> exists p :: p in s.backend.players && p.id == id && p.status == r.value
  {
    match GetPlayerById(s.backend.players, id)
    case None => Err(TypeError)
    case Some(p) => Ok(p.status)
  }

  /**
   * On a view the server built, every seated user's grid entry shows
   * that user's name and the player's state.
   */
  lemma SeatedPlayersReadBack(row: GameRow, uid: nat, descs: map<PlayerRole, RoleDescription>, sel: Option<nat>, k: nat)
    requires Masons.UsersKnown(row.players, row.users) && IdsDistinct(row.players)
    requires ParseGameToState(row, uid, descs).Ok? && ParseGameToState(row, uid, descs).value.Some?
    requires k < |row.players|
    ensures var s := ClientState(ParseGameToState(row, uid, descs).value.value, sel);
            var u := row.players[k].userId;
            SelectPlayerName(s, u) == Ok(row.users[u].name) && SelectPlayerStatus(s, u) == Ok(row.players[k].state)
  {
    var v := ParseGameToState(row, uid, descs).value.value;
    var u := row.players[k].userId;
    var views := PlayersOf(row.players, row.users);
    assert v.players == views;
    var i := Seqs.IndexWhere((p: PlayerView) => p.id == u, views);
    assert views[k].id == u;
    assert i.Some?;
    assert i.value == k;
  }
}
