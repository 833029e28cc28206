// The per-user view of a game (`backend/frontend_parser.py`): the record a
// client's React state is replaced with. The role descriptions the parser
// looks up in the role registry are a parameter here.

module FrontendParser {
  import opened Types
  import opened Roles
  import opened GameState
  import Seqs
  import Masons

  /** What a role's card says and offers in one stage. */
  datatype StageAction = StageAction(text: string, buttonText: Option<string>, selectPerson: bool)

  /** A role's description: its title and the per-stage texts it defines. */
  datatype RoleDescription = RoleDescription(displayName: string, stages: map<GameStage, StageAction>)

  /** One entry of the player grid. */
  datatype PlayerView = PlayerView(id: nat, name: string, status: PlayerState)

  /** One chat line. */
  datatype ChatMsg = ChatMsg(msg: string, isStrong: bool)

  /** The controls: the role card and its action button. */
  datatype RoleState = RoleState(
    title: string,
    text: string,
    buttonVisible: bool,
    buttonEnabled: bool,
    buttonText: Option<string>,
    buttonConfirmText: Option<string>,
    buttonSubmitFunc: Option<string>,
    buttonSubmitPerson: Option<bool>)

  /** The whole view sent to one user. */
  datatype FrontendState = FrontendState(
    stateHash: int,
    players: seq<PlayerView>,
    chat: seq<ChatMsg>,
    stage: GameStage,
    controls: RoleState,
    myID: nat,
    myName: string,
    myNameIsGenerated: bool)

  /** Python truthiness of an optional string: present and non-empty. */
  predicate TextTruthy(s: Option<string>)
  {
    s.Some? && s.value != ""
  }

  // ---------------------------------------------------------------------
  // The controls record and its validator
  // ---------------------------------------------------------------------

  /** The `text_present` validator: a visible button must carry text. */
  function TextPresent(visible: bool, v: Option<string>): (r: Result<Option<string>>)
    ensures r.Err? <==> visible && !TextTruthy(v)
    ensures r.Err? ==> r.error == ValueError
    ensures r.Ok? ==> r.value == v
  {
    if visible && !TextTruthy(v) then Err(ValueError) else Ok(v)
  }

  /** Constructing a RoleState runs the validator on the button text. */
  function NewRoleState(title: string, text: string, visible: bool, enabled: bool, buttonText: Option<string>,
                        submitFunc: Option<string>, submitPerson: Option<bool>): (r: Result<RoleState>)
    ensures r.Err? <==> visible && !TextTruthy(buttonText)
    ensures r.Ok? ==> r.value.buttonVisible == visible && r.value.buttonEnabled == enabled && r.value.buttonText == buttonText
  {
    match TextPresent(visible, buttonText)
    case Err(e) => Err(e)
    case Ok(t) => Ok(RoleState(title, text, visible, enabled, t, None, submitFunc, submitPerson))
  }

  /**
   * The controls of one player in one stage: the button shows when the
   * stage's button text is truthy, and is enabled when it shows and the
   * player has no unexpired action. The validator therefore never fires.
   */
  function Controls(desc: RoleDescription, st: StageAction, acts: seq<Action>, role: PlayerRole): (r: Result<RoleState>)
    ensures r.Ok?
    ensures r.value.buttonVisible <==> TextTruthy(st.buttonText)
    ensures r.value.buttonEnabled <==> TextTruthy(st.buttonText) && acts == []
    ensures r.value.buttonEnabled ==> r.value.buttonVisible
    ensures r.value.buttonText == st.buttonText && r.value.title == desc.displayName && r.value.text == st.text
    ensures r.value.buttonSubmitPerson == Some(st.selectPerson)
    ensures r.value.buttonSubmitFunc == Some(ActionFuncName(role))
  {
    var visible := TextTruthy(st.buttonText);
    NewRoleState(desc.displayName, st.text, visible, visible && acts == [], st.buttonText,
                 Some(ActionFuncName(role)), Some(st.selectPerson))
  }

  // ---------------------------------------------------------------------
  // Players and chat
  // ---------------------------------------------------------------------

  /** One grid entry per player, in order, named after the player's user. */
  function PlayersOf(ps: seq<Player>, users: map<nat, User>): (r: seq<PlayerView>)
    requires Masons.UsersKnown(ps, users)
    ensures |r| == |ps|
    ensures forall i :: 0 <= i < |ps| ==> r[i] == PlayerView(ps[i].userId, users[ps[i].userId].name, ps[i].state)
  {
    seq(|ps|, i requires 0 <= i < |ps| => PlayerView(ps[i].userId, users[ps[i].userId].name, ps[i].state))
  }

  /** Distinct players give distinct grid entries: each entry names one seat. */
  lemma PlayerViewsDistinct(ps: seq<Player>, users: map<nat, User>)
    requires Masons.UsersKnown(ps, users)
    requires IdsDistinct(ps)
    ensures forall i, j :: 0 <= i < j < |ps| ==> PlayersOf(ps, users)[i].id != PlayersOf(ps, users)[j].id
  {
  }

  /** A message is shown to a player when it is public or addressed to them. */
  predicate Shown(m: Message, pid: nat)
  {
    |m.visibleTo| == 0 || pid in m.visibleTo
  }

  /** The chat shown to player `pid`: the shown messages, in order. */
  function ChatOf(msgs: seq<Message>, pid: nat): (r: seq<ChatMsg>)
    ensures |r| <= |msgs|
    ensures forall m :: m in msgs && Shown(m, pid) ==> ChatMsg(m.text, m.isStrong) in r
    ensures forall c :: c in r ==> exists m :: m in msgs && Shown(m, pid) && c == ChatMsg(m.text, m.isStrong)
  {
    if |msgs| == 0 then []
    else
      var rest := ChatOf(msgs[1..], pid);
      assert forall m :: m in msgs ==> m == msgs[0] || m in msgs[1..];
      if Shown(msgs[0], pid) then [ChatMsg(msgs[0].text, msgs[0].isStrong)] + rest else rest
  }

  /** A message added later appears after everything already shown, if at all. */
  lemma {:induction false} ChatAppend(msgs: seq<Message>, m: Message, pid: nat)
    ensures ChatOf(msgs + [m], pid) == ChatOf(msgs, pid) + (if Shown(m, pid) then [ChatMsg(m.text, m.isStrong)] else [])
  {
    if |msgs| == 0 {
      assert msgs + [m] == [m];
    } else {
      assert (msgs + [m])[1..] == msgs[1..] + [m];
      ChatAppend(msgs[1..], m, pid);
    }
  }

  /** When every message is public, all players see the same chat, all of it. */
  lemma {:induction false} PublicChatIsShared(msgs: seq<Message>, p: nat, q: nat)
    requires forall i :: 0 <= i < |msgs| ==> |msgs[i].visibleTo| == 0
    ensures ChatOf(msgs, p) == ChatOf(msgs, q)
    ensures |ChatOf(msgs, p)| == |msgs|
  {
    if |msgs| > 0 {
      PublicChatIsShared(msgs[1..], p, q);
    }
  }

  // ---------------------------------------------------------------------
  // parse_game_to_state
  // ---------------------------------------------------------------------

  /** The unexpired actions of a player, over every stage (`get_actions_model(player_id=...)`). */
  function PlayerActions(acts: seq<Action>, pid: nat): seq<Action>
  {
    ActionsFilter(acts, None, Some(pid), None, false)
  }

  /** The rows of one game that the parser reads. */
  datatype GameRow = GameRow(
    created: bool,
    stage: GameStage,
    updateTag: int,
    players: seq<Player>,
    users: map<nat, User>,
    actions: seq<Action>,
    messages: seq<Message>)

  function RowOf(g: Game): GameRow
    reads g
  {
    GameRow(g.created, g.stage, g.updateTag, g.players, g.users, g.actions, g.messages)
  }

  /**
   * `parse_game_to_state` as written: `player.id` is read before the check
   * for a missing player, and `get_action_func_name` is called with two
   * arguments although it takes one, so once the role card is looked up
   * the call raises TypeError.
   */
  function ParseAsWritten(row: GameRow, uid: nat, descs: map<PlayerRole, RoleDescription>): (r: Result<Option<FrontendState>>)
    ensures r.Ok? ==> r.value.None?
    ensures PlayerIndexByUser(row.players, uid, true).None? <==> r == Err(AttributeError)
  {
    match PlayerIndexByUser(row.players, uid, true)
    case None => Err(AttributeError)
    case Some(k) =>
      if !row.created then Ok(None)
      else
        var p := row.players[k];
        if p.role !in descs || row.stage !in descs[p.role].stages then Err(KeyError)
        else Err(TypeError)
  }

  /**
   * `parse_game_to_state` with the missing player handled before it is
   * read and the submit function named after the player's role: None for
   * a missing game or player, KeyError when the role has no card for the
   * stage, and otherwise the view.
   */
  function ParseGameToState(row: GameRow, uid: nat, descs: map<PlayerRole, RoleDescription>): (r: Result<Option<FrontendState>>)
    requires Masons.UsersKnown(row.players, row.users)
    ensures r == Ok(None) <==> !row.created || PlayerIndexByUser(row.players, uid, true).None?
    ensures r.Err? ==> r.error == KeyError
    ensures r.Ok? && r.value.Some? ==>
      var s := r.value.value;
      var k := PlayerIndexByUser(row.players, uid, true).value;
      var p := row.players[k];
      && row.created && p.userId == uid && Visible(p)
      && p.role in descs && row.stage in descs[p.role].stages
      && s.myID == uid && s.myName == row.users[uid].name && s.myNameIsGenerated == row.users[uid].nameIsGenerated
      && s.stateHash == row.updateTag && s.stage == row.stage
      && s.players == PlayersOf(row.players, row.users)
      && (s.controls.buttonVisible <==> TextTruthy(descs[p.role].stages[row.stage].buttonText))
      && (s.controls.buttonEnabled <==> s.controls.buttonVisible && PlayerActions(row.actions, p.id) == [])
      && s.controls.buttonSubmitFunc == Some(ActionFuncName(p.role))
      && (forall m :: m in row.messages && Shown(m, p.id) ==> ChatMsg(m.text, m.isStrong) in s.chat)
      && (forall c :: c in s.chat ==> exists m :: m in row.messages && Shown(m, p.id) && c == ChatMsg(m.text, m.isStrong))
  {
    if !row.created then Ok(None)
    else
      match PlayerIndexByUser(row.players, uid, true)
      case None => Ok(None)
      case Some(k) =>
        var p := row.players[k];
        if p.role !in descs || row.stage !in descs[p.role].stages then Err(KeyError)
        else
          var desc := descs[p.role];
          match Controls(desc, desc.stages[row.stage], PlayerActions(row.actions, p.id), p.role)
          case Err(e) => Err(e)
          case Ok(controls) =>
            Ok(Some(FrontendState(row.updateTag, PlayersOf(row.players, row.users), ChatOf(row.messages, p.id), row.stage,
                                  controls, uid, row.users[p.userId].name, row.users[p.userId].nameIsGenerated)))
  }

  /** A player with an unexpired action on record sees the button greyed out. */
  lemma ActingDisablesButton(row: GameRow, uid: nat, descs: map<PlayerRole, RoleDescription>, k: nat, a: Action)
    requires Masons.UsersKnown(row.players, row.users) && row.created
    requires PlayerIndexByUser(row.players, uid, true) == Some(k)
    requires a in row.actions && !a.expired && a.playerId == row.players[k].id
    requires ParseGameToState(row, uid, descs).Ok? && ParseGameToState(row, uid, descs).value.Some?
    ensures !ParseGameToState(row, uid, descs).value.value.controls.buttonEnabled
  {
    assert a in PlayerActions(row.actions, row.players[k].id);
  }

  /** A seated villager whose card covers the day stage. */
  const Viewer := Player(1, 7, VILLAGER, ALIVE, None, true, 0, 0)
  const DayCard := map[VILLAGER := RoleDescription("Villager", map[DAY := StageAction("Try not to get eaten", None, true)])]
  const OneSeat := GameRow(true, DAY, 3, [Viewer], map[7 := User(7, "Ann", false)], [], [])

  /** As written the seated villager's view raises TypeError; corrected, it is built. */
  lemma ViewerGetsTypeError()
    ensures ParseAsWritten(OneSeat, 7, DayCard) == Err(TypeError)
    ensures ParseGameToState(OneSeat, 7, DayCard).Ok? && ParseGameToState(OneSeat, 7, DayCard).value.Some?
  {
    assert PlayerIndexByUser(OneSeat.players, 7, true) == Some(0);
  }

  /** As written a user without a seat raises AttributeError; corrected, the view is None. */
  lemma StrangerGetsAttributeError()
    ensures ParseAsWritten(OneSeat, 8, DayCard) == Err(AttributeError)
    ensures ParseGameToState(OneSeat, 8, DayCard) == Ok(None)
  {
  }
}
