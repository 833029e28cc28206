// One game of the backend (backend/game.py) held in memory: the game row,
// its players, their users, the submitted actions and the chat log. The
// database queries of the original become filters over these sequences;
// the methods of the `Game` class are the operations that write rows.

module GameState {
  import opened Types
  import opened Roles
  import Text
  import Seqs
  import Masons
  import Distribution

  /** Seconds without a keep-alive after which a player counts as inactive. */
  const SpectatorTimeout: int := 40

  /** The longest display name a rename keeps. */
  const MaxNameLength: nat := 25

  /** The argument of `_set_stage`: a stage, or a value that is not one. */
  datatype StageArg = IsStage(stage: GameStage) | NotAStage

  // ---------------------------------------------------------------------
  // Queries
  // ---------------------------------------------------------------------

  /**
   * `_filter_by_activity`: shown are the active players and everyone who
   * has or had a role. A missing previous role is SQL NULL, which fails
   * the `!=` test.
   */
  predicate Visible(p: Player)
  {
    p.active || p.role != SPECTATOR || (p.previousRole.Some? && p.previousRole.value != SPECTATOR)
  }

  /** `get_players()` with the default activity filter. */
  function VisiblePlayers(ps: seq<Player>): seq<Player>
  {
    Seqs.Filter(Visible, ps)
  }

  /** `get_player(user_id, filter_by_activity)`: where the first matching row sits. */
  function PlayerIndexByUser(ps: seq<Player>, uid: nat, filterByActivity: bool): Option<nat>
  {
    Seqs.IndexWhere((p: Player) => p.userId == uid && (!filterByActivity || Visible(p)), ps)
  }

  /** `get_player_by_id(player_id)` with the default activity filter. */
  function PlayerIndexById(ps: seq<Player>, pid: int): Option<nat>
  {
    Seqs.IndexWhere((p: Player) => p.id == pid && Visible(p), ps)
  }

  /**
   * The row filter of `get_actions`: the stage-id and player-id filters
   * apply only when their argument is truthy, the stage filter when one
   * is given, and expired rows are dropped unless asked for.
   */
  predicate ActionMatches(a: Action, stageId: Option<int>, playerId: Option<int>, stage: Option<GameStage>, includeExpired: bool)
  {
    && (!Truthy(stageId) || a.stageId == stageId.value)
    && (!Truthy(playerId) || a.playerId == playerId.value)
    && (stage.None? || a.stage == stage)
    && (includeExpired || !a.expired)
  }

  function ActionsFilter(acts: seq<Action>, stageId: Option<int>, playerId: Option<int>, stage: Option<GameStage>, includeExpired: bool): seq<Action>
  {
    Seqs.Filter((a: Action) => ActionMatches(a, stageId, playerId, stage, includeExpired), acts)
  }

  /** `is_role_present`: some player of the game, shown or not, matches. */
  predicate IsRolePresent(ps: seq<Player>, role: Option<PlayerRole>, state: Option<PlayerState>)
  {
    exists i :: 0 <= i < |ps| && (role.None? || ps[i].role == role.value) && (state.None? || ps[i].state == state.value)
  }

  // ---------------------------------------------------------------------
  // Availability rules of the action classes
  // ---------------------------------------------------------------------

  /**
   * `OncePerGame.is_action_available`: the player has no unexpired action
   * stored for a night. The stage and stage id it is asked about play no
   * part.
   */
  predicate OncePerGameAvailable(acts: seq<Action>, playerId: int)
  {
    ActionsFilter(acts, None, Some(playerId), Some(NIGHT), false) == []
  }

  lemma OncePerGameSpec(acts: seq<Action>, playerId: int)
    ensures OncePerGameAvailable(acts, playerId) <==>
      forall i :: 0 <= i < |acts| ==>
        !(!acts[i].expired && acts[i].stage == Some(NIGHT) && (playerId == 0 || acts[i].playerId == playerId))
  {
    var f := (a: Action) => ActionMatches(a, None, Some(playerId), Some(NIGHT), false);
    if !OncePerGameAvailable(acts, playerId) {
      var r := ActionsFilter(acts, None, Some(playerId), Some(NIGHT), false);
      assert r[0] in r;
    } else {
      forall i | 0 <= i < |acts|
        ensures !(!acts[i].expired && acts[i].stage == Some(NIGHT) && (playerId == 0 || acts[i].playerId == playerId))
      {
        assert acts[i] in acts;
      }
    }
  }

  /** Once every stored action is expired, a once-per-game action is free again. */
  lemma OncePerGameAfterExpiry(acts: seq<Action>, playerId: int)
    requires forall i :: 0 <= i < |acts| ==> acts[i].expired
    ensures OncePerGameAvailable(acts, playerId)
  {
    OncePerGameSpec(acts, playerId);
  }

  /**
   * `CancelledByMayor.is_action_available`: no living mayor, and the next
   * class's own rule when the class inherits one (`parent`).
   */
  predicate CancelledByMayorAvailable(ps: seq<Player>, parent: Option<bool>)
  {
    !IsRolePresent(ps, Some(MAYOR), Some(ALIVE)) && (parent.None? || parent.value)
  }

  lemma CancelledByMayorSpec(ps: seq<Player>, parent: Option<bool>)
    ensures CancelledByMayorAvailable(ps, parent) <==>
      (forall i :: 0 <= i < |ps| ==> !(ps[i].role == MAYOR && ps[i].state == ALIVE))
      && (parent == Some(false) ==> false)
  {
  }

  /** `CancelledByNarrator.is_action_available`: no narrator at all, whatever their state. */
  predicate CancelledByNarratorAvailable(ps: seq<Player>)
  {
    !IsRolePresent(ps, Some(NARRATOR), None)
  }

  lemma CancelledByNarratorSpec(ps: seq<Player>)
    ensures CancelledByNarratorAvailable(ps) <==> forall i :: 0 <= i < |ps| ==> ps[i].role != NARRATOR
  {
  }

  /** The `is_action_available` an action class inherits. */
  predicate IsActionAvailable(k: ActionKind, ps: seq<Player>, acts: seq<Action>, playerId: int)
  {
    match AvailabilityOf(k)
    case OncePerGame => OncePerGameAvailable(acts, playerId)
    case AlwaysAvailable => true
  }

  // ---------------------------------------------------------------------
  // player_has_action
  // ---------------------------------------------------------------------

  /** The role of the player with id `pid`, if there is one. */
  function RoleOfPlayer(ps: seq<Player>, pid: int): Option<PlayerRole>
  {
    match Seqs.Find((p: Player) => p.id == pid, ps)
    case Some(p) => Some(p.role)
    case None => None
  }

  /** Some action of this stage id was stored by a player on `team`. */
  predicate TeamActed(ps: seq<Player>, acts: seq<Action>, team: Team, stageId: int)
  {
    exists i :: 0 <= i < |acts| && acts[i].stageId == stageId
      && RoleOfPlayer(ps, acts[i].playerId).Some?
      && RoleTeam(RoleOfPlayer(ps, acts[i].playerId).value) == team
  }

  /** The player already stored an action (expired or not) with this stage id. */
  predicate ActedInStage(acts: seq<Action>, pid: nat, stageId: int)
  {
    exists i :: 0 <= i < |acts| && acts[i].playerId == pid && acts[i].stageId == stageId
  }

  /**
   * `player_has_action`: whether the player's role acts in this stage
   * (`has`), and whether the player may still act (`enabled`). `ps` are
   * all players of the game and `acts` all its actions.
   */
  function PlayerHasAction(ps: seq<Player>, acts: seq<Action>, p: Player, stage: GameStage, stageId: int): (r: (bool, bool))
    ensures RoleAction(p.role, stage).None? ==> r == (false, false)
    ensures r.1 ==> r.0
    ensures r.0 <==> (RoleAction(p.role, stage).Some?
      && AllowsState(RoleAction(p.role, stage).value, p.state)
      && IsActionAvailable(RoleAction(p.role, stage).value, ps, acts, p.id))
    ensures r.0 ==> (r.1 <==> !ActedInStage(acts, p.id, stageId))
  {
    match RoleAction(p.role, stage)
    case None => (false, false)
    case Some(k) =>
      var has := AllowsState(k, p.state) && IsActionAvailable(k, ps, acts, p.id);
      var enabled :=
        if !has then false
        else if ActivePlayersOnly(k) && !p.active then false
        else if RoundEnd(k) == MULTIPLE_OPTIONAL then true
        else if TeamActionOf(k) == ONCE_PER_TEAM then !TeamActed(ps, acts, RoleTeam(p.role), stageId)
        else !ActedInStage(acts, p.id, stageId);
      (has, enabled)
  }

  /**
   * No action class is multiple-optional or once-per-team (the wolves'
   * `team_action` is the boolean True), so the last two branches of
   * `player_has_action` are never taken.
   */
  lemma UnusedBranches(k: ActionKind)
    ensures RoundEnd(k) != MULTIPLE_OPTIONAL
    ensures TeamActionOf(k) != ONCE_PER_TEAM
    ensures !ActivePlayersOnly(k)
  {
  }

  /** Storing an action for this stage id disables the player's action. */
  lemma ActingDisables(ps: seq<Player>, acts: seq<Action>, p: Player, stage: GameStage, a: Action)
    requires a.playerId == p.id
    ensures !PlayerHasAction(ps, acts + [a], p, stage, a.stageId).1
  {
    assert (acts + [a])[|acts|] == a;
  }

  // ---------------------------------------------------------------------
  // Row updates, as functions of the old rows
  // ---------------------------------------------------------------------

  /**
   * `kill_player` on one row: the new state always; a player with a role
   * becomes a spectator who remembers that role.
   */
  function Killed(p: Player, st: PlayerState): Player
  {
    if p.role != SPECTATOR then p.(state := st, previousRole := Some(p.role), role := SPECTATOR)
    else p.(state := st)
  }

  /**
   * A second kill keeps the role remembered by the first, takes the last
   * state, and leaves a shown player shown.
   */
  lemma KilledTwice(p: Player, s1: PlayerState, s2: PlayerState)
    ensures Killed(Killed(p, s1), s2).previousRole == Killed(p, s1).previousRole
    ensures Killed(Killed(p, s1), s2).state == s2
    ensures Killed(Killed(p, s1), s2).role == SPECTATOR
    ensures p.role != SPECTATOR ==> Killed(Killed(p, s1), s2).previousRole == Some(p.role)
  {
  }

  lemma KilledStaysVisible(p: Player, st: PlayerState)
    ensures Visible(p) ==> Visible(Killed(p, st))
    ensures Killed(p, st).id == p.id && Killed(p, st).userId == p.userId
  {
  }

  /** `_wipe_all_roles` on one row. The `status` it writes is not a column, so the state stays. */
  function Wiped(p: Player): Player
  {
    p.(role := SPECTATOR, previousRole := Some(SPECTATOR))
  }

  /** After a wipe only the active players are shown. */
  lemma WipedVisibility(p: Player)
    ensures Visible(Wiped(p)) <==> p.active
  {
  }

  /** The keep-alive flip of one row against `threshold`. */
  function Flipped(p: Player, threshold: int): Player
  {
    if p.active && p.lastSeen <= threshold then p.(active := false)
    else if !p.active && p.lastSeen > threshold then p.(active := true)
    else p
  }

  /** After a flip a row is active exactly when it was seen after the threshold. */
  lemma FlippedSpec(p: Player, threshold: int)
    ensures Flipped(p, threshold).active <==> p.lastSeen > threshold
    ensures Flipped(p, threshold) != p <==> (p.active <==> p.lastSeen <= threshold)
    ensures Flipped(p, threshold) == p.(active := p.lastSeen > threshold)
  {
  }

  /** One past the largest player id in use; the id a new row gets. */
  function NextPlayerId(ps: seq<Player>): (n: nat)
    ensures forall i :: 0 <= i < |ps| ==> ps[i].id < n
    ensures n >= 1
  {
    if |ps| == 0 then 1
    else
      var rest := NextPlayerId(ps[1..]);
      assert forall i :: 1 <= i < |ps| ==> ps[i] == ps[1..][i - 1];
      if ps[0].id + 1 > rest then ps[0].id + 1 else rest
  }

  /** The row `join` creates: a spectator, active and just seen. */
  function NewPlayer(id: nat, uid: nat, now: int): Player
  {
    Player(id, uid, SPECTATOR, SPECTATING, None, true, now, 0)
  }

  /** The players after `join`. */
  function JoinPlayers(ps: seq<Player>, uid: nat, now: int): seq<Player>
  {
    match PlayerIndexByUser(ps, uid, false)
    case Some(k) => ps[k := ps[k].(active := true, lastSeen := now)]
    case None => ps + [NewPlayer(NextPlayerId(ps), uid, now)]
  }

  /** The users after `join`: a missing user is made with a generated name. */
  function JoinUsers(users: map<nat, User>, uid: nat, generatedName: string): map<nat, User>
  {
    if uid in users then users else users[uid := User(uid, generatedName, true)]
  }

  predicate HasPlayer(ps: seq<Player>, uid: nat)
  {
    exists i :: 0 <= i < |ps| && ps[i].userId == uid
  }

  /**
   * `join` adds a row only for a user without one; that row is a
   * spectator in the SPECTATING state; afterwards the user's row is active
   * and was seen now, and every other user's row is untouched.
   */
  lemma JoinSpec(ps: seq<Player>, uid: nat, now: int)
    ensures var r := JoinPlayers(ps, uid, now);
      && (HasPlayer(ps, uid) ==> |r| == |ps|)
      && (!HasPlayer(ps, uid) ==>
            |r| == |ps| + 1 && r[..|ps|] == ps && r[|ps|].role == SPECTATOR && r[|ps|].state == SPECTATING)
      && (forall i :: 0 <= i < |ps| && ps[i].userId != uid ==> r[i] == ps[i])
      && PlayerIndexByUser(r, uid, false).Some?
      && r[PlayerIndexByUser(r, uid, false).value].active
      && r[PlayerIndexByUser(r, uid, false).value].lastSeen == now
  {
    var r := JoinPlayers(ps, uid, now);
    match PlayerIndexByUser(ps, uid, false)
    case Some(k) =>
      assert PlayerIndexByUser(r, uid, false) == Some(k) by {
        assert r[k].userId == uid;
        assert forall j :: 0 <= j < k ==> r[j] == ps[j];
      }
    case None =>
      assert r[|ps|].userId == uid;
      assert PlayerIndexByUser(r, uid, false) == Some(|ps|) by {
        assert forall j :: 0 <= j < |ps| ==> r[j] == ps[j];
      }
  }

  /** Joining keeps ids and user ids distinct and every row's user known. */
  lemma JoinKeepsValid(ps: seq<Player>, users: map<nat, User>, uid: nat, generatedName: string, now: int)
    requires IdsDistinct(ps) && Masons.UsersKnown(ps, users)
    ensures IdsDistinct(JoinPlayers(ps, uid, now))
    ensures Masons.UsersKnown(JoinPlayers(ps, uid, now), JoinUsers(users, uid, generatedName))
  {
    var r := JoinPlayers(ps, uid, now);
    var us := JoinUsers(users, uid, generatedName);
    assert users.Keys <= us.Keys && uid in us;
    match PlayerIndexByUser(ps, uid, false)
    case Some(k) =>
      assert forall i :: 0 <= i < |r| ==> r[i].id == ps[i].id && r[i].userId == ps[i].userId;
    case None =>
      assert forall i :: 0 <= i < |ps| ==> r[i] == ps[i] && ps[i].userId != uid;
      assert r[|ps|].id == NextPlayerId(ps) && r[|ps|].userId == uid;
  }

  /** Joining twice at the same moment is joining once. */
  lemma JoinIdempotent(ps: seq<Player>, uid: nat, now: int)
    ensures JoinPlayers(JoinPlayers(ps, uid, now), uid, now) == JoinPlayers(ps, uid, now)
  {
    JoinSpec(ps, uid, now);
    var r := JoinPlayers(ps, uid, now);
    var k := PlayerIndexByUser(r, uid, false).value;
    assert r[k].(active := true, lastSeen := now) == r[k];
    assert r[k := r[k]] == r;
  }

  /** `set_user_name`'s stored name: the first 25 characters. */
  function Truncated(name: string): (r: string)
    ensures |r| <= MaxNameLength
    ensures r <= name
    ensures |name| <= MaxNameLength ==> r == name
  {
    if |name| > MaxNameLength then name[..MaxNameLength] else name
  }

  /**
   * The users after `set_user_name`: a missing user is made first; an
   * unchanged name (compared before truncation) leaves the record as it
   * is; otherwise the truncated name is stored and no longer counts as
   * generated.
   */
  function RenamedUsers(users: map<nat, User>, uid: nat, name: string, generatedName: string): (r: map<nat, User>)
    ensures uid in r && r.Keys == users.Keys + {uid}
    ensures forall u :: u in users && u != uid ==> r[u] == users[u]
  {
    var base := JoinUsers(users, uid, generatedName);
    if base[uid].name == name then base
    else base[uid := base[uid].(name := Truncated(name), nameIsGenerated := false)]
  }

  lemma RenameSpec(users: map<nat, User>, uid: nat, name: string, generatedName: string)
    requires uid in users
    ensures var r := RenamedUsers(users, uid, name, generatedName);
      && (users[uid].name == name ==> r == users)
      && (users[uid].name != name ==> r[uid].name == Truncated(name) && !r[uid].nameIsGenerated)
      && (|r[uid].name| <= MaxNameLength || r[uid].name == users[uid].name)
  {
  }

  /** Renaming to the name just stored changes nothing more, unless the name was cut. */
  lemma RenameTwice(users: map<nat, User>, uid: nat, name: string, g: string)
    requires |name| <= MaxNameLength
    ensures RenamedUsers(RenamedUsers(users, uid, name, g), uid, name, g) == RenamedUsers(users, uid, name, g)
  {
  }

  /** The positions of the shown rows, in order. */
  function VisibleIndices(ps: seq<Player>): (idx: seq<nat>)
    ensures forall k :: 0 <= k < |idx| ==> idx[k] < |ps| && Visible(ps[idx[k]])
    ensures forall k, l :: 0 <= k < l < |idx| ==> idx[k] < idx[l]
    ensures forall j :: 0 <= j < |ps| && Visible(ps[j]) ==> j in idx
  {
    if |ps| == 0 then []
    else
      var rest := VisibleIndices(ps[..|ps| - 1]);
      if Visible(ps[|ps| - 1]) then rest + [|ps| - 1] else rest
  }

  /** The new player's role message of `start_game`. */
  function RevealOthersText(role: PlayerRole): Option<string>
  {
    if role == WOLF then Some("fellow wolves") else None
  }

  /**
   * The private message a player gets when roles are handed out: a role
   * that reveals its members also names the other players holding it,
   * joined by `list_join`.
   */
  function RoleMessage(ps: seq<Player>, users: map<nat, User>, p: Player): Message
    requires Masons.UsersKnown(ps, users)
  {
    var intro := "You are a " + RoleValue(p.role) + "!";
    match RevealOthersText(p.role)
    case None => Message(intro, false, [p.id], false)
    case Some(others) =>
      var fellows := Fellows(ps, p);
      if |fellows| > 0 then
        Message(intro + " Your " + others + " are " + Text.ListJoin(FellowNames(ps, users, p)), false, [p.id], false)
      else
        Message(intro + " You're all by yourself...", false, [p.id], false)
  }

  /** The other players sharing `p`'s role. */
  function Fellows(ps: seq<Player>, p: Player): seq<Player>
  {
    Seqs.Filter((q: Player) => q.role == p.role && q.id != p.id, ps)
  }

  function FellowNames(ps: seq<Player>, users: map<nat, User>, p: Player): seq<string>
    requires Masons.UsersKnown(ps, users)
  {
    var fellows := Fellows(ps, p);
    assert Masons.UsersKnown(fellows, users) by {
      forall i | 0 <= i < |fellows| ensures fellows[i].userId in users {
        assert fellows[i] in ps;
      }
    }
    Masons.NamesOf(fellows, users)
  }

  /**
   * A wolf with fellows is told their names, and the names can be read
   * back from the message when they hold no ',' or '&'.
   */
  lemma WolfMessageNamesFellows(ps: seq<Player>, users: map<nat, User>, p: Player)
    requires Masons.UsersKnown(ps, users)
    requires p.role == WOLF && |Fellows(ps, p)| > 0
    requires Text.Free(',', FellowNames(ps, users, p)) && Text.Free('&', FellowNames(ps, users, p))
    ensures var prefix := "You are a WOLF! Your fellow wolves are ";
      && prefix <= RoleMessage(ps, users, p).text
      && Text.ListSplit(RoleMessage(ps, users, p).text[|prefix|..]) == FellowNames(ps, users, p)
      && RoleMessage(ps, users, p).visibleTo == [p.id]
  {
    var names := FellowNames(ps, users, p);
    var prefix := "You are a WOLF! Your fellow wolves are ";
    var text := RoleMessage(ps, users, p).text;
    WolfMessageText(ps, users, p);
    assert text[|prefix|..] == Text.ListJoin(names);
    Text.ListJoinRoundTrip(names);
  }

  lemma WolfMessageText(ps: seq<Player>, users: map<nat, User>, p: Player)
    requires Masons.UsersKnown(ps, users)
    requires p.role == WOLF && |Fellows(ps, p)| > 0
    ensures RoleMessage(ps, users, p).text == "You are a WOLF! Your fellow wolves are " + Text.ListJoin(FellowNames(ps, users, p))
    ensures RoleMessage(ps, users, p).visibleTo == [p.id]
  {
    assert RoleValue(p.role) == "WOLF";
    assert RevealOthersText(p.role) == Some("fellow wolves");
    var intro := "You are a " + RoleValue(p.role) + "!";
    assert intro == "You are a WOLF!";
    assert intro + " Your " == "You are a WOLF! Your ";
    assert intro + " Your " + "fellow wolves" == "You are a WOLF! Your fellow wolves";
    assert intro + " Your " + "fellow wolves" + " are " == "You are a WOLF! Your fellow wolves are ";
  }

  /** The role messages of `start_game`, one per shown player, in order. */
  function RoleMessages(ps: seq<Player>, users: map<nat, User>): (ms: seq<Message>)
    requires Masons.UsersKnown(ps, users)
    ensures |ms| == |ps|
    ensures forall i :: 0 <= i < |ps| ==> ms[i].visibleTo == [ps[i].id] && !ms[i].isStrong
  {
    seq(|ps|, i requires 0 <= i < |ps| => RoleMessage(ps, users, ps[i]))
  }

  /** The decision `get_hash` takes before waiting: answer at once unless the caller already has the current hash. */
  function HashReturnsImmediately(known: Option<int>, current: int): (now: bool)
    ensures !now <==> known == Some(current)
  {
    known.None? || known.value != current
  }

  /** Every row after `_wipe_all_roles`. */
  function WipedAll(ps: seq<Player>): (r: seq<Player>)
    ensures |r| == |ps| && forall i :: 0 <= i < |ps| ==> r[i] == Wiped(ps[i])
  {
    seq(|ps|, i requires 0 <= i < |ps| => Wiped(ps[i]))
  }

  /** The rows at the given positions, in that order. */
  function PlayersAt(ps: seq<Player>, idx: seq<nat>): (r: seq<Player>)
    requires forall k :: 0 <= k < |idx| ==> idx[k] < |ps|
    ensures |r| == |idx| && forall k :: 0 <= k < |idx| ==> r[k] == ps[idx[k]]
  {
    seq(|idx|, k requires 0 <= k < |idx| => ps[idx[k]])
  }

  lemma PlayersAtKnown(ps: seq<Player>, users: map<nat, User>, idx: seq<nat>)
    requires Masons.UsersKnown(ps, users)
    requires forall k :: 0 <= k < |idx| ==> idx[k] < |ps|
    ensures Masons.UsersKnown(PlayersAt(ps, idx), users)
  {
    var shown := PlayersAt(ps, idx);
    forall k | 0 <= k < |shown| ensures shown[k].userId in users {
      assert shown[k] == ps[idx[k]];
    }
  }

  /** The shown players holding the mason role, the list `announce_masons` reads. */
  function MasonsOf(ps: seq<Player>): seq<Player>
  {
    Seqs.Filter((p: Player) => p.role == MASON, VisiblePlayers(ps))
  }

  lemma MasonsKnown(ps: seq<Player>, users: map<nat, User>)
    requires Masons.UsersKnown(ps, users)
    ensures Masons.UsersKnown(MasonsOf(ps), users)
  {
    var ms := MasonsOf(ps);
    forall i | 0 <= i < |ms| ensures ms[i].userId in users {
      assert ms[i] in VisiblePlayers(ps);
      assert ms[i] in ps;
    }
  }

  /** A wiped then reassigned row keeps its id and its user. */
  predicate SameIdentities(a: seq<Player>, b: seq<Player>)
  {
    |a| == |b| && forall i :: 0 <= i < |a| ==> a[i].id == b[i].id && a[i].userId == b[i].userId
  }

  lemma SameIdentitiesValid(a: seq<Player>, b: seq<Player>, users: map<nat, User>)
    requires SameIdentities(a, b) && IdsDistinct(a) && Masons.UsersKnown(a, users)
    ensures IdsDistinct(b) && Masons.UsersKnown(b, users)
  {
  }

  /** The rows after the role hand-out of `start_game`. */
  ghost predicate DealtRoles(before: seq<Player>, after: seq<Player>, idx: seq<nat>, roles: seq<PlayerRole>)
  {
    && |after| == |before| && |roles| == |idx|
    && (forall k :: 0 <= k < |idx| ==> idx[k] < |before|)
    && (forall k :: 0 <= k < |idx| ==> after[idx[k]] == Wiped(before[idx[k]]).(role := roles[k], state := ALIVE))
    && (forall j :: 0 <= j < |before| && j !in idx ==> after[j] == Wiped(before[j]))
  }

  /**
   * The messages `start_game` posts: the start of the game, each shown
   * player's role, then the announcements to `m`, the masons
   * `announce_masons` reads (`MasonsOf` of the rows).
   */
  function StartChat(ps: seq<Player>, users: map<nat, User>, idx: seq<nat>, m: seq<Player>): (ms: seq<Message>)
    requires Masons.UsersKnown(ps, users) && Masons.UsersKnown(m, users)
    requires forall k :: 0 <= k < |idx| ==> idx[k] < |ps|
    ensures |ms| == 1 + |idx| + |m|
    ensures ms[0] == Message("A new game has started. Night falls in the village", false, [], false)
    ensures forall k :: 0 <= k < |idx| ==> ms[1 + k].visibleTo == [ps[idx[k]].id]
    ensures forall j :: 0 <= j < |m| ==> ms[1 + |idx| + j].isStrong && ms[1 + |idx| + j].visibleTo == [m[j].id]
  {
    var start := Message("A new game has started. Night falls in the village", false, [], false);
    var shown := PlayersAt(ps, idx);
    PlayersAtKnown(ps, users, idx);
    var told := RoleMessages(shown, users);
    var masons := Masons.AnnounceMasons(m, users);
    ChatParts(start, told, masons, ps, idx, m);
    [start] + told + masons
  }

  /** Where the start message, the role messages and the announcements sit in the chat `start_game` posts. */
  lemma ChatParts(start: Message, told: seq<Message>, masons: seq<Message>, ps: seq<Player>, idx: seq<nat>, m: seq<Player>)
    requires forall k :: 0 <= k < |idx| ==> idx[k] < |ps|
    requires |told| == |idx| && forall k :: 0 <= k < |idx| ==> told[k].visibleTo == [ps[idx[k]].id]
    requires |masons| == |m| && forall j :: 0 <= j < |m| ==> masons[j].isStrong && masons[j].visibleTo == [m[j].id]
    ensures var ms := [start] + told + masons;
      && |ms| == 1 + |idx| + |m| && ms[0] == start
      && (forall k :: 0 <= k < |idx| ==> ms[1 + k].visibleTo == [ps[idx[k]].id])
      && (forall j :: 0 <= j < |m| ==> ms[1 + |idx| + j].isStrong && ms[1 + |idx| + j].visibleTo == [m[j].id])
  {
    var ms := [start] + told + masons;
    forall k | 0 <= k < |idx| ensures ms[1 + k] == told[k] {}
    forall j | 0 <= j < |m| ensures ms[1 + |idx| + j] == masons[j] {}
  }

  /** The chat log after `start_game`: the old log expired, then the new messages. */
  ghost predicate StartMessages(before: seq<Message>, after: seq<Message>, ps: seq<Player>, users: map<nat, User>, idx: seq<nat>)
  {
    && Masons.UsersKnown(ps, users) && Masons.UsersKnown(MasonsOf(ps), users)
    && (forall k :: 0 <= k < |idx| ==> idx[k] < |ps|)
    && |after| == |before| + |StartChat(ps, users, idx, MasonsOf(ps))|
    && (forall i :: 0 <= i < |before| ==> after[i] == before[i].(expired := true))
    && after[|before|..] == StartChat(ps, users, idx, MasonsOf(ps))
  }

  // ---------------------------------------------------------------------
  // The game
  // ---------------------------------------------------------------------

  predicate IdsDistinct(ps: seq<Player>)
  {
    forall i, j :: 0 <= i < j < |ps| ==> ps[i].id != ps[j].id && ps[i].userId != ps[j].userId
  }

  class Game {
    /** Whether the game row exists. */
    var created: bool
    var stage: GameStage
    var stageId: int
    var numAttempts: int
    /** The counter `touch` bumps and the state hash reports. */
    var updateTag: int
    var players: seq<Player>
    var users: map<nat, User>
    var actions: seq<Action>
    var messages: seq<Message>

    /** Player ids and users are unique within the game, and every player's user exists. */
    ghost predicate Valid()
      reads this`players, this`users
    {
      IdsDistinct(players) && Masons.UsersKnown(players, users)
    }

    /** An empty database: no game row yet. */
    constructor ()
      ensures !created && players == [] && users == map[] && actions == [] && messages == []
      ensures stage == LOBBY && stageId == 0 && numAttempts == 0 && updateTag == 0
      ensures Valid()
    {
      created := false;
      stage := LOBBY;
      stageId := 0;
      numAttempts := 0;
      updateTag := 0;
      players := [];
      users := map[];
      actions := [];
      messages := [];
    }

    /** `Game.touch`: mark the game as updated. */
    method Touch()
      modifies this`updateTag
      ensures updateTag == old(updateTag) + 1
    {
      updateTag := updateTag + 1;
    }

    /**
     * `_set_stage`: a value that is not a stage is a ValueError; otherwise
     * the stage is set, the stage id moves on by one and the attempt
     * counter restarts.
     */
    method SetStage(arg: StageArg) returns (r: Result<()>)
      modifies this`stage, this`stageId, this`numAttempts
      ensures r.Ok? <==> arg.IsStage?
      ensures r.Err? ==> r.error == ValueError && unchanged(this)
      ensures r.Ok? ==> stage == arg.stage && stageId == old(stageId) + 1 && numAttempts == 0
    {
      if !arg.IsStage? {
        return Err(ValueError);
      }
      stage := arg.stage;
      stageId := stageId + 1;
      numAttempts := 0;
      return Ok(());
    }

    /** `reset_votes`: every player's votes, shown or not, go to zero; the stage id moves on. */
    method ResetVotes()
      requires Valid()
      modifies this`players, this`stageId
      ensures Valid()
      ensures |players| == |old(players)|
      ensures forall i :: 0 <= i < |players| ==> players[i] == old(players[i]).(votes := 0)
      ensures stageId == old(stageId) + 1
    {
      var i := 0;
      while i < |players|
        invariant 0 <= i <= |players| == |old(players)|
        invariant forall j :: 0 <= j < i ==> players[j] == old(players[j]).(votes := 0)
        invariant forall j :: i <= j < |players| ==> players[j] == old(players[j])
        invariant stageId == old(stageId)
      {
        players := players[i := players[i].(votes := 0)];
        i := i + 1;
      }
      stageId := stageId + 1;
    }

    /**
     * `kill_player`: the shown player with this id is killed; with no such
     * player the attribute access fails.
     */
    method KillPlayer(pid: int, st: PlayerState) returns (r: Result<()>)
      requires Valid()
      modifies this`players
      ensures Valid()
      ensures var k := PlayerIndexById(old(players), pid);
        && (k.None? ==> r == Err(AttributeError) && players == old(players))
        && (k.Some? ==> r.Ok? && players == old(players)[k.value := Killed(old(players)[k.value], st)])
    {
      var k := PlayerIndexById(players, pid);
      if k.None? {
        return Err(AttributeError);
      }
      KilledStaysVisible(players[k.value], st);
      players := players[k.value := Killed(players[k.value], st)];
      return Ok(());
    }

    /** `vote_player`: one more vote for the shown player with this id. */
    method VotePlayer(pid: int) returns (r: Result<()>)
      requires Valid()
      modifies this`players
      ensures Valid()
      ensures var k := PlayerIndexById(old(players), pid);
        && (k.None? ==> r == Err(AttributeError) && players == old(players))
        && (k.Some? ==> r.Ok? && players == old(players)[k.value := old(players)[k.value].(votes := old(players)[k.value].votes + 1)])
    {
      var k := PlayerIndexById(players, pid);
      if k.None? {
        return Err(AttributeError);
      }
      players := players[k.value := players[k.value].(votes := players[k.value].votes + 1)];
      return Ok(());
    }

    /** `send_chat_message` with a player list: one new unexpired message at the end of the log. */
    method SendChatMessage(text: string, isStrong: bool, visibleTo: seq<nat>)
      modifies this`messages
      ensures messages == old(messages) + [Message(text, isStrong, visibleTo, false)]
    {
      messages := messages + [Message(text, isStrong, visibleTo, false)];
    }

    /** `clear_chat_messages`: every message of the game expires. */
    method ClearChatMessages()
      modifies this`messages
      ensures |messages| == |old(messages)|
      ensures forall i :: 0 <= i < |messages| ==> messages[i] == old(messages[i]).(expired := true)
    {
      var i := 0;
      while i < |messages|
        invariant 0 <= i <= |messages| == |old(messages)|
        invariant forall j :: 0 <= j < i ==> messages[j] == old(messages[j]).(expired := true)
        invariant forall j :: i <= j < |messages| ==> messages[j] == old(messages[j])
      {
        messages := messages[i := messages[i].(expired := true)];
        i := i + 1;
      }
    }

    /** `clear_actions`: every action of the game expires. */
    method ClearActions()
      modifies this`actions
      ensures |actions| == |old(actions)|
      ensures forall i :: 0 <= i < |actions| ==> actions[i] == old(actions[i]).(expired := true)
    {
      var i := 0;
      while i < |actions|
        invariant 0 <= i <= |actions| == |old(actions)|
        invariant forall j :: 0 <= j < i ==> actions[j] == old(actions[j]).(expired := true)
        invariant forall j :: i <= j < |actions| ==> actions[j] == old(actions[j])
      {
        actions := actions[i := actions[i].(expired := true)];
        i := i + 1;
      }
    }

    /**
     * `set_user_name`: the user record is made when missing, and renamed
     * unless the name is the same; a changed name bumps the game when the
     * user plays in it.
     */
    method SetUserName(uid: nat, name: string, generatedName: string)
      requires Valid()
      modifies this`users, this`updateTag
      ensures Valid()
      ensures users == RenamedUsers(old(users), uid, name, generatedName)
      ensures updateTag == old(updateTag)
        + (if JoinUsers(old(users), uid, generatedName)[uid].name != name && HasPlayer(players, uid) then 1 else 0)
    {
      users := JoinUsers(users, uid, generatedName);
      if users[uid].name == name {
        return;
      }
      users := users[uid := users[uid].(name := Truncated(name), nameIsGenerated := false)];
      if HasPlayer(players, uid) {
        Touch();
      }
    }

    /**
     * `join`: make the user and the game when missing (announcing the new
     * game), add the user as a spectator unless already in the game, and
     * mark the player active and seen now.
     */
    method Join(uid: nat, generatedName: string, now: int)
      requires Valid()
      modifies this
      ensures Valid()
      ensures created
      ensures users == JoinUsers(old(users), uid, generatedName)
      ensures players == JoinPlayers(old(players), uid, now)
      ensures !old(created) ==> messages == old(messages) + [Message("New game created by " + users[uid].name, false, [], false)]
      ensures old(created) ==> messages == old(messages)
      ensures updateTag == old(updateTag) + (if HasPlayer(old(players), uid) then 0 else 1)
      ensures stage == old(stage) && stageId == old(stageId) && numAttempts == old(numAttempts) && actions == old(actions)
    {
      JoinKeepsValid(players, users, uid, generatedName, now);
      users := JoinUsers(users, uid, generatedName);
      if !created {
        created := true;
        SendChatMessage("New game created by " + users[uid].name, false, []);
      }
      var k := PlayerIndexByUser(players, uid, false);
      var touchGame := false;
      if k.None? {
        var p := NewPlayer(NextPlayerId(players), uid, now);
        players := players + [p];
        touchGame := true;
        assert !HasPlayer(old(players), uid);
      } else {
        assert HasPlayer(old(players), uid);
        players := players[k.value := players[k.value].(active := true, lastSeen := now)];
      }
      if touchGame {
        Touch();
      }
    }

    /** `_wipe_all_roles`: every player, shown or not, becomes a spectator that had no role. */
    method WipeAllRoles()
      requires Valid()
      modifies this`players
      ensures Valid()
      ensures |players| == |old(players)|
      ensures forall i :: 0 <= i < |players| ==> players[i] == Wiped(old(players[i]))
    {
      var i := 0;
      while i < |players|
        invariant 0 <= i <= |players| == |old(players)|
        invariant forall j :: 0 <= j < i ==> players[j] == Wiped(old(players[j]))
        invariant forall j :: i <= j < |players| ==> players[j] == old(players[j])
      {
        players := players[i := Wiped(players[i])];
        i := i + 1;
      }
    }

    /** The zip of `start_game`: the k-th shown player takes the k-th role and comes alive. */
    method AssignInOrder(idx: seq<nat>, roles: seq<PlayerRole>)
      requires Valid()
      requires forall k :: 0 <= k < |idx| ==> idx[k] < |players|
      requires forall k, l :: 0 <= k < l < |idx| ==> idx[k] < idx[l]
      requires |roles| == |idx|
      modifies this`players
      ensures Valid()
      ensures |players| == |old(players)|
      ensures forall k :: 0 <= k < |idx| ==>
        players[idx[k]] == old(players[idx[k]]).(role := roles[k], state := ALIVE)
      ensures forall j :: 0 <= j < |players| && j !in idx ==> players[j] == old(players[j])
    {
      var k := 0;
      while k < |idx|
        invariant 0 <= k <= |idx| && |players| == |old(players)|
        invariant Valid()
        invariant forall m :: 0 <= m < k ==> players[idx[m]] == old(players[idx[m]]).(role := roles[m], state := ALIVE)
        invariant forall j :: 0 <= j < |players| && j !in idx[..k] ==> players[j] == old(players[j])
      {
        players := players[idx[k] := players[idx[k]].(role := roles[k], state := ALIVE)];
        k := k + 1;
      }
    }

    /** `end_game`: shown players are seen now, every action goes, and the game ends. */
    method EndGame(now: int)
      requires Valid()
      modifies this`players, this`actions, this`stage, this`stageId, this`numAttempts
      ensures Valid()
      ensures |players| == |old(players)|
      ensures forall i :: 0 <= i < |players| ==>
        players[i] == if Visible(old(players[i])) then old(players[i]).(lastSeen := now) else old(players[i])
      ensures actions == [] && stage == ENDED && stageId == old(stageId) + 1 && numAttempts == 0
    {
      var i := 0;
      while i < |players|
        invariant 0 <= i <= |players| == |old(players)|
        invariant forall j :: 0 <= j < i ==>
          players[j] == if Visible(old(players[j])) then old(players[j]).(lastSeen := now) else old(players[j])
        invariant forall j :: i <= j < |players| ==> players[j] == old(players[j])
        invariant Valid()
        invariant stageId == old(stageId)
      {
        if Visible(players[i]) {
          players := players[i := players[i].(lastSeen := now)];
        }
        i := i + 1;
      }
      actions := [];
      var _ := SetStage(IsStage(ENDED));
    }

    /** Appends the messages in order, as repeated `send_chat_message` calls. */
    method SendMessages(ms: seq<Message>)
      modifies this`messages
      ensures messages == old(messages) + ms
    {
      var i := 0;
      while i < |ms|
        invariant 0 <= i <= |ms|
        invariant messages == old(messages) + ms[..i]
      {
        messages := messages + [ms[i]];
        i := i + 1;
        assert ms[..i] == ms[..i - 1] + [ms[i - 1]];
      }
      assert ms[..|ms|] == ms;
    }

    /**
     * The role hand-out of `start_game`, on rows already wiped from
     * `before`: the k-th shown player takes the k-th role and comes alive.
     */
    method Deal(ghost before: seq<Player>, idx: seq<nat>, roles: seq<PlayerRole>)
      requires Valid()
      requires players == WipedAll(before)
      requires idx == VisibleIndices(players) && |roles| == |idx|
      modifies this`players
      ensures Valid()
      ensures DealtRoles(before, players, idx, roles)
    {
      AssignInOrder(idx, roles);
    }

    /**
     * The chat of `start_game`: old messages and actions expire, the start
     * is announced, each shown player is told their role, and the masons
     * learn each other.
     */
    method AnnounceStart(idx: seq<nat>)
      requires Valid()
      requires forall k :: 0 <= k < |idx| ==> idx[k] < |players|
      modifies this`messages, this`actions
      ensures |actions| == |old(actions)|
      ensures forall i :: 0 <= i < |actions| ==> actions[i] == old(actions[i]).(expired := true)
      ensures StartMessages(old(messages), messages, players, users, idx)
    {
      ClearChatMessages();
      ghost var expiredMessages := messages;
      ClearActions();
      SendMessages(StartChat(players, users, idx, MasonsOf(players)));
      assert messages[..|old(messages)|] == expiredMessages;
    }

    /**
     * `start_game`: every role is wiped first, and that wipe is a scoped
     * call of its own, committed before anything else happens. With too
     * few shown players after the wipe the request then fails with 400:
     * the rollback finds nothing left to undo, so the rows stay wiped and,
     * as the session was modified, the outermost scoped call touches the
     * game. Otherwise roles are dealt to the shown players by
     * `assign_roles` with the default settings, the start is announced,
     * and the night begins.
     */
    method StartGame(draws: Distribution.Draws) returns (r: Result<()>, ghost dealt: seq<PlayerRole>)
      requires Valid()
      modifies this
      ensures Valid()
      ensures r.Err? <==> |VisibleIndices(WipedAll(old(players)))| < 3
      ensures r.Err? ==>
        && r.error == Http(400, "Not enough players")
        && players == WipedAll(old(players)) && updateTag == old(updateTag) + 1
        && unchanged(this`created, this`stage, this`stageId, this`numAttempts, this`users, this`actions, this`messages)
      ensures r.Ok? ==>
        var idx := VisibleIndices(WipedAll(old(players)));
        && Distribution.Distributed(dealt, |idx|, Distribution.DefaultNumWolves(|idx|), Distribution.WeightsFor(Distribution.NoSettings))
        && DealtRoles(old(players), players, idx, dealt)
        && unchanged(this`users)
        && |actions| == |old(actions)| && (forall i :: 0 <= i < |actions| ==> actions[i] == old(actions[i]).(expired := true))
        && StartMessages(old(messages), messages, players, users, idx)
        && stage == NIGHT && stageId == old(stageId) + 1 && numAttempts == 0
    {
      var ok, idx;
      ok, idx, dealt := DealRoles(draws);
      if !ok {
        Touch();
        return Err(Http(400, "Not enough players")), dealt;
      }
      ghost var dealtPlayers := players;
      OpenNight(idx);
      assert players == dealtPlayers;
      r := Ok(());
    }

    /** The end of `start_game`: the chat is reset and announced, and the night begins. */
    method OpenNight(idx: seq<nat>)
      requires Valid()
      requires forall k :: 0 <= k < |idx| ==> idx[k] < |players|
      modifies this`messages, this`actions, this`stage, this`stageId, this`numAttempts
      ensures |actions| == |old(actions)| && (forall i :: 0 <= i < |actions| ==> actions[i] == old(actions[i]).(expired := true))
      ensures StartMessages(old(messages), messages, players, users, idx)
      ensures stage == NIGHT && stageId == old(stageId) + 1 && numAttempts == 0
      ensures unchanged(this`players, this`users)
    {
      AnnounceStart(idx);
      var _ := SetStage(IsStage(NIGHT));
    }

    /**
     * The wipe of every role, then `assign_roles` with the default settings
     * for the shown players, and the hand-out when it gives a list. The
     * wipe stays whatever `assign_roles` answers.
     */
    method DealRoles(draws: Distribution.Draws) returns (ok: bool, idx: seq<nat>, ghost dealt: seq<PlayerRole>)
      requires Valid()
      modifies this`players
      ensures Valid()
      ensures idx == VisibleIndices(WipedAll(old(players)))
      ensures ok <==> |idx| >= 3
      ensures unchanged(this`users)
      ensures !ok ==> players == WipedAll(old(players))
      ensures ok ==>
        && Distribution.Distributed(dealt, |idx|, Distribution.DefaultNumWolves(|idx|), Distribution.WeightsFor(Distribution.NoSettings))
        && DealtRoles(old(players), players, idx, dealt)
    {
      ghost var before := players;
      WipeAllRoles();
      assert players == WipedAll(before);
      idx := VisibleIndices(players);
      var n := |idx|;
      Distribution.DefaultWolvesFit(n);
      var res := Distribution.AssignRoles(n, Distribution.NoSettings, draws);
      assert res.Ok?;
      if res.value.None? {
        return false, idx, [];
      }
      var roles := res.value.value;
      assert Distribution.DefaultNumWolves(n) >= 0;
      assert |roles| == n;
      dealt := roles;
      Deal(before, idx, roles);
      ok := true;
    }

    /**
     * The loop of `player_keepalive`: every row, shown or not, is flipped
     * against the threshold; `changed` says whether any row changed.
     */
    method FlipActivity(threshold: int) returns (changed: bool)
      requires Valid()
      modifies this`players
      ensures Valid()
      ensures |players| == |old(players)|
      ensures forall i :: 0 <= i < |players| ==> players[i] == Flipped(old(players[i]), threshold)
      ensures changed <==> exists i :: 0 <= i < |players| && players[i] != old(players[i])
    {
      changed := false;
      var i := 0;
      while i < |players|
        invariant 0 <= i <= |players| == |old(players)|
        invariant forall j :: 0 <= j < i ==> players[j] == Flipped(old(players[j]), threshold)
        invariant forall j :: i <= j < |players| ==> players[j] == old(players[j])
        invariant changed <==> exists j :: 0 <= j < i && players[j] != old(players[j])
        invariant Valid()
      {
        var p := players[i];
        if p.active && p.lastSeen <= threshold {
          players := players[i := p.(active := false)];
          changed := true;
        } else if !p.active && p.lastSeen > threshold {
          players := players[i := p.(active := true)];
          changed := true;
        }
        i := i + 1;
      }
    }
  }

  /**
   * The module-level `update_events` table: the games some `get_hash` call
   * is waiting on.
   */
  class UpdateEvents {
    var waiting: set<int>

    constructor ()
      ensures waiting == {}
    {
      waiting := {};
    }

    /** A waiting `get_hash` makes the game's event when none exists, and waits on it. */
    method Subscribe(gameId: int)
      modifies this
      ensures waiting == old(waiting) + {gameId}
    {
      waiting := waiting + {gameId};
    }

    /**
     * `trigger_update_event`: wakes the waiters of that game, if any, and
     * drops the event so the next waiter makes a fresh one.
     */
    method Trigger(gameId: int) returns (woken: bool)
      modifies this
      ensures woken <==> gameId in old(waiting)
      ensures waiting == old(waiting) - {gameId}
      ensures gameId !in waiting
    {
      woken := gameId in waiting;
      if woken {
        waiting := waiting - {gameId};
      }
    }
  }
}
