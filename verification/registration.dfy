// The handler `register_role` installs for each role in
// backend/roles/registration.py (`game_func`): a chain of checks, the new
// action row, and the readiness test that decides whether the night is
// resolved.

module Registration {
  import opened Types
  import opened Roles
  import opened GameState
  import opened Execution
  import Process
  import Distribution

  // ---------------------------------------------------------------------
  // Rendering the values the error details interpolate
  // ---------------------------------------------------------------------

  function DigitChar(d: nat): (c: char)
    requires d < 10
    ensures '0' <= c <= '9' && c as int - '0' as int == d
  {
    ('0' as int + d) as char
  }

  /** The decimal digits of `n`. */
  function Digits(n: nat): (s: string)
    ensures |s| >= 1 && forall i :: 0 <= i < |s| ==> '0' <= s[i] <= '9'
    decreases n
  {
    if n < 10 then [DigitChar(n)] else Digits(n / 10) + [DigitChar(n % 10)]
  }

  /** The number the decimal digits `s` spell. */
  function DigitsValue(s: string): nat
  {
    if |s| == 0 then 0
    else
      var last := s[|s| - 1];
      DigitsValue(s[..|s| - 1]) * 10 + (if '0' <= last <= '9' then (last as int - '0' as int) else 0)
  }

  /** Reading the digits back gives the number: the rendering loses nothing. */
  lemma {:induction false} DigitsRoundTrip(n: nat)
    ensures DigitsValue(Digits(n)) == n
    decreases n
  {
    var s := Digits(n);
    if n >= 10 {
      DigitsRoundTrip(n / 10);
      assert s[..|s| - 1] == Digits(n / 10);
      assert s[|s| - 1] == DigitChar(n % 10);
    } else {
      assert s == [DigitChar(n)] && s[..0] == [];
    }
  }

  /** An integer as an f-string renders it. */
  function Show(n: int): string
  {
    if n < 0 then "-" + Digits(-n) else Digits(n)
  }

  // ---------------------------------------------------------------------
  // The checks, the new row and the readiness test
  // ---------------------------------------------------------------------

  /**
   * Why `game_func` refuses a submission, the checks running in the
   * source's order: no game, no shown player for the user, another role,
   * a role without a night action, a stage other than the night, and an
   * action (expired or not) already stored by the player with this stage
   * id. None when the submission is accepted.
   */
  function Refusal(gameId: nat, created: bool, ps: seq<Player>, acts: seq<Action>, stage: GameStage, stageId: int, role: PlayerRole, uid: nat): (r: Option<Error>)
    ensures r.Some? ==> r.value.Http? && r.value.code in {403, 404}
  {
    if !created then Some(Http(404, "Game " + Show(gameId) + " not found"))
    else match PlayerIndexByUser(ps, uid, true)
      case None => Some(Http(404, "Player " + Show(uid) + " not found"))
      case Some(k) =>
        if ps[k].role != role then Some(Http(403, "Player " + Show(uid) + " is not a " + RoleValue(role)))
        else if !HasNightAction(role) then
          Some(Http(403, "Player " + Show(uid) + " in role " + RoleValue(role) + " has no night action"))
        else if stage != NIGHT then Some(Http(403, "Actions may only be performed at night"))
        else if ActedInStage(acts, ps[k].id, stageId) then
          Some(Http(403, "Action already completed for player " + Show(uid) + " in round " + Show(stageId)))
        else None
  }

  /**
   * An accepted submission comes from a shown player with that role,
   * whose role acts at night, during the night, who has not yet acted in
   * this stage; and every such submission is accepted.
   */
  lemma RefusalSpec(gameId: nat, created: bool, ps: seq<Player>, acts: seq<Action>, stage: GameStage, stageId: int, role: PlayerRole, uid: nat)
    ensures Refusal(gameId, created, ps, acts, stage, stageId, role, uid).None? <==>
      && created
      && PlayerIndexByUser(ps, uid, true).Some?
      && ps[PlayerIndexByUser(ps, uid, true).value].role == role
      && HasNightAction(role)
      && stage == NIGHT
      && !ActedInStage(acts, ps[PlayerIndexByUser(ps, uid, true).value].id, stageId)
    ensures !created ==> Refusal(gameId, created, ps, acts, stage, stageId, role, uid) == Some(Http(404, "Game " + Show(gameId) + " not found"))
    ensures (created && PlayerIndexByUser(ps, uid, true).Some? && HasNightAction(role) && stage != NIGHT &&
      ps[PlayerIndexByUser(ps, uid, true).value].role == role) ==>
        Refusal(gameId, created, ps, acts, stage, stageId, role, uid) == Some(Http(403, "Actions may only be performed at night"))
  {
  }

  /** One past the largest action id in use; the id the new row gets. */
  function NextActionId(acts: seq<Action>): (n: nat)
    ensures forall i :: 0 <= i < |acts| ==> acts[i].id < n
  {
    if |acts| == 0 then 1
    else
      var rest := NextActionId(acts[..|acts| - 1]);
      assert forall i :: 0 <= i < |acts| - 1 ==> acts[i] == acts[..|acts| - 1][i];
      if acts[|acts| - 1].id + 1 > rest then acts[|acts| - 1].id + 1 else rest
  }

  /**
   * The rows after the new action is saved: the player's id, the
   * selected id and the current stage id; the handler sets no stage.
   */
  function Stored(acts: seq<Action>, pid: nat, selected: Option<int>, stageId: int): (r: seq<Action>)
    ensures |r| == |acts| + 1 && r[..|acts|] == acts
    ensures r[|acts|].playerId == pid && r[|acts|].selectedPlayerId == selected && r[|acts|].stageId == stageId
    ensures forall i :: 0 <= i < |acts| ==> r[|acts|].id != acts[i].id
  {
    acts + [Action(NextActionId(acts), pid, selected, None, stageId, false)]
  }

  /** Every player, shown or not, whose role acts at night has a row with this stage id. */
  predicate NightReady(ps: seq<Player>, acts: seq<Action>, stageId: int)
  {
    forall i :: 0 <= i < |ps| && HasNightAction(ps[i].role) ==> ActedInStage(acts, ps[i].id, stageId)
  }

  /**
   * The handler's readiness is stricter than the one `process_actions`
   * checks: when every night-acting player has acted, nobody shown is
   * still to act.
   */
  lemma NightReadyIsReady(ps: seq<Player>, acts: seq<Action>, stageId: int)
    requires NightReady(ps, acts, stageId)
    ensures Process.Ready(ps, acts, NIGHT, stageId)
  {
    var shown := VisiblePlayers(ps);
    forall i | 0 <= i < |shown|
      ensures !Process.Waiting(ps, acts, shown[i], NIGHT, stageId)
    {
      var p := shown[i];
      assert p in ps;
      var j :| 0 <= j < |ps| && ps[j] == p;
      Process.WaitingSpec(ps, acts, p, NIGHT, stageId);
      if HasNightAction(p.role) {
        assert ActedInStage(acts, ps[j].id, stageId);
      }
    }
  }

  /** The readiness loop of `game_func`: the first player still to act stops it. */
  method AllNightActionsIn(ps: seq<Player>, acts: seq<Action>, stageId: int) returns (ready: bool)
    ensures ready <==> NightReady(ps, acts, stageId)
  {
    ready := true;
    var i := 0;
    while i < |ps|
      invariant 0 <= i <= |ps|
      invariant forall j :: 0 <= j < i && HasNightAction(ps[j].role) ==> ActedInStage(acts, ps[j].id, stageId)
    {
      var acted := false;
      var j := 0;
      while j < |acts|
        invariant 0 <= j <= |acts|
        invariant acted <==> exists m :: 0 <= m < j && acts[m].playerId == ps[i].id && acts[m].stageId == stageId
      {
        if acts[j].playerId == ps[i].id && acts[j].stageId == stageId {
          acted := true;
        }
        j := j + 1;
      }
      if HasNightAction(ps[i].role) && !acted {
        ready := false;
        return;
      }
      i := i + 1;
    }
  }

  // ---------------------------------------------------------------------
  // The handler as written
  // ---------------------------------------------------------------------

  /**
   * What the handler as written leaves: the action rows and the
   * exception. A refusal writes nothing. The call that should resolve
   * the night passes no stage and no stage id, which is a TypeError, and
   * the error rolls the new row back with everything else the call wrote.
   */
  function SubmitOutcome(gameId: nat, created: bool, ps: seq<Player>, acts: seq<Action>, stage: GameStage, stageId: int,
                         role: PlayerRole, uid: nat, selected: Option<int>): (seq<Action>, Option<Error>)
  {
    match Refusal(gameId, created, ps, acts, stage, stageId, role, uid)
    case Some(e) => (acts, Some(e))
    case None =>
      var after := Stored(acts, ps[PlayerIndexByUser(ps, uid, true).value].id, selected, stageId);
      if NightReady(ps, after, stageId) then (acts, Some(TypeError)) else (after, None)
  }

  /**
   * As written, no accepted submission ever leaves every night action in
   * place: either some night-acting player is still to act, or the
   * submission fails and is rolled back.
   */
  lemma SubmitNeverCompletesNight(gameId: nat, created: bool, ps: seq<Player>, acts: seq<Action>, stage: GameStage, stageId: int,
                                  role: PlayerRole, uid: nat, selected: Option<int>)
    requires Refusal(gameId, created, ps, acts, stage, stageId, role, uid).None?
    ensures var (after, err) := SubmitOutcome(gameId, created, ps, acts, stage, stageId, role, uid, selected);
      err.None? ==> !NightReady(ps, after, stageId) && |after| == |acts| + 1
    ensures var (after, err) := SubmitOutcome(gameId, created, ps, acts, stage, stageId, role, uid, selected);
      err.Some? ==> err.value == TypeError && after == acts
  {
  }

  /** A night with a single wolf, who has not yet acted. */
  const LoneWolf: Player := Player(1, 7, WOLF, ALIVE, None, true, 0, 0)

  /**
   * The lone wolf's kill is accepted, yet, being the last action of the
   * night, it fails with a TypeError and is not stored: the night can
   * never be resolved.
   */
  lemma LoneWolfKillIsLost()
    ensures Refusal(1, true, [LoneWolf], [], NIGHT, 1, WOLF, 7).None?
    ensures SubmitOutcome(1, true, [LoneWolf], [], NIGHT, 1, WOLF, 7, Some(1)) == ([], Some(TypeError))
  {
    assert Visible(LoneWolf);
    assert PlayerIndexByUser([LoneWolf], 7, true) == Some(0);
    var after := Stored([], 1, Some(1), 1);
    assert after[0].playerId == 1 && after[0].stageId == 1;
    assert NightReady([LoneWolf], after, 1);
  }

  /** `game_func` as written, on a game whose id is `gameId`. */
  method SubmitAsWritten(g: Game, gameId: nat, role: PlayerRole, uid: nat, selected: Option<int>) returns (err: Option<Error>)
    requires g.Valid()
    modifies g`actions, g`updateTag
    ensures var (after, e) := SubmitOutcome(gameId, old(g.created), old(g.players), old(g.actions), old(g.stage), old(g.stageId), role, uid, selected);
      g.actions == after && err == e
    ensures err.None? ==> g.updateTag == old(g.updateTag) + 1
    ensures err.Some? ==> g.updateTag == old(g.updateTag)
  {
    err := Refusal(gameId, g.created, g.players, g.actions, g.stage, g.stageId, role, uid);
    if err.Some? {
      return;
    }
    var k := PlayerIndexByUser(g.players, uid, true);
    var before := g.actions;
    g.actions := Stored(g.actions, g.players[k.value].id, selected, g.stageId);
    var ready := AllNightActionsIn(g.players, g.actions, g.stageId);
    if ready {
      g.actions := before;
      return Some(TypeError);
    }
    g.Touch();
  }

  // ---------------------------------------------------------------------
  // The handler as intended
  // ---------------------------------------------------------------------

  /**
   * `game_func` with the resolution called as `player_keepalive` calls
   * it, for the game's stage and stage id: the accepted row is stored,
   * and once every night-acting player has acted, `process_actions` runs
   * its own readiness check and the resolution; the game is touched
   * unless the resolution raised.
   */
  method Submit(g: Game, gameId: nat, role: PlayerRole, uid: nat, selected: Option<int>, coins: nat -> bool, draws: Distribution.Draws)
    returns (err: Option<Error>)
    requires g.Valid()
    modifies g
    ensures g.Valid()
    ensures Refusal(gameId, old(g.created), old(g.players), old(g.actions), old(g.stage), old(g.stageId), role, uid).Some? ==>
      err == Refusal(gameId, old(g.created), old(g.players), old(g.actions), old(g.stage), old(g.stageId), role, uid) && unchanged(g)
    ensures Refusal(gameId, old(g.created), old(g.players), old(g.actions), old(g.stage), old(g.stageId), role, uid).None? ==>
      var after := Stored(old(g.actions), old(g.players)[PlayerIndexByUser(old(g.players), uid, true).value].id, selected, old(g.stageId));
      var t := old(TableOf(g));
      && (!NightReady(old(g.players), after, old(g.stageId)) ==>
        err.None? && g.actions == after && TableOf(g) == t && g.updateTag == old(g.updateTag) + 1)
      && (NightReady(old(g.players), after, old(g.stageId)) ==>
        Process.Resolved(g, Process.Resolve(t, old(g.users), after, NIGHT, old(g.stageId), coins), err, old(g.users), after))
  {
    err := Refusal(gameId, g.created, g.players, g.actions, g.stage, g.stageId, role, uid);
    if err.Some? {
      return;
    }
    var k := PlayerIndexByUser(g.players, uid, true);
    err := StoreAndResolve(g, g.players[k.value].id, selected, coins, draws);
  }

  /** The accepted half of `Submit`: the row is stored, the night resolved once everyone has acted, and the game touched. */
  method StoreAndResolve(g: Game, playerId: nat, selected: Option<int>, coins: nat -> bool, draws: Distribution.Draws)
    returns (err: Option<Error>)
    requires g.Valid() && g.stage == NIGHT
    modifies g
    ensures g.Valid()
    ensures var after := Stored(old(g.actions), playerId, selected, old(g.stageId));
      var t := old(TableOf(g));
      && (!NightReady(old(g.players), after, old(g.stageId)) ==>
        err.None? && g.actions == after && TableOf(g) == t && g.updateTag == old(g.updateTag) + 1)
      && (NightReady(old(g.players), after, old(g.stageId)) ==>
        Process.Resolved(g, Process.Resolve(t, old(g.users), after, NIGHT, old(g.stageId), coins), err, old(g.users), after))
  {
    g.actions := Stored(g.actions, playerId, selected, g.stageId);
    var ready := AllNightActionsIn(g.players, g.actions, g.stageId);
    if !ready {
      g.Touch();
      return None;
    }
    NightReadyIsReady(g.players, g.actions, g.stageId);
    var _, e := Process.ProcessActions(g, g.stage, g.stageId, coins, draws);
    if e.None? {
      g.Touch();
    }
    return e;
  }

  /**
   * As intended, an accepted submission is stored and its player stops
   * holding up the night; for the lone wolf, the night is then resolved.
   */
  lemma AcceptedActionCounts(ps: seq<Player>, acts: seq<Action>, stageId: int, uid: nat, selected: Option<int>)
    requires PlayerIndexByUser(ps, uid, true).Some?
    ensures var p := ps[PlayerIndexByUser(ps, uid, true).value];
      var after := Stored(acts, p.id, selected, stageId);
      ActedInStage(after, p.id, stageId) && !Process.Waiting(ps, after, p, NIGHT, stageId)
  {
    var p := ps[PlayerIndexByUser(ps, uid, true).value];
    var after := Stored(acts, p.id, selected, stageId);
    assert after == acts + [after[|acts|]];
    Process.ActingEndsWaiting(ps, acts, p, NIGHT, after[|acts|]);
  }

  lemma LoneWolfNightResolves()
    ensures var after := Stored([], LoneWolf.id, Some(1), 1);
      NightReady([LoneWolf], after, 1) && Process.Ready([LoneWolf], after, NIGHT, 1)
  {
    assert Visible(LoneWolf);
    assert PlayerIndexByUser([LoneWolf], 7, true) == Some(0);
    AcceptedActionCounts([LoneWolf], [], 1, 7, Some(1));
    var after := Stored([], LoneWolf.id, Some(1), 1);
    var shown := VisiblePlayers([LoneWolf]);
    assert forall i :: 0 <= i < |shown| ==> shown[i] == LoneWolf;
  }
}
