// A whole resolution: `process_actions` of backend/resolver.py run end to
// end on a game, the readiness loop in front of it (`process_actions` of
// backend/game.py) and `player_keepalive`, which calls it when some
// player's activity flips.

module Process {
  import opened Types
  import opened Roles
  import opened GameActions
  import opened GameState
  import opened Execution
  import Resolver
  import Finalizers
  import Distribution
  import Masons

  // ---------------------------------------------------------------------
  // The resolution as a function of the stored rows
  // ---------------------------------------------------------------------

  /** The dictionary once every object of `acts` is linked: each player's two lists hold exactly its actions. */
  function LinkedMap(p0: map<nat, GamePlayer>, acts: seq<GameAction>): (m: map<nat, GamePlayer>)
    ensures m.Keys == p0.Keys
    ensures forall id :: id in m ==> m[id].model == p0[id].model
  {
    map id | id in p0 :: GamePlayer(p0[id].model, From(Ends(acts), id), To(Ends(acts), id))
  }

  /** The links leave no choice: a linked dictionary over the same players and rows is `LinkedMap`. */
  lemma LinkedIsLinkedMap(p0: map<nat, GamePlayer>, acts: seq<GameAction>, players: map<nat, GamePlayer>)
    requires Linked(acts, players) && players.Keys == p0.Keys
    requires forall id :: id in players ==> players[id].model == p0[id].model
    ensures players == LinkedMap(p0, acts)
  {
    var m := LinkedMap(p0, acts);
    forall id | id in players
      ensures players[id] == m[id]
    {
      assert players[id].originatedFrom == m[id].originatedFrom;
    }
  }

  /** Objects built from stored rows have known players at both ends, so `LinkedMap` links them. */
  lemma BuiltLinked(allPlayers: seq<Player>, p0: map<nat, GamePlayer>, stored: seq<Action>, stage: GameStage)
    requires Resolver.BuildAll(allPlayers, p0, stored, stage).Ok?
    ensures var built := Resolver.BuildAll(allPlayers, p0, stored, stage).value;
      Linked(built, LinkedMap(p0, built))
  {
    Resolver.BuildAllOk(allPlayers, p0, stored, stage);
    var built := Resolver.BuildAll(allPlayers, p0, stored, stage).value;
    var m := LinkedMap(p0, built);
    forall h | 0 <= h < |built|
      ensures built[h].originator in m && (built[h].target.Some? ==> built[h].target.value in m)
    {
      BuiltEndsKnown(allPlayers, p0, stored[h], stage);
    }
  }

  /** An object built from a stored row has both its ends among the shown players. */
  lemma BuiltEndsKnown(allPlayers: seq<Player>, p0: map<nat, GamePlayer>, a: Action, stage: GameStage)
    requires Resolver.BuildError(allPlayers, p0, a, stage).None?
    ensures var b := Resolver.Built(p0, a, Resolver.KindOf(allPlayers, p0, a, stage));
      b.originator in p0 && (b.target.Some? ==> b.target.value in p0)
  {
    assert Resolver.Resolvable(p0, a);
  }

  /** The rows `get_actions_model(stage_id)` returns: this stage id when it is truthy, never an expired row. */
  function StoredFor(actions: seq<Action>, stageId: int): seq<Action>
  {
    ActionsFilter(actions, Some(stageId), None, None, false)
  }

  /** The objects once every modifier has run, the linked dictionary and the order of execution. */
  datatype Plan = Plan(acts: seq<GameAction>, players: map<nat, GamePlayer>, order: seq<nat>)

  /**
   * The part of `process_actions` before the first write: the objects
   * built from the stage's stored rows over the shown players, linked,
   * sorted by (priority, action id) and modified in that order; or the
   * exception that stopped it.
   */
  function Prepare(ps: seq<Player>, actions: seq<Action>, stage: GameStage, stageId: int): (r: Result<Plan>)
    ensures r.Ok? ==> Bound(r.value.acts, r.value.players)
    ensures r.Ok? ==> forall i :: 0 <= i < |r.value.order| ==> r.value.order[i] < |r.value.acts|
    ensures r.Ok? ==> forall id :: id in r.value.players ==> r.value.players[id].model in ps
    ensures r.Err? ==> r.error in {AttributeError, TypeError, KeyError}
  {
    var p0 := Resolver.PlayerMap(VisiblePlayers(ps));
    match Resolver.BuildAll(ps, p0, StoredFor(actions, stageId), stage)
    case Err(e) => BuildErrors(ps, p0, StoredFor(actions, stageId), stage); Err(e)
    case Ok(built) =>
      var players := LinkedMap(p0, built);
      BuiltLinked(ps, p0, StoredFor(actions, stageId), stage);
      LinkedBound(built, players);
      Resolver.OrderedSpec(built);
      var order := Resolver.Ordered(built);
      match ModifyAll(built, players, order)
      case Err(e) => ModifyAllFails(built, players, order); Err(e)
      case Ok(modded) => Ok(Plan(modded, players, order))
  }

  /** Building fails only on a missing row player, a role without a class, or a failed lookup. */
  lemma BuildErrors(allPlayers: seq<Player>, p0: map<nat, GamePlayer>, stored: seq<Action>, stage: GameStage)
    requires Resolver.BuildAll(allPlayers, p0, stored, stage).Err?
    ensures Resolver.BuildAll(allPlayers, p0, stored, stage).error in {AttributeError, TypeError, KeyError}
  {
    Resolver.BuildAllSpec(allPlayers, p0, stored, stage);
  }

  /** The modifier pass fails only by reading the target of an action that has none. */
  lemma {:induction false} ModifyAllFails(acts: seq<GameAction>, players: map<nat, GamePlayer>, order: seq<nat>)
    requires Bound(acts, players)
    requires forall i :: 0 <= i < |order| ==> order[i] < |acts|
    requires ModifyAll(acts, players, order).Err?
    ensures ModifyAll(acts, players, order).error == AttributeError
    decreases |order|
  {
    var init := order[..|order| - 1];
    var prev := ModifyAll(acts, players, init);
    if prev.Err? {
      ModifyAllFails(acts, players, init);
    } else {
      var a := prev.value[order[|order| - 1]];
      if a.kind == ProstituteSleep && a.target.Some? {
        var pre := PreventAll(prev.value, players[a.target.value].originatedFrom);
        ApplyTypesFails(pre, players, pre[order[|order| - 1]], ModifierTypes);
      } else if a.kind != ProstituteSleep {
        ApplyTypesFails(prev.value, players, a, ModifierTypes);
      }
    }
  }

  lemma {:induction false} ApplyTypesFails(acts: seq<GameAction>, players: map<nat, GamePlayer>, caller: GameAction, ts: seq<ModifierType>)
    requires HandlesBelow(players, |acts|) && Known(players, caller)
    ensures ApplyTypes(acts, players, caller, ts).Err? ==> ApplyTypes(acts, players, caller, ts).error == AttributeError
    decreases |ts|
  {
    if |ts| > 0 {
      ApplyTypesFails(acts, players, caller, ts[..|ts| - 1]);
    }
  }

  /**
   * Where `process_actions` stops: `Ended(t, err)` with the rows it leaves
   * and the exception it raised, if any; `Restart(t)` when the finalizer
   * is `start_game`, with `t` the rows that game starts from.
   */
  datatype Outcome = Ended(t: Table, err: Option<Error>) | Restart(t: Table)

  /**
   * `process_actions(game, stage, stage_id)` on the rows `t`: build, sort,
   * modify, execute in order (the `i`-th execution drawing `coins(i)`),
   * then the stage's finalizer. A failure before the first write changes
   * nothing; a failure during execution leaves the writes before it.
   */
  function Resolve(t: Table, users: map<nat, User>, actions: seq<Action>, stage: GameStage, stageId: int, coins: nat -> bool): Outcome
    requires Masons.UsersKnown(t.players, users)
  {
    match Prepare(t.players, actions, stage, stageId)
    case Err(e) => Ended(t, Some(e))
    case Ok(plan) =>
      PlanSeated(t.players, users, plan.players);
      Execute(t, users, stage, coins, plan)
  }

  /** The second half of `process_actions`: every planned action executed in order, then the stage's finalizer unless one failed. */
  function Execute(t: Table, users: map<nat, User>, stage: GameStage, coins: nat -> bool, plan: Plan): Outcome
    requires Masons.UsersKnown(t.players, users) && Bound(plan.acts, plan.players) && Seated(plan.players, users)
    requires forall i :: 0 <= i < |plan.order| ==> plan.order[i] < |plan.acts|
  {
    var (mid, err) := RunActions(t, plan.acts, plan.players, users, plan.order, coins);
    if err.Some? then Ended(mid, err)
    else
      RunActionsKeeps(t, plan.acts, plan.players, users, plan.order, coins);
      Finish(mid, users, stage)
  }

  /** The stage's finalizer on the rows the executions left. */
  function Finish(mid: Table, users: map<nat, User>, stage: GameStage): Outcome
    requires Masons.UsersKnown(mid.players, users)
  {
    match stage
    case NIGHT => Ended(Finalizers.JudgeNightAfter(mid).0, Finalizers.JudgeNightAfter(mid).1)
    case DAY => Ended(Finalizers.SwitchToVoteAfter(mid).0, Finalizers.SwitchToVoteAfter(mid).1)
    case VOTING => Ended(Finalizers.CountVotesAfter(mid, users).0, Finalizers.CountVotesAfter(mid, users).1)
    case LOBBY => Restart(mid)
    case ENDED => Restart(mid)
  }

  /**
   * Every finalizer that finishes cleanly moves the stage on, with a new
   * stage id (a first tied vote excepted, which keeps the stage); only the
   * lobby and the end restart the game.
   */
  lemma FinishSpec(mid: Table, users: map<nat, User>, stage: GameStage)
    requires Masons.UsersKnown(mid.players, users)
    ensures var out := Finish(mid, users, stage);
      out.Ended? && out.err.None? ==>
        && out.t.stageId > mid.stageId
        && (stage == NIGHT ==> out.t.stage == DAY)
        && (stage == DAY ==> out.t.stage == VOTING)
        && (stage == VOTING ==> out.t.stage == NIGHT || (out.t.stage == mid.stage && out.t.numAttempts == 1))
    ensures Finish(mid, users, stage).Restart? <==> stage in {LOBBY, ENDED}
  {
    if stage == VOTING {
      CountVotesMoves(mid, users);
    }
  }

  /**
   * A resolution that stops before executing anything writes nothing;
   * one that reaches its finalizer has moved the stage on (a first tied
   * vote excepted, which keeps it), and every stage leads to the next:
   * night to day, day to voting, voting to night, lobby and end to a new game.
   */
  lemma ResolveSpec(t: Table, users: map<nat, User>, actions: seq<Action>, stage: GameStage, stageId: int, coins: nat -> bool)
    requires Masons.UsersKnown(t.players, users)
    ensures Prepare(t.players, actions, stage, stageId).Err? ==>
      Resolve(t, users, actions, stage, stageId, coins) == Ended(t, Some(Prepare(t.players, actions, stage, stageId).error))
      && Prepare(t.players, actions, stage, stageId).error in {AttributeError, TypeError, KeyError}
    ensures var out := Resolve(t, users, actions, stage, stageId, coins);
      out.Ended? && out.err.None? ==>
        && out.t.stageId > t.stageId
        && (stage == NIGHT ==> out.t.stage == DAY)
        && (stage == DAY ==> out.t.stage == VOTING)
        && (stage == VOTING ==> out.t.stage == NIGHT || (out.t.stage == t.stage && out.t.numAttempts == 1))
    ensures var out := Resolve(t, users, actions, stage, stageId, coins);
      var prep := Prepare(t.players, actions, stage, stageId);
      out.Restart? <==> (prep.Ok? && stage in {LOBBY, ENDED} &&
        RunActions(t, prep.value.acts, prep.value.players, users, prep.value.order, coins).1.None?)
  {
    var prep := Prepare(t.players, actions, stage, stageId);
    if prep.Ok? {
      ResolvePlanned(t, users, actions, stage, stageId, coins, prep.value);
      ExecuteSpec(t, users, stage, coins, prep.value);
    }
  }

  /** The executions keep the stage, so a clean finalizer moves it on from where the resolution started. */
  lemma ExecuteSpec(t: Table, users: map<nat, User>, stage: GameStage, coins: nat -> bool, plan: Plan)
    requires Masons.UsersKnown(t.players, users) && Bound(plan.acts, plan.players) && Seated(plan.players, users)
    requires forall i :: 0 <= i < |plan.order| ==> plan.order[i] < |plan.acts|
    ensures var out := Execute(t, users, stage, coins, plan);
      out.Ended? && out.err.None? ==>
        && out.t.stageId > t.stageId
        && (stage == NIGHT ==> out.t.stage == DAY)
        && (stage == DAY ==> out.t.stage == VOTING)
        && (stage == VOTING ==> out.t.stage == NIGHT || (out.t.stage == t.stage && out.t.numAttempts == 1))
    ensures Execute(t, users, stage, coins, plan).Restart? <==>
      stage in {LOBBY, ENDED} && RunActions(t, plan.acts, plan.players, users, plan.order, coins).1.None?
  {
    RunActionsKeeps(t, plan.acts, plan.players, users, plan.order, coins);
    var (mid, err) := RunActions(t, plan.acts, plan.players, users, plan.order, coins);
    if err.None? {
      FinishSpec(mid, users, stage);
    }
  }

  /** A clean vote count moves the stage id on and either ends the day or calls one revote. */
  lemma CountVotesMoves(t: Table, users: map<nat, User>)
    requires Masons.UsersKnown(t.players, users)
    ensures var (u, err) := Finalizers.CountVotesAfter(t, users);
      err.None? ==> u.stageId > t.stageId && (u.stage == NIGHT || (u.stage == t.stage && u.numAttempts == 1))
  {
    var shown := VisiblePlayers(t.players);
    match Finalizers.Decide(shown, t.numAttempts)
    case NoVoters =>
    case Revote =>
    case NoLynch =>
    case Lynch(k) =>
      assert shown[k] in t.players;
  }

  /** What a game holds after `process_actions` stopped at `out` having raised `err`. */
  ghost predicate Resolved(g: Game, out: Outcome, err: Option<Error>, users0: map<nat, User>, actions0: seq<Action>)
    reads g`players, g`messages, g`stage, g`stageId, g`numAttempts, g`users, g`actions
  {
    match out
    case Ended(t, e) => TableOf(g) == t && err == e && g.users == users0 && g.actions == actions0
    case Restart(t) => Finalizers.StartedGame(t, users0, actions0, TableOf(g), g.users, g.actions, err)
  }

  /** The shown players' rows have users, so the objects' display names can be read. */
  lemma PlanSeated(ps: seq<Player>, users: map<nat, User>, players: map<nat, GamePlayer>)
    requires Masons.UsersKnown(ps, users)
    requires forall id :: id in players ==> players[id].model in ps
    ensures Seated(players, users)
  {
  }

  /** The first half of the resolution stopped while building the objects. */
  lemma PrepareBuildFails(ps: seq<Player>, actions: seq<Action>, stage: GameStage, stageId: int, e: Error)
    requires Resolver.BuildAll(ps, Resolver.PlayerMap(VisiblePlayers(ps)), StoredFor(actions, stageId), stage) == Err(e)
    ensures Prepare(ps, actions, stage, stageId) == Err(e)
  {
  }

  /** The first half of the resolution once the objects are built, linked and sorted. */
  lemma PrepareBuilt(ps: seq<Player>, actions: seq<Action>, stage: GameStage, stageId: int, built: seq<GameAction>, players: map<nat, GamePlayer>)
    requires Resolver.BuildAll(ps, Resolver.PlayerMap(VisiblePlayers(ps)), StoredFor(actions, stageId), stage) == Ok(built)
    requires players == LinkedMap(Resolver.PlayerMap(VisiblePlayers(ps)), built)
    ensures Bound(built, players) && forall i :: 0 <= i < |Resolver.Ordered(built)| ==> Resolver.Ordered(built)[i] < |built|
    ensures var m := ModifyAll(built, players, Resolver.Ordered(built));
      Prepare(ps, actions, stage, stageId) == if m.Ok? then Ok(Plan(m.value, players, Resolver.Ordered(built))) else Err(m.error)
  {
    BuiltLinked(ps, Resolver.PlayerMap(VisiblePlayers(ps)), StoredFor(actions, stageId), stage);
    LinkedBound(built, players);
    Resolver.OrderedSpec(built);
  }

  /** The second half of the resolution, once the plan is known. */
  lemma ResolvePlanned(t: Table, users: map<nat, User>, actions: seq<Action>, stage: GameStage, stageId: int, coins: nat -> bool, plan: Plan)
    requires Masons.UsersKnown(t.players, users)
    requires Prepare(t.players, actions, stage, stageId) == Ok(plan)
    ensures Seated(plan.players, users)
    ensures Resolve(t, users, actions, stage, stageId, coins) == Execute(t, users, stage, coins, plan)
  {
    PlanSeated(t.players, users, plan.players);
  }

  /**
   * The first half of `process_actions` on a game: the objects are built
   * from the stage's stored rows, linked, sorted and modified. Nothing of
   * the game is written.
   */
  method PlanStage(g: Game, stage: GameStage, stageId: int) returns (err: Option<Error>, res: Resolver.Resolution, order: seq<nat>)
    requires g.Valid()
    ensures fresh(res)
    ensures err.Some? <==> Prepare(g.players, g.actions, stage, stageId).Err?
    ensures err.Some? ==> err.value == Prepare(g.players, g.actions, stage, stageId).error
    ensures err.None? ==> Prepare(g.players, g.actions, stage, stageId) == Ok(Plan(res.acts, res.players, order))
  {
    res := new Resolver.Resolution(VisiblePlayers(g.players));
    ghost var p0 := res.players;
    var r := res.RegisterAll(g.players, StoredFor(g.actions, stageId), stage);
    if r.Err? {
      PrepareBuildFails(g.players, g.actions, stage, stageId, r.error);
      return Some(r.error), res, [];
    }
    ghost var built := res.acts;
    LinkedIsLinkedMap(p0, res.acts, res.players);
    PrepareBuilt(g.players, g.actions, stage, stageId, built, res.players);
    LinkedBound(res.acts, res.players);
    order := Resolver.Ordered(res.acts);
    r := res.ModifyInOrder(order);
    err := if r.Err? then Some(r.error) else None;
  }

  /** `process_actions` of the resolver on a game. */
  method ResolveStage(g: Game, stage: GameStage, stageId: int, coins: nat -> bool, draws: Distribution.Draws) returns (err: Option<Error>)
    requires g.Valid()
    modifies g
    ensures g.Valid()
    ensures Resolved(g, Resolve(old(TableOf(g)), old(g.users), old(g.actions), stage, stageId, coins), err, old(g.users), old(g.actions))
  {
    ghost var t0, users0, actions0 := TableOf(g), g.users, g.actions;
    var res, order;
    err, res, order := PlanStage(g, stage, stageId);
    if err.Some? {
      return;
    }
    ResolvePlanned(t0, users0, actions0, stage, stageId, coins, Plan(res.acts, res.players, order));
    err := ExecuteStage(g, res, order, stage, coins, draws);
  }

  /** The planned actions executed in order on a game, then the finalizer: the game is left as `Execute` says. */
  method ExecuteStage(g: Game, res: Resolver.Resolution, order: seq<nat>, stage: GameStage, coins: nat -> bool, draws: Distribution.Draws)
    returns (err: Option<Error>)
    requires g.Valid() && Bound(res.acts, res.players) && Seated(res.players, g.users)
    requires forall i :: 0 <= i < |order| ==> order[i] < |res.acts|
    modifies g
    ensures g.Valid()
    ensures Resolved(g, Execute(old(TableOf(g)), old(g.users), stage, coins, Plan(res.acts, res.players, order)), err, old(g.users), old(g.actions))
  {
    err := ExecuteAll(g, res, order, coins);
    if err.Some? {
      return;
    }
    err := FinishStage(g, stage, draws);
  }

  /** The finalizer of the stage on a game: the game is left as `Finish` says. */
  method FinishStage(g: Game, stage: GameStage, draws: Distribution.Draws) returns (err: Option<Error>)
    requires g.Valid()
    modifies g
    ensures g.Valid()
    ensures Resolved(g, Finish(old(TableOf(g)), old(g.users), stage), err, old(g.users), old(g.actions))
  {
    err := Finalizers.Finalize(g, stage, draws);
  }

  // ---------------------------------------------------------------------
  // The readiness loop of backend/game.py
  // ---------------------------------------------------------------------

  /**
   * A shown player holding up the stage: its role acts in this stage,
   * the action is not optional, and the player has it and may still take it.
   */
  predicate Waiting(ps: seq<Player>, acts: seq<Action>, p: Player, stage: GameStage, stageId: int)
  {
    match RoleAction(p.role, stage)
    case None => false
    case Some(k) => !IsOptional(k) && PlayerHasAction(ps, acts, p, stage, stageId) == (true, true)
  }

  /** Nobody shown is still to act. */
  predicate Ready(ps: seq<Player>, acts: seq<Action>, stage: GameStage, stageId: int)
  {
    forall i :: 0 <= i < |VisiblePlayers(ps)| ==> !Waiting(ps, acts, VisiblePlayers(ps)[i], stage, stageId)
  }

  /**
   * A player waits exactly when its role's action for the stage is
   * required, open to its state, available to it, and it has stored no
   * action with this stage id.
   */
  lemma WaitingSpec(ps: seq<Player>, acts: seq<Action>, p: Player, stage: GameStage, stageId: int)
    ensures Waiting(ps, acts, p, stage, stageId) <==>
      && RoleAction(p.role, stage).Some?
      && !IsOptional(RoleAction(p.role, stage).value)
      && AllowsState(RoleAction(p.role, stage).value, p.state)
      && IsActionAvailable(RoleAction(p.role, stage).value, ps, acts, p.id)
      && !ActedInStage(acts, p.id, stageId)
  {
    if RoleAction(p.role, stage).Some? {
      UnusedBranches(RoleAction(p.role, stage).value);
    }
  }

  /**
   * `process_actions` of the game: the shown players are checked in
   * order and the first still to act stops the check; only when nobody
   * is does the resolution run.
   */
  method ProcessActions(g: Game, stage: GameStage, stageId: int, coins: nat -> bool, draws: Distribution.Draws) returns (ready: bool, err: Option<Error>)
    requires g.Valid()
    modifies g
    ensures g.Valid()
    ensures ready <==> Ready(old(g.players), old(g.actions), stage, stageId)
    ensures !ready ==> err.None? && unchanged(g)
    ensures ready ==> Resolved(g, Resolve(old(TableOf(g)), old(g.users), old(g.actions), stage, stageId, coins), err, old(g.users), old(g.actions))
  {
    ready := AllActed(g.players, g.actions, stage, stageId);
    if !ready {
      return false, None;
    }
    err := ResolveStage(g, stage, stageId, coins, draws);
  }

  /**
   * The readiness loop of `process_actions`: the shown players are
   * checked in order, and the first one still to act ends the check.
   */
  method AllActed(ps: seq<Player>, acts: seq<Action>, stage: GameStage, stageId: int) returns (ready: bool)
    ensures ready <==> Ready(ps, acts, stage, stageId)
  {
    var shown := VisiblePlayers(ps);
    ready := true;
    var i := 0;
    while i < |shown|
      invariant 0 <= i <= |shown|
      invariant forall j :: 0 <= j < i ==> !Waiting(ps, acts, shown[j], stage, stageId)
    {
      var p := shown[i];
      var kind := RoleAction(p.role, stage);
      if kind.Some? && !IsOptional(kind.value) {
        var (has, enabled) := PlayerHasAction(ps, acts, p, stage, stageId);
        if has && enabled {
          return false;
        }
      }
      i := i + 1;
    }
  }

  /** Storing a row of this stage id for a waiting player makes it stop waiting. */
  lemma ActingEndsWaiting(ps: seq<Player>, acts: seq<Action>, p: Player, stage: GameStage, a: Action)
    requires a.playerId == p.id
    ensures !Waiting(ps, acts + [a], p, stage, a.stageId)
  {
    WaitingSpec(ps, acts + [a], p, stage, a.stageId);
    assert (acts + [a])[|acts|] == a;
  }

  // ---------------------------------------------------------------------
  // player_keepalive
  // ---------------------------------------------------------------------

  const NotRegistered: string := "You are not registered: refreshing now to join game"

  /** Every row flipped against the threshold. */
  function FlipAll(ps: seq<Player>, threshold: int): (r: seq<Player>)
    ensures |r| == |ps| && forall i :: 0 <= i < |ps| ==> r[i] == Flipped(ps[i], threshold)
  {
    seq(|ps|, i requires 0 <= i < |ps| => Flipped(ps[i], threshold))
  }

  /**
   * After the flip a row is active exactly when it was seen after the
   * threshold, and flipping again changes nothing.
   */
  lemma FlipAllSpec(ps: seq<Player>, threshold: int)
    ensures forall i :: 0 <= i < |ps| ==> (FlipAll(ps, threshold)[i].active <==> ps[i].lastSeen > threshold)
    ensures FlipAll(FlipAll(ps, threshold), threshold) == FlipAll(ps, threshold)
    ensures SameIdentities(FlipAll(ps, threshold), ps)
  {
    forall i | 0 <= i < |ps|
      ensures (FlipAll(ps, threshold)[i].active <==> ps[i].lastSeen > threshold)
      ensures Flipped(FlipAll(ps, threshold)[i], threshold) == FlipAll(ps, threshold)[i]
    {
      FlippedSpec(ps[i], threshold);
      FlippedSpec(FlipAll(ps, threshold)[i], threshold);
    }
  }

  /** The rows after `player_keepalive` saw row `k` now and flipped every row. */
  function Refreshed(ps: seq<Player>, k: nat, now: int): seq<Player>
    requires k < |ps|
  {
    FlipAll(ps[k := ps[k].(lastSeen := now)], now - SpectatorTimeout)
  }

  /**
   * The writes of `player_keepalive` before the resolution: row `k` is
   * seen now and every row flipped; `changed` says whether the flip
   * changed any row.
   */
  method Refresh(g: Game, k: nat, now: int) returns (changed: bool)
    requires g.Valid() && k < |g.players|
    modifies g`players
    ensures g.Valid()
    ensures g.players == Refreshed(old(g.players), k, now)
    ensures changed <==> g.players != old(g.players)[k := old(g.players)[k].(lastSeen := now)]
  {
    g.players := g.players[k := g.players[k].(lastSeen := now)];
    assert SameIdentities(old(g.players), g.players);
    SameIdentitiesValid(old(g.players), g.players, g.users);
    ghost var seen := g.players;
    changed := g.FlipActivity(now - SpectatorTimeout);
    assert g.players == FlipAll(seen, now - SpectatorTimeout);
  }

  /**
   * `player_keepalive`: a user without a row in the game, shown or not,
   * gets a 404 and nothing changes. Otherwise the row is seen now, every
   * row is flipped against now minus the spectator timeout, and only when
   * the flip changed some row is the game touched and `process_actions`
   * run for the current stage.
   */
  method PlayerKeepalive(g: Game, uid: nat, now: int, coins: nat -> bool, draws: Distribution.Draws) returns (err: Option<Error>)
    requires g.Valid()
    modifies g
    ensures g.Valid()
    ensures PlayerIndexByUser(old(g.players), uid, false).None? ==> err == Some(Http(404, NotRegistered)) && unchanged(g)
    ensures PlayerIndexByUser(old(g.players), uid, false).Some? ==>
      var k := PlayerIndexByUser(old(g.players), uid, false).value;
      var flipped := Refreshed(old(g.players), k, now);
      var t := old(TableOf(g)).(players := flipped);
      var changed := flipped != old(g.players)[k := old(g.players)[k].(lastSeen := now)];
      && (!changed ==> err.None? && TableOf(g) == t && g.actions == old(g.actions) && g.updateTag == old(g.updateTag))
      && (changed && !Ready(flipped, old(g.actions), old(g.stage), old(g.stageId)) ==>
        err.None? && TableOf(g) == t && g.actions == old(g.actions) && g.updateTag == old(g.updateTag) + 1)
      && (changed && Ready(flipped, old(g.actions), old(g.stage), old(g.stageId)) ==>
        Resolved(g, Resolve(t, old(g.users), old(g.actions), old(g.stage), old(g.stageId), coins), err, old(g.users), old(g.actions)))
  {
    var k := PlayerIndexByUser(g.players, uid, false);
    if k.None? {
      return Some(Http(404, NotRegistered));
    }
    ghost var t0, users0, actions0 := TableOf(g), g.users, g.actions;
    var changed := Refresh(g, k.value, now);
    ghost var t := t0.(players := g.players);
    assert TableOf(g) == t;
    if changed {
      g.Touch();
      assert TableOf(g) == t && g.users == users0 && g.actions == actions0;
      var _, e := ProcessActions(g, g.stage, g.stageId, coins, draws);
      err := e;
    } else {
      err := None;
    }
  }
}
