// What each role's action class does once the modifiers have run
// (`execute`, backend/roles/*.py) and when it is submitted (`immediate`).
// Both are decisions over the action's flags and the players' rows; their
// writes to the game are returned as a list of effects, in the order the
// source performs them, and the resolver plays them back on the game.

module RoleRules {
  import opened Types
  import opened Roles
  import opened GameActions
  import GameState
  import Seqs

  /** One write to the game: a chat message, a kill, or a vote. */
  datatype Effect =
    | Say(text: string, isStrong: bool, visibleTo: seq<nat>)
    | Kill(pid: nat, state: PlayerState)
    | Vote(pid: nat)

  /** A game player as `execute` reads it: the player row and its user's display name. */
  datatype Seat = Seat(player: Player, name: string)

  /** The ids of the players the effects kill, in order. */
  function Victims(es: seq<Effect>): (v: seq<nat>)
    ensures |v| <= |es|
    ensures forall pid :: pid in v <==> exists st :: Kill(pid, st) in es
  {
    if |es| == 0 then []
    else
      var rest := Victims(es[1..]);
      assert forall e :: e in es <==> e == es[0] || e in es[1..];
      (if es[0].Kill? then [es[0].pid] else []) + rest
  }

  /** The ids of the players the effects vote for, in order. */
  function Voted(es: seq<Effect>): (v: seq<nat>)
    ensures |v| <= |es|
    ensures forall pid :: pid in v <==> Vote(pid) in es
  {
    if |es| == 0 then []
    else
      var rest := Voted(es[1..]);
      assert forall e :: e in es <==> e == es[0] || e in es[1..];
      (if es[0].Vote? then [es[0].pid] else []) + rest
  }

  /** What the counts see of a two-effect list. */
  lemma CountPair(e1: Effect, e2: Effect)
    ensures Victims([e1, e2]) == (if e1.Kill? then [e1.pid] else []) + (if e2.Kill? then [e2.pid] else [])
    ensures Voted([e1, e2]) == (if e1.Vote? then [e1.pid] else []) + (if e2.Vote? then [e2.pid] else [])
    ensures Messages([e1, e2]) == (if e1.Say? then 1 else 0) + (if e2.Say? then 1 else 0)
  {
    assert [e1, e2][1..] == [e2];
    assert [e2][1..] == [];
    assert Victims([e2]) == (if e2.Kill? then [e2.pid] else []) + Victims([]);
    assert Voted([e2]) == (if e2.Vote? then [e2.pid] else []) + Voted([]);
    assert Messages([e2]) == (if e2.Say? then 1 else 0) + Messages([]);
  }

  /** Every message among the effects can be read by exactly `readers` (empty: everybody). */
  predicate SaysTo(es: seq<Effect>, readers: seq<nat>)
  {
    forall i :: 0 <= i < |es| && es[i].Say? ==> es[i].visibleTo == readers
  }

  /** The number of messages among the effects. */
  function Messages(es: seq<Effect>): nat
  {
    if |es| == 0 then 0 else (if es[0].Say? then 1 else 0) + Messages(es[1..])
  }

  // ---------------------------------------------------------------------
  // The seer's and the fool's check
  // ---------------------------------------------------------------------

  /** The four answers a check can give. */
  datatype Verdict = Distracted | Interrupted | SeesWolf | SeesNoWolf

  /**
   * The if/elif chain of both checks: a prevented check comes first, then
   * an attack on the checker, then the wolf test.
   */
  function CheckVerdict(g: GameAction, looksLikeWolf: bool): (v: Verdict)
    ensures v == Distracted <==> g.prevented
    ensures v == Interrupted <==> !g.prevented && g.originatorAttackedByWolf
    ensures v == SeesWolf <==> !g.prevented && !g.originatorAttackedByWolf && looksLikeWolf
  {
    if g.prevented then Distracted
    else if g.originatorAttackedByWolf then Interrupted
    else if looksLikeWolf then SeesWolf
    else SeesNoWolf
  }

  function CheckText(v: Verdict, name: string): string
  {
    match v
    case Distracted => "You tried to check " + name + " but you couldn't concentrate"
    case Interrupted => "You checked " + name + " but were rudely interrupted"
    case SeesWolf => "You checked " + name + "... they are a wolf!"
    case SeesNoWolf => "You checked " + name + "... they are not a wolf"
  }

  /** The checker can tell every answer apart, whatever the target is called. */
  lemma CheckTextsDistinct(v1: Verdict, v2: Verdict, name: string)
    requires v1 != v2
    ensures CheckText(v1, name) != CheckText(v2, name)
  {
    var n := |name|;
    var t1, t2 := CheckText(v1, name), CheckText(v2, name);
    if v1 == Distracted || v2 == Distracted {
      assert t1[4] != t2[4];
    } else if v1 == Interrupted || v2 == Interrupted {
      assert t1[12 + n] != t2[12 + n];
    } else {
      assert t1[12 + n + 13] != t2[12 + n + 13];
    }
  }

  /** The seer's wolf test: the target's team is the wolves', or the target is the miller. */
  predicate SeerSeesWolf(target: Player)
  {
    RoleTeam(target.role) == WOLVES || target.role == MILLER
  }

  /** A check's one message: strong, and for the checker's eyes only. */
  function CheckMessage(g: GameAction, origin: Seat, t: Seat, looksLikeWolf: bool): Effect
  {
    Say(CheckText(CheckVerdict(g, looksLikeWolf), t.name), true, [origin.player.id])
  }

  // ---------------------------------------------------------------------
  // The execute step of each class
  // ---------------------------------------------------------------------

  /** The classes whose `execute` reads the target's name first. */
  predicate NeedsTarget(k: ActionKind)
  {
    k in {WolfKill, SeerCheck, FoolCheck, ExorcistExorcise, VigilanteShoot, PriestCheck, MayorVote}
  }

  function WolfExecute(g: GameAction, t: Seat): seq<Effect>
  {
    if !g.targetSavedByMedic then [Say(t.name + " was brutally murdered", true, []), Kill(t.player.id, WOLFED)]
    else []
  }

  function ExorcistExecute(origin: Seat, t: Seat): seq<Effect>
  {
    if RoleTeam(t.player.role) == WOLVES then
      [Say("You chose... wisely!", true, [origin.player.id]), Kill(t.player.id, WOLFED)]
    else
      [Say("You chose... poorly!", true, [origin.player.id]), Kill(origin.player.id, WOLFED)]
  }

  function VigilanteExecute(g: GameAction, t: Seat): seq<Effect>
  {
    if !g.targetSavedByMedic && !g.prevented then [Say(t.name + " was shot", true, []), Kill(t.player.id, SHOT)]
    else []
  }

  /** The priest's reveal; a target that never had a role is a RuntimeError. */
  function PriestExecute(g: GameAction, origin: Seat, t: Seat): Result<seq<Effect>>
  {
    if g.prevented then
      Ok([Say("You think hard about " + t.name + " but you just can't remember. Maybe something is distracting you...",
              true, [origin.player.id])])
    else if t.player.previousRole.None? then Err(RuntimeError)
    else Ok([Say("You remember that " + t.name + " was a " + RoleValue(t.player.previousRole.value), true, [origin.player.id])])
  }

  function MayorVoteExecute(t: Seat): seq<Effect>
  {
    [Say("The mayor has executed " + t.name, false, []), Vote(t.player.id)]
  }

  /**
   * `execute` of the action's class. `target` is None when the action
   * selected nobody; reading its name is then an AttributeError.
   * `foolSaysWolf` is the fool's coin flip.
   */
  function Execute(g: GameAction, origin: Seat, target: Option<Seat>, foolSaysWolf: bool): (r: Result<seq<Effect>>)
    ensures r.Err? ==> r.error in {AttributeError, RuntimeError}
    ensures r.Ok? ==> |Victims(r.value)| <= 1
  {
    if !NeedsTarget(g.kind) then Ok([])
    else if target.None? then Err(AttributeError)
    else
      var t := target.value;
      match g.kind
      case WolfKill => Ok(WolfExecute(g, t))
      case SeerCheck => Ok([CheckMessage(g, origin, t, SeerSeesWolf(t.player))])
      case FoolCheck => Ok([CheckMessage(g, origin, t, foolSaysWolf)])
      case ExorcistExorcise => Ok(ExorcistExecute(origin, t))
      case VigilanteShoot => Ok(VigilanteExecute(g, t))
      case PriestCheck => PriestExecute(g, origin, t)
      case MayorVote => Ok(MayorVoteExecute(t))
  }

  /**
   * Every class that reads its target fails without one; the medic's, the
   * prostitute's and both move-to-vote classes do nothing at this step.
   */
  lemma ExecuteTargetless(g: GameAction, origin: Seat, target: Option<Seat>, b: bool)
    ensures NeedsTarget(g.kind) && target.None? ==> Execute(g, origin, target, b) == Err(AttributeError)
    ensures g.kind in {MedicSave, ProstituteSleep, MayorMoveToVote, NarratorMoveToVote} ==> Execute(g, origin, target, b) == Ok([])
  {
  }

  /**
   * The wolves kill their target, with a strong public message, exactly
   * when the medic did not save it; nobody else dies.
   */
  lemma WolfKillsUnlessSaved(g: GameAction, origin: Seat, t: Seat, b: bool)
    requires g.kind == WolfKill
    ensures var r := Execute(g, origin, Some(t), b);
      && r.Ok?
      && Victims(r.value) == (if g.targetSavedByMedic then [] else [t.player.id])
      && (!g.targetSavedByMedic ==> Kill(t.player.id, WOLFED) in r.value)
      && SaysTo(r.value, []) && Messages(r.value) == |Victims(r.value)|
  {
    var r := Execute(g, origin, Some(t), b).value;
    if !g.targetSavedByMedic {
      CountPair(r[0], r[1]);
    }
  }

  /**
   * The seer sends exactly one strong message, to the seer alone, killing
   * nobody; its verdict is the chain's answer for the target's real team
   * (or millerhood), and the coin plays no part.
   */
  lemma SeerSendsOneVerdict(g: GameAction, origin: Seat, t: Seat, b1: bool, b2: bool)
    requires g.kind == SeerCheck
    ensures var r := Execute(g, origin, Some(t), b1);
      && r == Execute(g, origin, Some(t), b2)
      && r.Ok? && |r.value| == 1 && Victims(r.value) == [] && SaysTo(r.value, [origin.player.id])
      && r.value[0].isStrong
      && r.value[0].text == CheckText(CheckVerdict(g, SeerSeesWolf(t.player)), t.name)
  {
  }

  /**
   * A seer that is neither prevented nor attacked learns exactly whether
   * the target is on the wolves' team or is the miller.
   */
  lemma SeerTellsWolves(g: GameAction, origin: Seat, t: Seat, b: bool)
    requires g.kind == SeerCheck && !g.prevented && !g.originatorAttackedByWolf
    ensures Execute(g, origin, Some(t), b).value[0].text == "You checked " + t.name + "... they are a wolf!"
      <==> RoleTeam(t.player.role) == WOLVES || t.player.role == MILLER
  {
    var v := CheckVerdict(g, SeerSeesWolf(t.player));
    if v != SeesWolf {
      CheckTextsDistinct(v, SeesWolf, t.name);
    }
  }

  /**
   * The fool's verdict is the coin's: swapping the target's role for any
   * other changes nothing, and, when the check goes through, a different
   * coin gives a different message.
   */
  lemma FoolIgnoresRole(g: GameAction, origin: Seat, t: Seat, role: PlayerRole, b: bool)
    requires g.kind == FoolCheck
    ensures Execute(g, origin, Some(t), b) == Execute(g, origin, Some(t.(player := t.player.(role := role))), b)
    ensures !g.prevented && !g.originatorAttackedByWolf ==>
      Execute(g, origin, Some(t), b) != Execute(g, origin, Some(t), !b)
    ensures var r := Execute(g, origin, Some(t), b);
      r.Ok? && |r.value| == 1 && Victims(r.value) == [] && SaysTo(r.value, [origin.player.id]) && r.value[0].isStrong
  {
    if !g.prevented && !g.originatorAttackedByWolf {
      CheckTextsDistinct(SeesWolf, SeesNoWolf, t.name);
      assert Execute(g, origin, Some(t), b).value[0].text != Execute(g, origin, Some(t), !b).value[0].text;
    }
  }

  /**
   * The exorcist kills exactly one player as WOLFED: the target if it is
   * on the wolves' team, the exorcist otherwise; the action's flags play
   * no part, and the one message goes to the exorcist alone.
   */
  lemma ExorcistKillsOne(g: GameAction, h: GameAction, origin: Seat, t: Seat, b: bool)
    requires g.kind == ExorcistExorcise && h.kind == ExorcistExorcise
    ensures var r := Execute(g, origin, Some(t), b);
      && r == Execute(h, origin, Some(t), b)
      && r.Ok?
      && Victims(r.value) == [if RoleTeam(t.player.role) == WOLVES then t.player.id else origin.player.id]
      && Kill(Victims(r.value)[0], WOLFED) in r.value
      && SaysTo(r.value, [origin.player.id]) && Messages(r.value) == 1
  {
    var r := Execute(g, origin, Some(t), b).value;
    CountPair(r[0], r[1]);
  }

  /** The vigilante's shot kills the target as SHOT exactly when it is neither saved nor prevented. */
  lemma VigilanteShotLands(g: GameAction, origin: Seat, t: Seat, b: bool)
    requires g.kind == VigilanteShoot
    ensures var r := Execute(g, origin, Some(t), b);
      && r.Ok?
      && (Victims(r.value) == [t.player.id] <==> !g.targetSavedByMedic && !g.prevented)
      && (Victims(r.value) == [] <==> g.targetSavedByMedic || g.prevented)
      && (Victims(r.value) != [] ==> Kill(t.player.id, SHOT) in r.value)
      && SaysTo(r.value, [])
  {
  }

  /**
   * A prevented priest learns nothing; otherwise a target without a
   * previous role is an error, and one with a previous role has it
   * revealed to the priest alone. Nobody dies.
   */
  lemma PriestReveals(g: GameAction, origin: Seat, t: Seat, b: bool)
    requires g.kind == PriestCheck
    ensures var r := Execute(g, origin, Some(t), b);
      && (g.prevented ==>
            (r.Ok? && |r.value| == 1
             && forall role :: r.value[0].text != "You remember that " + t.name + " was a " + RoleValue(role)))
      && (!g.prevented && t.player.previousRole.None? ==> r == Err(RuntimeError))
      && (!g.prevented && t.player.previousRole.Some? ==>
            r.Ok? && r.value == [Say("You remember that " + t.name + " was a " + RoleValue(t.player.previousRole.value), true, [origin.player.id])])
      && (r.Ok? ==> Victims(r.value) == [] && SaysTo(r.value, [origin.player.id]))
  {
    var r := Execute(g, origin, Some(t), b);
    assert r == PriestExecute(g, origin, t);
    if g.prevented {
      var s := "You think hard about " + t.name + " but you just can't remember. Maybe something is distracting you...";
      assert r == Ok([Say(s, true, [origin.player.id])]);
      forall role: PlayerRole
        ensures s != "You remember that " + t.name + " was a " + RoleValue(role)
      {
        assert s[4] == 't';
        assert ("You remember that " + t.name + " was a " + RoleValue(role))[4] == 'r';
      }
    }
  }

  /** The mayor's vote posts one public message and records exactly one vote, for the target. */
  lemma MayorVotesOnce(g: GameAction, origin: Seat, t: Seat, b: bool)
    requires g.kind == MayorVote
    ensures var r := Execute(g, origin, Some(t), b);
      r.Ok? && Voted(r.value) == [t.player.id] && Victims(r.value) == [] && SaysTo(r.value, []) && Messages(r.value) == 1
  {
    var r := Execute(g, origin, Some(t), b).value;
    CountPair(r[0], r[1]);
  }

  // ---------------------------------------------------------------------
  // The immediate step of each class
  // ---------------------------------------------------------------------

  /**
   * Action `k` is the head of the list sorted by stage id in reverse: the
   * highest stage id, and the earliest such action (the sort is stable).
   */
  predicate IsMostRecent(acts: seq<Action>, k: nat)
  {
    && k < |acts|
    && (forall j :: 0 <= j < |acts| ==> acts[j].stageId <= acts[k].stageId)
    && (forall j :: 0 <= j < k ==> acts[j].stageId < acts[k].stageId)
  }

  /** The most recent of a non-empty list of actions. */
  function MostRecent(acts: seq<Action>): (k: nat)
    requires |acts| > 0
    ensures IsMostRecent(acts, k)
  {
    if |acts| == 1 then 0
    else
      var k := MostRecent(acts[..|acts| - 1]);
      if acts[|acts| - 1].stageId > acts[k].stageId then |acts| - 1 else k
  }

  /** Only one action of a list is the most recent. */
  lemma MostRecentUnique(acts: seq<Action>, k: nat, m: nat)
    requires IsMostRecent(acts, k) && IsMostRecent(acts, m)
    ensures k == m
  {
    assert acts[k].stageId == acts[m].stageId;
  }

  /** `get_player_id`: the first player row of the user, shown or not; none is a KeyError. */
  function PlayerIdOf(ps: seq<Player>, uid: Option<nat>): (r: Result<nat>)
    ensures r.Err? <==> uid.None? || GameState.PlayerIndexByUser(ps, uid.value, false).None?
    ensures r.Err? ==> r.error == KeyError
  {
    if uid.None? then Err(KeyError)
    else match GameState.PlayerIndexByUser(ps, uid.value, false)
      case None => Err(KeyError)
      case Some(i) => Ok(ps[i].id)
  }

  const SameTwice := "You can't save the same person twice in a row"

  /**
   * `MedicAction.immediate`: the medic may not select the player its most
   * recent stored night action selected.
   */
  function MedicImmediate(ps: seq<Player>, acts: seq<Action>, uid: nat, selected: Option<nat>): (r: Result<()>)
  {
    match PlayerIdOf(ps, Some(uid))
    case Err(e) => Err(e)
    case Ok(me) =>
      match PlayerIdOf(ps, selected)
      case Err(e) => Err(e)
      case Ok(sel) =>
        var mine := GameState.ActionsFilter(acts, None, Some(me), Some(NIGHT), false);
        if mine == [] then Ok(())
        else if mine[MostRecent(mine)].selectedPlayerId == Some(sel) then Err(Http(403, SameTwice))
        else Ok(())
  }

  /** The medic's stored night actions, as its `immediate` fetches them. */
  function MedicNights(ps: seq<Player>, acts: seq<Action>, uid: nat): seq<Action>
    requires PlayerIdOf(ps, Some(uid)).Ok?
  {
    GameState.ActionsFilter(acts, None, Some(PlayerIdOf(ps, Some(uid)).value), Some(NIGHT), false)
  }

  /**
   * Once both players are known, the medic is refused exactly when the
   * most recent of its stored night actions chose the same player; a
   * medic with no stored night action is always accepted.
   */
  lemma MedicImmediateSpec(ps: seq<Player>, acts: seq<Action>, uid: nat, sel: nat)
    requires PlayerIdOf(ps, Some(uid)).Ok? && PlayerIdOf(ps, Some(sel)).Ok?
    ensures var mine := MedicNights(ps, acts, uid);
      var r := MedicImmediate(ps, acts, uid, Some(sel));
      && (mine == [] ==> r == Ok(()))
      && (r.Err? <==> exists k: nat :: IsMostRecent(mine, k) && mine[k].selectedPlayerId == Some(PlayerIdOf(ps, Some(sel)).value))
      && (r.Err? ==> r.error == Http(403, SameTwice))
  {
    var mine := MedicNights(ps, acts, uid);
    if mine != [] {
      var m := MostRecent(mine);
      forall k | IsMostRecent(mine, k)
        ensures k == m
      {
        MostRecentUnique(mine, k, m);
      }
    }
  }

  /**
   * Actions stored without a stage are not night actions to the medic's
   * check: when no stored action has a stage, the medic is never refused.
   */
  lemma MedicIgnoresUnstagedActions(ps: seq<Player>, acts: seq<Action>, uid: nat, sel: nat)
    requires PlayerIdOf(ps, Some(uid)).Ok? && PlayerIdOf(ps, Some(sel)).Ok?
    requires forall i :: 0 <= i < |acts| ==> acts[i].stage.None?
    ensures MedicNights(ps, acts, uid) == []
    ensures MedicImmediate(ps, acts, uid, Some(sel)) == Ok(())
  {
    var mine := MedicNights(ps, acts, uid);
    Seqs.FilterNone((a: Action) => GameState.ActionMatches(a, None, Some(PlayerIdOf(ps, Some(uid)).value), Some(NIGHT), false), acts);
  }

  const MustHaveDied := "Your target must have died"

  /**
   * `PriestCheckRole.immediate`: the selected user's shown player must be
   * dead; no such player is an AttributeError.
   */
  function PriestImmediate(ps: seq<Player>, selected: Option<nat>): (r: Result<()>)
    ensures r.Ok? <==>
      (selected.Some? && GameState.PlayerIndexByUser(ps, selected.value, true).Some?
       && IsDead(ps[GameState.PlayerIndexByUser(ps, selected.value, true).value].state))
    ensures r.Err? ==> r.error in {AttributeError, Http(403, MustHaveDied)}
  {
    if selected.None? then Err(AttributeError)
    else match GameState.PlayerIndexByUser(ps, selected.value, true)
      case None => Err(AttributeError)
      case Some(i) => if !IsDead(ps[i].state) then Err(Http(403, MustHaveDied)) else Ok(())
  }

  /**
   * `immediate` of the action's class, with the messages it posts. The
   * classes without their own `immediate` accept and post nothing.
   */
  function Immediate(k: ActionKind, ps: seq<Player>, acts: seq<Action>, uid: nat, selected: Option<nat>): (r: Result<seq<Effect>>)
    ensures r.Ok? ==> Victims(r.value) == [] && Voted(r.value) == [] && SaysTo(r.value, []) && Messages(r.value) <= 1
  {
    match k
    case MedicSave =>
      (match MedicImmediate(ps, acts, uid, selected)
       case Err(e) => Err(e)
       case Ok(_) => Ok([]))
    case VigilanteShoot => Ok([Say("BANG!!!", true, [])])
    case PriestCheck =>
      (match PriestImmediate(ps, selected)
       case Err(e) => Err(e)
       case Ok(_) => Ok([]))
    case MayorMoveToVote => Ok([Say("The mayor started the lynching session", false, [])])
    case NarratorMoveToVote => Ok([Say("The narrator started the voting session", false, [])])
    case _ => Ok([])
  }

  /**
   * Only the medic and the priest can refuse an action at submission;
   * the vigilante, the mayor and the narrator announce theirs with one
   * public message, the vigilante's strong.
   */
  lemma ImmediateOutcomes(k: ActionKind, ps: seq<Player>, acts: seq<Action>, uid: nat, selected: Option<nat>)
    ensures Immediate(k, ps, acts, uid, selected).Err? ==> k in {MedicSave, PriestCheck}
    ensures k == VigilanteShoot ==> Immediate(k, ps, acts, uid, selected) == Ok([Say("BANG!!!", true, [])])
    ensures k in {MayorMoveToVote, NarratorMoveToVote} ==>
      var r := Immediate(k, ps, acts, uid, selected);
      r.Ok? && Messages(r.value) == 1 && !r.value[0].isStrong
  {
  }
}
