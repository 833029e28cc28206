// The role table of the backend: which action class each role plays in each
// stage, the class attributes the game and the resolver read off those
// classes (priority, round-end behaviour, team behaviour, allowed states,
// availability rule), the teams, the modifier registry that mixins fill in
// when their subclasses are created, and the names the registration module
// derives for handlers.

module Roles {
  import opened Types
  import Text

  /** One constructor per concrete GameAction subclass of the role files. */
  datatype ActionKind =
    | MedicSave | ProstituteSleep | WolfKill | SeerCheck | FoolCheck | ExorcistExorcise
    | VigilanteShoot | PriestCheck | MayorMoveToVote | MayorVote | NarratorMoveToVote

  datatype RoundEndBehaviour = ONCE_REQUIRED | ONCE_OPTIONAL | MULTIPLE_OPTIONAL

  /**
   * Values a class's `team_action` attribute takes. The wolves' class sets
   * the attribute to the plain boolean True rather than to a member of the
   * enumeration, which is `BooleanTrue` here.
   */
  datatype TeamBehaviour = ONCE_PER_PLAYER | ONCE_PER_TEAM | DUPLICATED_PER_ROLE | BooleanTrue

  /** Which `is_action_available` a class inherits. */
  datatype Availability = AlwaysAvailable | OncePerGame

  datatype ModifierType =
    | TARGETTING_TARGET | ORIGINATING_FROM_TARGET | TARGETTING_ORIGINATOR | ORIGINATING_FROM_ORIGINATOR

  /** `list(ModifierType)`: the members in declaration order. */
  const ModifierTypes: seq<ModifierType> :=
    [TARGETTING_TARGET, ORIGINATING_FROM_TARGET, TARGETTING_ORIGINATOR, ORIGINATING_FROM_ORIGINATOR]

  /**
   * A mixin class that can be registered as a modifier: the medic's and
   * the prostitute's mixins, or a concrete action class (the wolves' mixin
   * registers each of its subclasses under its own class).
   */
  datatype Mixin = AffectedByMedic | AffectedByProstitute | ClassMixin(kind: ActionKind)

  /** The action class a role plays in a stage, if any (`get_role_action`). */
  function RoleAction(role: PlayerRole, stage: GameStage): Option<ActionKind>
  {
    match (role, stage)
    case (MEDIC, NIGHT) => Some(MedicSave)
    case (PROSTITUTE, NIGHT) => Some(ProstituteSleep)
    case (WOLF, NIGHT) => Some(WolfKill)
    case (SEER, NIGHT) => Some(SeerCheck)
    case (FOOL, NIGHT) => Some(FoolCheck)
    case (EXORCIST, NIGHT) => Some(ExorcistExorcise)
    case (VIGILANTE, NIGHT) => Some(VigilanteShoot)
    case (PRIEST, NIGHT) => Some(PriestCheck)
    case (MAYOR, DAY) => Some(MayorMoveToVote)
    case (MAYOR, VOTING) => Some(MayorVote)
    case (NARRATOR, DAY) => Some(NarratorMoveToVote)
    case _ => None
  }

  /** The stage an action class is registered for, and the role registering it. */
  function HomeOf(k: ActionKind): (PlayerRole, GameStage)
  {
    match k
    case MedicSave => (MEDIC, NIGHT)
    case ProstituteSleep => (PROSTITUTE, NIGHT)
    case WolfKill => (WOLF, NIGHT)
    case SeerCheck => (SEER, NIGHT)
    case FoolCheck => (FOOL, NIGHT)
    case ExorcistExorcise => (EXORCIST, NIGHT)
    case VigilanteShoot => (VIGILANTE, NIGHT)
    case PriestCheck => (PRIEST, NIGHT)
    case MayorMoveToVote => (MAYOR, DAY)
    case MayorVote => (MAYOR, VOTING)
    case NarratorMoveToVote => (NARRATOR, DAY)
  }

  /**
   * Each action class is registered by exactly one role for exactly one
   * stage: the table and its inverse agree in both directions.
   */
  lemma RoleActionInverse(role: PlayerRole, stage: GameStage, k: ActionKind)
    ensures RoleAction(role, stage) == Some(k) <==> HomeOf(k) == (role, stage)
  {
  }

  /** A role "has a night action" when it registers an action class for the night. */
  predicate HasNightAction(role: PlayerRole)
  {
    RoleAction(role, NIGHT).Some?
  }

  /**
   * The `priority` attribute, found along each class's method resolution
   * order: classes that list a medic-affected mixin before GameAction
   * inherit the mixin's 1; the wolves' class lists GameAction first and so
   * keeps its 0.
   */
  function Priority(k: ActionKind): (p: int)
    ensures p == 1 <==> k in {SeerCheck, FoolCheck, VigilanteShoot}
    ensures p == 0 || p == 1
  {
    match k
    case SeerCheck => 1
    case FoolCheck => 1
    case VigilanteShoot => 1
    case _ => 0
  }

  function RoundEnd(k: ActionKind): RoundEndBehaviour
  {
    match k
    case ExorcistExorcise => ONCE_OPTIONAL
    case VigilanteShoot => ONCE_OPTIONAL
    case PriestCheck => ONCE_OPTIONAL
    case _ => ONCE_REQUIRED
  }

  /** Optional actions never hold up the end of a round. */
  predicate IsOptional(k: ActionKind)
  {
    RoundEnd(k) == ONCE_OPTIONAL || RoundEnd(k) == MULTIPLE_OPTIONAL
  }

  function TeamActionOf(k: ActionKind): TeamBehaviour
  {
    if k == WolfKill then BooleanTrue else ONCE_PER_PLAYER
  }

  /** `allowed_player_states`: only the mayor's move to vote accepts every state. */
  predicate AllowsState(k: ActionKind, s: PlayerState)
  {
    k == MayorMoveToVote || s == ALIVE
  }

  /** `active_players_only`: no class of the role files overrides the default. */
  predicate ActivePlayersOnly(k: ActionKind)
  {
    false
  }

  function AvailabilityOf(k: ActionKind): Availability
  {
    if k in {ExorcistExorcise, VigilanteShoot, PriestCheck} then OncePerGame else AlwaysAvailable
  }

  /** The team of a role's description. */
  function RoleTeam(role: PlayerRole): Team
  {
    match role
    case WOLF => WOLVES
    case SPECTATOR => SPECTATORS
    case JESTER => JESTER_TEAM
    case NARRATOR => NARRATOR_TEAM
    case _ => VILLAGERS
  }

  /** The team test the seer and the exorcist apply picks out exactly the wolves. */
  lemma OnlyWolvesAreWolves(role: PlayerRole)
    ensures RoleTeam(role) == WOLVES <==> role == WOLF
  {
  }

  /** `isinstance(action, MixinClass)` for the classes of the role files. */
  predicate IsInstance(k: ActionKind, m: Mixin)
  {
    match m
    case AffectedByMedic => k in {WolfKill, SeerCheck, FoolCheck, VigilanteShoot}
    case AffectedByProstitute => false
    case ClassMixin(c) => k == c
  }

  /**
   * `GameAction.mixins_registered[modifier_type][ActionClass]` once every
   * role module is loaded: the medic searches for medic-affected actions
   * around its target, the wolves for the seer's and the fool's actions
   * around theirs. No class of the role files inherits the prostitute's
   * mixin, so nothing is registered for the prostitute. `AffectedByMedic`
   * appends itself once per subclass (backend/roles/medic.py:57-70), so the
   * medic's lists hold it several times; applying a modifier again changes
   * nothing (`Actions.ModifyIdempotent`), so one entry stands for all.
   */
  function Registered(caller: ActionKind, t: ModifierType): seq<Mixin>
  {
    if caller == MedicSave && t in {ORIGINATING_FROM_TARGET, TARGETTING_TARGET} then
      [AffectedByMedic]
    else if caller == WolfKill && t in {ORIGINATING_FROM_TARGET, TARGETTING_TARGET} then
      [ClassMixin(SeerCheck), ClassMixin(FoolCheck)]
    else []
  }

  /** Only the medic and the wolves modify other actions through the registry. */
  lemma RegistryCallers(caller: ActionKind, t: ModifierType)
    ensures Registered(caller, t) != [] ==> caller in {MedicSave, WolfKill}
    ensures Registered(caller, t) != [] ==> t in {ORIGINATING_FROM_TARGET, TARGETTING_TARGET}
  {
  }

  function ModifierTypeValue(t: ModifierType): string
  {
    match t
    case TARGETTING_TARGET => "TARGETTING_TARGET"
    case ORIGINATING_FROM_TARGET => "ORIGINATING_FROM_TARGET"
    case TARGETTING_ORIGINATOR => "TARGETTING_ORIGINATOR"
    case ORIGINATING_FROM_ORIGINATOR => "ORIGINATING_FROM_ORIGINATOR"
  }

  function ClassName(k: ActionKind): string
  {
    match k
    case MedicSave => "MedicAction"
    case ProstituteSleep => "ProstituteAction"
    case WolfKill => "WolfAction"
    case SeerCheck => "SeerAction"
    case FoolCheck => "FoolAction"
    case ExorcistExorcise => "ExorcistAction"
    case VigilanteShoot => "VigilanteAction"
    case PriestCheck => "PriestCheckRole"
    case MayorMoveToVote => "MayorMoveToVoteAction"
    case MayorVote => "MayorVoteAction"
    case NarratorMoveToVote => "NarratorMoveToVoteAction"
  }

  function MixinName(m: Mixin): string
  {
    match m
    case AffectedByMedic => "AffectedByMedic"
    case AffectedByProstitute => "AffectedByProstitute"
    case ClassMixin(k) => ClassName(k)
  }

  /** `get_action_method_name`: the attribute a modifier is bound under. */
  function ModifierMethodName(m: Mixin, t: ModifierType): string
  {
    "mod_" + MixinName(m) + "_" + ModifierTypeValue(t)
  }

  /** Reads a modifier method name back into its class name and modifier type text. */
  function ParseModifierMethodName(s: string): Option<(string, string)>
  {
    match Text.DropPrefix("mod_", s)
    case None => None
    case Some(rest) =>
      var (cls, tail) := Text.SplitFirst('_', rest);
      if tail.None? then None else Some((cls, tail.value))
  }

  lemma MixinNameInjective(m1: Mixin, m2: Mixin)
    ensures MixinName(m1) == MixinName(m2) ==> m1 == m2
  {
  }

  lemma {:induction false} ParseNameParts(a: string, b: string)
    requires '_' !in a
    ensures ParseModifierMethodName("mod_" + a + "_" + b) == Some((a, b))
  {
    var name := "mod_" + a + "_" + b;
    assert name == "mod_" + (a + "_" + b);
    assert "mod_" <= name;
    assert name[4..] == a + "_" + b;
    Text.SplitFirstConcat('_', a, b);
  }

  lemma MixinNameHasNoUnderscore(m: Mixin)
    ensures '_' !in MixinName(m)
  {
    match m {
      case AffectedByMedic =>
      case AffectedByProstitute =>
      case ClassMixin(k) => ClassNameHasNoUnderscore(k);
    }
  }

  lemma ClassNameHasNoUnderscore(k: ActionKind)
    ensures '_' !in ClassName(k)
  {
    if k in {MedicSave, ProstituteSleep, WolfKill, SeerCheck} {
      NightClassNamesHaveNoUnderscore(k);
    } else if k in {FoolCheck, ExorcistExorcise, VigilanteShoot, PriestCheck} {
      OtherNightClassNamesHaveNoUnderscore(k);
    } else {
      VoteClassNamesHaveNoUnderscore(k);
    }
  }

  lemma NightClassNamesHaveNoUnderscore(k: ActionKind)
    requires k in {MedicSave, ProstituteSleep, WolfKill, SeerCheck}
    ensures '_' !in ClassName(k)
  {
    if k == MedicSave {
      assert '_' !in "MedicAction";
    } else if k == ProstituteSleep {
      assert '_' !in "ProstituteAction";
    } else if k == WolfKill {
      assert '_' !in "WolfAction";
    } else {
      assert '_' !in "SeerAction";
    }
  }

  lemma OtherNightClassNamesHaveNoUnderscore(k: ActionKind)
    requires k in {FoolCheck, ExorcistExorcise, VigilanteShoot, PriestCheck}
    ensures '_' !in ClassName(k)
  {
    if k == FoolCheck {
      assert '_' !in "FoolAction";
    } else if k == ExorcistExorcise {
      assert '_' !in "ExorcistAction";
    } else if k == VigilanteShoot {
      assert '_' !in "VigilanteAction";
    } else {
      assert '_' !in "PriestCheckRole";
    }
  }

  lemma VoteClassNamesHaveNoUnderscore(k: ActionKind)
    requires k in {MayorMoveToVote, MayorVote, NarratorMoveToVote}
    ensures '_' !in ClassName(k)
  {
    if k == MayorMoveToVote {
      assert '_' !in "MayorMoveToVoteAction";
    } else if k == MayorVote {
      assert '_' !in "MayorVoteAction";
    } else {
      assert '_' !in "NarratorMoveToVoteAction";
    }
  }

  /**
   * Method names round-trip: the class name and the modifier type can be
   * read back, so two different (mixin, modifier type) pairs never share
   * an attribute name.
   */
  lemma ModifierMethodNameRoundTrip(m: Mixin, t: ModifierType)
    ensures ParseModifierMethodName(ModifierMethodName(m, t)) == Some((MixinName(m), ModifierTypeValue(t)))
  {
    MixinNameHasNoUnderscore(m);
    ParseNameParts(MixinName(m), ModifierTypeValue(t));
  }

  lemma ModifierMethodNameInjective(m1: Mixin, t1: ModifierType, m2: Mixin, t2: ModifierType)
    requires ModifierMethodName(m1, t1) == ModifierMethodName(m2, t2)
    ensures m1 == m2 && t1 == t2
  {
    ModifierMethodNameRoundTrip(m1, t1);
    ModifierMethodNameRoundTrip(m2, t2);
    MixinNameInjective(m1, m2);
  }

  /** `get_action_func_name`: the lower-cased role value followed by "_action". */
  function ActionFuncName(role: PlayerRole): (name: string)
    ensures |name| == |RoleValue(role)| + 7
    ensures name[|RoleValue(role)|..] == "_action"
    ensures name[..|RoleValue(role)|] == Text.Lower(RoleValue(role))
  {
    Text.Lower(RoleValue(role)) + "_action"
  }

  predicate AllUpper(s: string)
  {
    forall i :: 0 <= i < |s| ==> 'A' <= s[i] <= 'Z'
  }

  lemma LowerInjectiveOnUpper(a: string, b: string)
    requires AllUpper(a) && AllUpper(b) && Text.Lower(a) == Text.Lower(b)
    ensures a == b
  {
    assert |a| == |b|;
    forall i | 0 <= i < |a| ensures a[i] == b[i] {
      assert Text.Lower(a)[i] == Text.Lower(b)[i];
    }
  }

  lemma RoleValueInjective(r1: PlayerRole, r2: PlayerRole)
    ensures RoleValue(r1) == RoleValue(r2) ==> r1 == r2
    ensures AllUpper(RoleValue(r1))
  {
    RoleValueReadsBack(r1);
    RoleValueReadsBack(r2);
  }

  /** The member of the role enumeration with that value, if any. */
  function RoleOfValue(s: string): Option<PlayerRole>
  {
    if s == "SPECTATOR" then Some(SPECTATOR)
    else if s == "VILLAGER" then Some(VILLAGER)
    else if s == "WOLF" then Some(WOLF)
    else if s == "SEER" then Some(SEER)
    else if s == "MEDIC" then Some(MEDIC)
    else if s == "JESTER" then Some(JESTER)
    else if s == "VIGILANTE" then Some(VIGILANTE)
    else if s == "MAYOR" then Some(MAYOR)
    else if s == "MILLER" then Some(MILLER)
    else if s == "ACOLYTE" then Some(ACOLYTE)
    else if s == "PRIEST" then Some(PRIEST)
    else if s == "PROSTITUTE" then Some(PROSTITUTE)
    else if s == "MASON" then Some(MASON)
    else if s == "EXORCIST" then Some(EXORCIST)
    else if s == "FOOL" then Some(FOOL)
    else if s == "NARRATOR" then Some(NARRATOR)
    else None
  }

  /** Every role's value is upper case and looks that role up again. */
  lemma RoleValueReadsBack(r: PlayerRole)
    ensures RoleOfValue(RoleValue(r)) == Some(r)
    ensures AllUpper(RoleValue(r))
  {
    if r in {SPECTATOR, VILLAGER, WOLF, SEER, MEDIC, JESTER, VIGILANTE, MAYOR} {
      EarlyRoleValueReadsBack(r);
    } else {
      LateRoleValueReadsBack(r);
    }
  }

  lemma EarlyRoleValueReadsBack(r: PlayerRole)
    requires r in {SPECTATOR, VILLAGER, WOLF, SEER, MEDIC, JESTER, VIGILANTE, MAYOR}
    ensures RoleOfValue(RoleValue(r)) == Some(r)
    ensures AllUpper(RoleValue(r))
  {
    match r
    case SPECTATOR =>
    case VILLAGER =>
    case WOLF =>
    case SEER =>
    case MEDIC =>
    case JESTER =>
    case VIGILANTE =>
    case MAYOR =>
  }

  lemma LateRoleValueReadsBack(r: PlayerRole)
    requires r !in {SPECTATOR, VILLAGER, WOLF, SEER, MEDIC, JESTER, VIGILANTE, MAYOR}
    ensures RoleOfValue(RoleValue(r)) == Some(r)
    ensures AllUpper(RoleValue(r))
  {
    match r
    case MILLER =>
    case ACOLYTE =>
    case PRIEST =>
    case PROSTITUTE =>
    case MASON =>
    case EXORCIST =>
    case FOOL =>
    case NARRATOR =>
  }

  /** Different roles get different handler names. */
  lemma ActionFuncNameInjective(r1: PlayerRole, r2: PlayerRole)
    ensures ActionFuncName(r1) == ActionFuncName(r2) ==> r1 == r2
  {
    if ActionFuncName(r1) == ActionFuncName(r2) {
      var v1, v2 := RoleValue(r1), RoleValue(r2);
      assert |v1| == |v2|;
      assert Text.Lower(v1) == ActionFuncName(r1)[..|v1|] == ActionFuncName(r2)[..|v2|] == Text.Lower(v2);
      RoleValueInjective(r1, r2);
      RoleValueInjective(r2, r1);
      LowerInjectiveOnUpper(v1, v2);
    }
  }

  /**
   * `named`: the `__name__` and `__doc__` a registered handler receives.
   * The registration passes the already suffixed handler name, so the
   * function name ends in "_action_action".
   */
  function Named(n: string): (nameAndDoc: (string, string))
    ensures |nameAndDoc.0| == |n| + 7 && nameAndDoc.0[..|n|] == n
    ensures Text.DropPrefix(n, nameAndDoc.0) == Some("_action")
  {
    (n + "_action",
     "An automatically registered function to perform the action associated with the " + n + " role")
  }

  /** The roles whose modules the registration module loads into ROLE_MAP. */
  const RegisteredByRegistration: set<PlayerRole> := {MEDIC, SEER, VILLAGER, WOLF, SPECTATOR}

  /** Every role whose module defines a `register` function. */
  const RegisteredByRoleModules: set<PlayerRole> :=
    {SPECTATOR, VILLAGER, WOLF, SEER, MEDIC, JESTER, VIGILANTE, MAYOR,
     MILLER, ACOLYTE, PRIEST, PROSTITUTE, MASON, EXORCIST, FOOL, NARRATOR}

  /** The import-time check that ROLE_MAP covers every role. */
  function RoleMapCheck(registered: set<PlayerRole>): (r: Result<()>)
    ensures r.Ok? <==> forall role: PlayerRole :: role in registered
    ensures r.Err? ==> r.error == TypeError
  {
    if forall role: PlayerRole :: role in registered then Ok(()) else Err(TypeError)
  }

  /**
   * The registration module as written loads five roles and so fails its
   * own check; with every role module loaded the check passes.
   */
  lemma RoleMapCheckOutcomes()
    ensures RoleMapCheck(RegisteredByRegistration) == Err(TypeError)
    ensures RoleMapCheck(RegisteredByRoleModules).Ok?
  {
    assert MAYOR !in RegisteredByRegistration;
    forall role: PlayerRole ensures role in RegisteredByRoleModules {
      match role {
        case SPECTATOR => case VILLAGER => case WOLF => case SEER =>
        case MEDIC => case JESTER => case VIGILANTE => case MAYOR =>
        case MILLER => case ACOLYTE => case PRIEST => case PROSTITUTE =>
        case MASON => case EXORCIST => case FOOL => case NARRATOR =>
      }
    }
  }
}
