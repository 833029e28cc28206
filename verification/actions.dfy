// The objects of a resolution (backend/resolver.py and the mixins of the
// role files): a GameAction per stored action, carrying the flags that the
// modifiers of other actions set, and a GamePlayer per shown player, holding
// the actions it originated and the actions that target it. A GamePlayer
// refers to its actions by their position ("handle") in the resolution's
// action list, so that two lists holding the same action share it.
//
// This module holds the values and the pure meaning of the modifier pass;
// the resolver's class runs the loops and is proved against these
// functions.

module GameActions {
  import opened Types
  import opened Roles

  /**
   * A GameAction. `originator` and `target` are the player ids under which
   * the GamePlayers are kept. The six flags are the attributes the mixins'
   * constructors create; on a class without the mixin the attribute does
   * not exist, which the model writes as a flag that stays false (only an
   * instance of the mixin is ever modified).
   */
  datatype GameAction = GameAction(
    model: Action,
    kind: ActionKind,
    originator: nat,
    target: Option<nat>,
    prevented: bool,
    targetSavedByMedic: bool,
    originatorSavedByMedic: bool,
    originatorAttackedByWolf: bool,
    targetAttackedByWolf: bool,
    originatorSleepingWithProstitute: bool,
    targetSleepingWithProstitute: bool)

  /** A GamePlayer: the player row and the handles of its actions. */
  datatype GamePlayer = GamePlayer(model: Player, originatedFrom: seq<nat>, targettedBy: seq<nat>)

  /** The GameAction a fresh constructor call builds: nothing prevented, no flag set. */
  function NewGameAction(a: Action, kind: ActionKind, originator: nat, target: Option<nat>): (g: GameAction)
    ensures g.model == a && g.kind == kind && g.originator == originator && g.target == target
    ensures !g.prevented && NoFlags(g)
  {
    GameAction(a, kind, originator, target, false, false, false, false, false, false, false)
  }

  predicate NoFlags(g: GameAction)
  {
    && !g.targetSavedByMedic && !g.originatorSavedByMedic
    && !g.originatorAttackedByWolf && !g.targetAttackedByWolf
    && !g.originatorSleepingWithProstitute && !g.targetSleepingWithProstitute
  }

  // ---------------------------------------------------------------------
  // Links between actions and players
  // ---------------------------------------------------------------------

  /** Who an action comes from and whom it targets. */
  datatype End = End(originator: nat, target: Option<nat>)

  function Ends(acts: seq<GameAction>): (e: seq<End>)
    ensures |e| == |acts|
    ensures forall i :: 0 <= i < |acts| ==> e[i] == End(acts[i].originator, acts[i].target)
  {
    seq(|acts|, i requires 0 <= i < |acts| => End(acts[i].originator, acts[i].target))
  }

  /** The handles of the actions originated by player `id`, in order. */
  function From(ends: seq<End>, id: nat): (hs: seq<nat>)
    ensures forall i :: 0 <= i < |hs| ==> hs[i] < |ends| && ends[hs[i]].originator == id
    ensures forall h :: 0 <= h < |ends| && ends[h].originator == id ==> h in hs
    ensures forall i, j :: 0 <= i < j < |hs| ==> hs[i] < hs[j]
  {
    if |ends| == 0 then []
    else From(ends[..|ends| - 1], id) + (if ends[|ends| - 1].originator == id then [|ends| - 1] else [])
  }

  /** The handles of the actions targeting player `id`, in order. */
  function To(ends: seq<End>, id: nat): (hs: seq<nat>)
    ensures forall i :: 0 <= i < |hs| ==> hs[i] < |ends| && ends[hs[i]].target == Some(id)
    ensures forall h :: 0 <= h < |ends| && ends[h].target == Some(id) ==> h in hs
    ensures forall i, j :: 0 <= i < j < |hs| ==> hs[i] < hs[j]
  {
    if |ends| == 0 then []
    else To(ends[..|ends| - 1], id) + (if ends[|ends| - 1].target == Some(id) then [|ends| - 1] else [])
  }

  /**
   * The link invariant of a resolution: every action's originator and
   * target are known players, and every player's two lists are exactly
   * the actions it originated and the actions targeting it, in the order
   * the actions were built.
   */
  predicate Linked(acts: seq<GameAction>, players: map<nat, GamePlayer>)
  {
    && (forall h :: 0 <= h < |acts| ==>
      acts[h].originator in players && (acts[h].target.Some? ==> acts[h].target.value in players))
    && (forall id :: id in players ==>
      players[id].originatedFrom == From(Ends(acts), id) && players[id].targettedBy == To(Ends(acts), id))
  }

  /** Building one more action extends the originator's list and, when there is a target, the target's list. */
  lemma {:induction false} EndsAppend(ends: seq<End>, e: End, id: nat)
    ensures From(ends + [e], id) == From(ends, id) + (if e.originator == id then [|ends|] else [])
    ensures To(ends + [e], id) == To(ends, id) + (if e.target == Some(id) then [|ends|] else [])
  {
    assert (ends + [e])[..|ends|] == ends;
  }

  /** The handles a player's lists hold are positions of the action list. */
  predicate HandlesBelow(players: map<nat, GamePlayer>, n: nat)
  {
    forall id :: id in players ==>
      && (forall i :: 0 <= i < |players[id].originatedFrom| ==> players[id].originatedFrom[i] < n)
      && (forall i :: 0 <= i < |players[id].targettedBy| ==> players[id].targettedBy[i] < n)
  }

  lemma LinkedBelow(acts: seq<GameAction>, players: map<nat, GamePlayer>)
    requires Linked(acts, players)
    ensures HandlesBelow(players, |acts|)
  {
  }

  /** What the modifier pass needs of the links: handles in range, ends known. */
  predicate Bound(acts: seq<GameAction>, players: map<nat, GamePlayer>)
  {
    HandlesBelow(players, |acts|) && forall h :: 0 <= h < |acts| ==> Known(players, acts[h])
  }

  lemma LinkedBound(acts: seq<GameAction>, players: map<nat, GamePlayer>)
    requires Linked(acts, players)
    ensures Bound(acts, players)
  {
    LinkedBelow(acts, players);
  }

  // ---------------------------------------------------------------------
  // One modifier
  // ---------------------------------------------------------------------

  /** The fields no modifier touches. */
  predicate SameEnds(a: GameAction, b: GameAction)
  {
    a.model == b.model && a.kind == b.kind && a.originator == b.originator && a.target == b.target
  }

  /** The fields the registry's modifiers leave alone. */
  predicate SameCore(a: GameAction, b: GameAction)
  {
    SameEnds(a, b) && a.prevented == b.prevented
  }

  /** Nothing that was prevented or flagged in `a` is cleared in `b`. */
  predicate Rises(a: GameAction, b: GameAction)
  {
    && (a.prevented ==> b.prevented)
    && (a.targetSavedByMedic ==> b.targetSavedByMedic)
    && (a.originatorSavedByMedic ==> b.originatorSavedByMedic)
    && (a.originatorAttackedByWolf ==> b.originatorAttackedByWolf)
    && (a.targetAttackedByWolf ==> b.targetAttackedByWolf)
    && (a.originatorSleepingWithProstitute ==> b.originatorSleepingWithProstitute)
    && (a.targetSleepingWithProstitute ==> b.targetSleepingWithProstitute)
  }

  /**
   * The modifier bound under `get_action_method_name(m, t)` applied to
   * `a` on behalf of `caller`:
   * - the medic's mixin marks the action's originator or target saved,
   *   unless the medic's own action is prevented;
   * - a class registered with the wolves marks its originator or target
   *   attacked, unless that player is already saved;
   * - the prostitute's mixin marks the sleeping flags unconditionally.
   * Other pairs have no bound method and leave the action as it is.
   */
  function Modify(a: GameAction, m: Mixin, t: ModifierType, caller: GameAction): GameAction
  {
    match (m, t)
    case (AffectedByMedic, ORIGINATING_FROM_TARGET) =>
      if !caller.prevented then a.(originatorSavedByMedic := true) else a
    case (AffectedByMedic, TARGETTING_TARGET) =>
      if !caller.prevented then a.(targetSavedByMedic := true) else a
    case (ClassMixin(_), ORIGINATING_FROM_TARGET) =>
      if !a.originatorSavedByMedic then a.(originatorAttackedByWolf := true) else a
    case (ClassMixin(_), TARGETTING_TARGET) =>
      if !a.targetSavedByMedic then a.(targetAttackedByWolf := true) else a
    case (AffectedByProstitute, ORIGINATING_FROM_TARGET) =>
      a.(originatorSleepingWithProstitute := true)
    case (AffectedByProstitute, TARGETTING_TARGET) =>
      a.(targetSleepingWithProstitute := true)
    case _ => a
  }

  /** A modifier changes only the mixins' flags, and each only from false to true. */
  lemma ModifyOnlyRaisesFlags(a: GameAction, m: Mixin, t: ModifierType, caller: GameAction)
    ensures SameCore(Modify(a, m, t, caller), a)
    ensures Rises(a, Modify(a, m, t, caller))
  {
    var r := Modify(a, m, t, caller);
    ModifySetsOneFlag(a, m, t, caller);
    if r == a {
    } else if r == a.(originatorSavedByMedic := true) {
    } else if r == a.(targetSavedByMedic := true) {
    } else if r == a.(originatorAttackedByWolf := true) {
    } else if r == a.(targetAttackedByWolf := true) {
    } else if r == a.(originatorSleepingWithProstitute := true) {
    } else {
      assert r == a.(targetSleepingWithProstitute := true);
    }
  }

  /** A modifier leaves the action as it is or sets exactly one of its flags. */
  lemma ModifySetsOneFlag(a: GameAction, m: Mixin, t: ModifierType, caller: GameAction)
    ensures var r := Modify(a, m, t, caller);
      || r == a
      || r == a.(originatorSavedByMedic := true) || r == a.(targetSavedByMedic := true)
      || r == a.(originatorAttackedByWolf := true) || r == a.(targetAttackedByWolf := true)
      || r == a.(originatorSleepingWithProstitute := true) || r == a.(targetSleepingWithProstitute := true)
  {
  }

  /** Applying the same modifier twice is applying it once. */
  lemma ModifyIdempotent(a: GameAction, m: Mixin, t: ModifierType, caller: GameAction)
    ensures Modify(Modify(a, m, t, caller), m, t, caller) == Modify(a, m, t, caller)
  {
  }

  /** A prevented medic saves nobody; an unprevented one saves the player it is bound to. */
  lemma MedicModifier(a: GameAction, caller: GameAction)
    ensures caller.prevented ==> Modify(a, AffectedByMedic, TARGETTING_TARGET, caller) == a
    ensures caller.prevented ==> Modify(a, AffectedByMedic, ORIGINATING_FROM_TARGET, caller) == a
    ensures !caller.prevented ==> Modify(a, AffectedByMedic, TARGETTING_TARGET, caller) == a.(targetSavedByMedic := true)
    ensures !caller.prevented ==> Modify(a, AffectedByMedic, ORIGINATING_FROM_TARGET, caller) == a.(originatorSavedByMedic := true)
  {
  }

  /** The wolves' modifiers mark a player attacked exactly when that player is not saved. */
  lemma WolfModifier(a: GameAction, k: ActionKind, caller: GameAction)
    ensures Modify(a, ClassMixin(k), TARGETTING_TARGET, caller).targetAttackedByWolf
      <==> (a.targetAttackedByWolf || !a.targetSavedByMedic)
    ensures Modify(a, ClassMixin(k), ORIGINATING_FROM_TARGET, caller).originatorAttackedByWolf
      <==> (a.originatorAttackedByWolf || !a.originatorSavedByMedic)
  {
  }

  /** The prostitute's modifiers set the sleeping flags whatever the state of either action. */
  lemma ProstituteModifier(a: GameAction, caller: GameAction)
    ensures Modify(a, AffectedByProstitute, TARGETTING_TARGET, caller) == a.(targetSleepingWithProstitute := true)
    ensures Modify(a, AffectedByProstitute, ORIGINATING_FROM_TARGET, caller) == a.(originatorSleepingWithProstitute := true)
  {
  }

  // ---------------------------------------------------------------------
  // The modifier search of `do_modifiers`, as nested folds
  // ---------------------------------------------------------------------

  /**
   * The innermost loop: the modifier for (m, t) applied, in order, to
   * every action of the relevant list that is an instance of `m`.
   */
  function ApplyMixin(acts: seq<GameAction>, hs: seq<nat>, m: Mixin, t: ModifierType, caller: GameAction): (r: seq<GameAction>)
    requires forall i :: 0 <= i < |hs| ==> hs[i] < |acts|
    ensures |r| == |acts|
    ensures forall i :: 0 <= i < |acts| ==> SameCore(r[i], acts[i]) && Rises(acts[i], r[i])
    decreases |hs|
  {
    if |hs| == 0 then acts
    else
      var prev := ApplyMixin(acts, hs[..|hs| - 1], m, t, caller);
      var h := hs[|hs| - 1];
      ModifyOnlyRaisesFlags(prev[h], m, t, caller);
      prev[h := if IsInstance(prev[h].kind, m) then Modify(prev[h], m, t, caller) else prev[h]]
  }

  /**
   * What the innermost loop does to one action: the modifier once if the
   * action is in the list and an instance of the mixin, otherwise nothing.
   * A handle listed twice is modified twice, which is modifying it once.
   */
  lemma {:induction false} ApplyMixinAt(acts: seq<GameAction>, hs: seq<nat>, m: Mixin, t: ModifierType, caller: GameAction, i: nat)
    requires forall j :: 0 <= j < |hs| ==> hs[j] < |acts|
    requires i < |acts|
    ensures ApplyMixin(acts, hs, m, t, caller)[i]
      == if i in hs && IsInstance(acts[i].kind, m) then Modify(acts[i], m, t, caller) else acts[i]
    decreases |hs|
  {
    if |hs| > 0 {
      var init := hs[..|hs| - 1];
      ApplyMixinAt(acts, init, m, t, caller, i);
      assert hs == init + [hs[|hs| - 1]];
      if i == hs[|hs| - 1] && i in init && IsInstance(acts[i].kind, m) {
        ModifyIdempotent(acts[i], m, t, caller);
      }
    }
  }

  /** The middle loop: every registered mixin in turn. */
  function ApplyMixins(acts: seq<GameAction>, hs: seq<nat>, ms: seq<Mixin>, t: ModifierType, caller: GameAction): (r: seq<GameAction>)
    requires forall i :: 0 <= i < |hs| ==> hs[i] < |acts|
    ensures |r| == |acts|
    ensures forall i :: 0 <= i < |acts| ==> SameCore(r[i], acts[i]) && Rises(acts[i], r[i])
    decreases |ms|
  {
    if |ms| == 0 then acts
    else ApplyMixin(ApplyMixins(acts, hs, ms[..|ms| - 1], t, caller), hs, ms[|ms| - 1], t, caller)
  }

  /** The registered actions' player ids are known players. */
  predicate Known(players: map<nat, GamePlayer>, a: GameAction)
  {
    a.originator in players && (a.target.Some? ==> a.target.value in players)
  }

  /**
   * `action_map[t](caller)`: the list the modifier type searches, or
   * None when it needs the target and the action has none (reading an
   * attribute of None).
   */
  function Relevant(players: map<nat, GamePlayer>, caller: GameAction, t: ModifierType): Option<seq<nat>>
    requires Known(players, caller)
  {
    match t
    case ORIGINATING_FROM_TARGET =>
      if caller.target.None? then None else Some(players[caller.target.value].originatedFrom)
    case TARGETTING_TARGET =>
      if caller.target.None? then None else Some(players[caller.target.value].targettedBy)
    case ORIGINATING_FROM_ORIGINATOR => Some(players[caller.originator].originatedFrom)
    case TARGETTING_ORIGINATOR => Some(players[caller.originator].targettedBy)
  }

  /**
   * One turn of the outer loop, for modifier type `t`: a type the
   * caller's class has no registered mixin for is skipped before its list
   * is looked at; otherwise a missing list is an AttributeError. An error
   * from an earlier turn stands.
   */
  function Step(prev: Result<seq<GameAction>>, players: map<nat, GamePlayer>, caller: GameAction, t: ModifierType): (r: Result<seq<GameAction>>)
    requires prev.Ok? ==> HandlesBelow(players, |prev.value|)
    requires Known(players, caller)
    ensures r.Ok? ==> prev.Ok? && |r.value| == |prev.value|
  {
    var ms := Registered(caller.kind, t);
    if prev.Err? || ms == [] then prev
    else match Relevant(players, caller, t)
      case None => Err(AttributeError)
      case Some(hs) => Ok(ApplyMixins(prev.value, hs, ms, t, caller))
  }

  /** The outer loop over the modifier types `ts`. */
  function ApplyTypes(acts: seq<GameAction>, players: map<nat, GamePlayer>, caller: GameAction, ts: seq<ModifierType>): (r: Result<seq<GameAction>>)
    requires HandlesBelow(players, |acts|) && Known(players, caller)
    ensures r.Ok? ==> |r.value| == |acts|
    ensures r.Ok? ==> forall i :: 0 <= i < |acts| ==> SameCore(r.value[i], acts[i]) && Rises(acts[i], r.value[i])
    decreases |ts|
  {
    if |ts| == 0 then Ok(acts)
    else Step(ApplyTypes(acts, players, caller, ts[..|ts| - 1]), players, caller, ts[|ts| - 1])
  }

  /**
   * Only the two types that search around the target have registered
   * mixins, so the whole outer loop is its first two turns.
   */
  lemma AllTypes(acts: seq<GameAction>, players: map<nat, GamePlayer>, caller: GameAction)
    requires HandlesBelow(players, |acts|) && Known(players, caller)
    ensures ApplyTypes(acts, players, caller, ModifierTypes)
      == Step(Step(Ok(acts), players, caller, TARGETTING_TARGET), players, caller, ORIGINATING_FROM_TARGET)
  {
    var ts := ModifierTypes;
    assert ts[..0] == [];
    assert ts[..1][..0] == [];
    assert ts[..2][..1] == ts[..1];
    assert ts[..3][..2] == ts[..2];
    assert ts[..4][..3] == ts[..3];
    assert ts[..4] == ts;
    assert Registered(caller.kind, TARGETTING_ORIGINATOR) == [];
    assert Registered(caller.kind, ORIGINATING_FROM_ORIGINATOR) == [];
    var one := ApplyTypes(acts, players, caller, ts[..1]);
    assert ApplyTypes(acts, players, caller, ts[..1][..0]) == Ok(acts);
    assert ts[..1][0] == TARGETTING_TARGET;
    assert one == Step(Ok(acts), players, caller, TARGETTING_TARGET);
    var two := ApplyTypes(acts, players, caller, ts[..2]);
    assert ts[..2][1] == ORIGINATING_FROM_TARGET;
    assert two == Step(one, players, caller, ORIGINATING_FROM_TARGET);
    assert two == Step(Step(Ok(acts), players, caller, TARGETTING_TARGET), players, caller, ORIGINATING_FROM_TARGET);
    assert ApplyTypes(acts, players, caller, ts[..3]) == two;
  }

  /** The prostitute's first step: every listed action is prevented. */
  function PreventAll(acts: seq<GameAction>, hs: seq<nat>): (r: seq<GameAction>)
    requires forall i :: 0 <= i < |hs| ==> hs[i] < |acts|
    ensures |r| == |acts|
    ensures forall i :: 0 <= i < |acts| ==> r[i] == if i in hs then acts[i].(prevented := true) else acts[i]
    decreases |hs|
  {
    if |hs| == 0 then acts
    else
      var prev := PreventAll(acts, hs[..|hs| - 1]);
      assert hs == hs[..|hs| - 1] + [hs[|hs| - 1]];
      prev[hs[|hs| - 1] := prev[hs[|hs| - 1]].(prevented := true)]
  }

  /**
   * `do_modifiers` of the action with handle `h`: for the prostitute, the
   * target's actions are prevented first (an AttributeError without a
   * target); then the registry search runs with the caller as it now is.
   */
  function Modifiers(acts: seq<GameAction>, players: map<nat, GamePlayer>, h: nat): (r: Result<seq<GameAction>>)
    requires Bound(acts, players) && h < |acts|
    ensures r.Ok? ==> |r.value| == |acts|
    ensures r.Ok? ==> forall i :: 0 <= i < |acts| ==> SameEnds(r.value[i], acts[i]) && Rises(acts[i], r.value[i])
  {
    var a := acts[h];
    if a.kind == ProstituteSleep then
      if a.target.None? then Err(AttributeError)
      else
        var pre := PreventAll(acts, players[a.target.value].originatedFrom);
        ApplyTypes(pre, players, pre[h], ModifierTypes)
    else ApplyTypes(acts, players, a, ModifierTypes)
  }

  /** A handle is in a player's targeted-by list exactly when the action targets the player. */
  lemma InTo(acts: seq<GameAction>, players: map<nat, GamePlayer>, v: nat, i: nat)
    requires Linked(acts, players) && v in players && i < |acts|
    ensures i in players[v].targettedBy <==> acts[i].target == Some(v)
  {
    var hs := To(Ends(acts), v);
    if i in hs {
      var j :| 0 <= j < |hs| && hs[j] == i;
    }
  }

  /** A handle is in a player's originated list exactly when the action comes from the player. */
  lemma InFrom(acts: seq<GameAction>, players: map<nat, GamePlayer>, v: nat, i: nat)
    requires Linked(acts, players) && v in players && i < |acts|
    ensures i in players[v].originatedFrom <==> acts[i].originator == v
  {
    var hs := From(Ends(acts), v);
    if i in hs {
      var j :| 0 <= j < |hs| && hs[j] == i;
    }
  }

  /** The medic's pass: its one mixin around the target, first the target's side, then the originator's. */
  lemma MedicPass(acts: seq<GameAction>, players: map<nat, GamePlayer>, h: nat)
    requires Bound(acts, players) && h < |acts|
    requires acts[h].kind == MedicSave && acts[h].target.Some?
    ensures var c := acts[h];
      var v := c.target.value;
      Modifiers(acts, players, h) == Ok(ApplyMixin(
        ApplyMixin(acts, players[v].targettedBy, AffectedByMedic, TARGETTING_TARGET, c),
        players[v].originatedFrom, AffectedByMedic, ORIGINATING_FROM_TARGET, c))
  {
    var c := acts[h];
    var v := c.target.value;
    AllTypes(acts, players, c);
    var s1 := ApplyMixin(acts, players[v].targettedBy, AffectedByMedic, TARGETTING_TARGET, c);
    assert ApplyMixins(acts, players[v].targettedBy, [AffectedByMedic], TARGETTING_TARGET, c) == s1;
    assert Step(Ok(acts), players, c, TARGETTING_TARGET) == Ok(s1);
  }

  /** The medic's pass, read off at one position, in terms of the player's lists. */
  lemma MedicAt(acts: seq<GameAction>, players: map<nat, GamePlayer>, h: nat, i: nat)
    requires Bound(acts, players) && h < |acts| && i < |acts|
    requires acts[h].kind == MedicSave && acts[h].target.Some?
    ensures Modifiers(acts, players, h).Ok?
    ensures var v := acts[h].target.value;
      var a := acts[i];
      var b := Modifiers(acts, players, h).value[i];
      && SameCore(b, a)
      && (b.targetSavedByMedic <==>
            (a.targetSavedByMedic || (!acts[h].prevented && i in players[v].targettedBy && IsInstance(a.kind, AffectedByMedic))))
      && (b.originatorSavedByMedic <==>
            (a.originatorSavedByMedic || (!acts[h].prevented && i in players[v].originatedFrom && IsInstance(a.kind, AffectedByMedic))))
      && b.originatorAttackedByWolf == a.originatorAttackedByWolf && b.targetAttackedByWolf == a.targetAttackedByWolf
      && b.originatorSleepingWithProstitute == a.originatorSleepingWithProstitute
      && b.targetSleepingWithProstitute == a.targetSleepingWithProstitute
  {
    var c := acts[h];
    var v := c.target.value;
    MedicPass(acts, players, h);
    var s1 := ApplyMixin(acts, players[v].targettedBy, AffectedByMedic, TARGETTING_TARGET, c);
    MedicMixinAt(acts, players[v].targettedBy, TARGETTING_TARGET, c, i);
    MedicMixinAt(s1, players[v].originatedFrom, ORIGINATING_FROM_TARGET, c, i);
  }

  /** One of the medic's two searches, read off at one position: only the flag of that search can rise. */
  lemma MedicMixinAt(acts: seq<GameAction>, hs: seq<nat>, t: ModifierType, c: GameAction, i: nat)
    requires forall j :: 0 <= j < |hs| ==> hs[j] < |acts|
    requires i < |acts| && t in {ORIGINATING_FROM_TARGET, TARGETTING_TARGET}
    ensures var a := acts[i];
      var b := ApplyMixin(acts, hs, AffectedByMedic, t, c)[i];
      var saved := !c.prevented && i in hs && IsInstance(a.kind, AffectedByMedic);
      && SameCore(b, a)
      && (t == TARGETTING_TARGET ==>
            (b.targetSavedByMedic <==> a.targetSavedByMedic || saved) && b.originatorSavedByMedic == a.originatorSavedByMedic)
      && (t == ORIGINATING_FROM_TARGET ==>
            (b.originatorSavedByMedic <==> a.originatorSavedByMedic || saved) && b.targetSavedByMedic == a.targetSavedByMedic)
      && b.originatorAttackedByWolf == a.originatorAttackedByWolf && b.targetAttackedByWolf == a.targetAttackedByWolf
      && b.originatorSleepingWithProstitute == a.originatorSleepingWithProstitute
      && b.targetSleepingWithProstitute == a.targetSleepingWithProstitute
  {
    ApplyMixinAt(acts, hs, AffectedByMedic, t, c, i);
  }

  /**
   * The medic's `do_modifiers`: without a target it fails; otherwise the
   * actions of a medic-affected class around the target get the saved
   * flags, unless the medic's own action is prevented, and nothing else
   * changes.
   */
  lemma MedicModifiers(acts: seq<GameAction>, players: map<nat, GamePlayer>, h: nat, i: nat)
    requires Linked(acts, players) && Bound(acts, players) && h < |acts| && i < |acts|
    requires acts[h].kind == MedicSave
    ensures acts[h].target.None? ==> Modifiers(acts, players, h) == Err(AttributeError)
    ensures acts[h].target.Some? ==> Modifiers(acts, players, h).Ok?
    ensures acts[h].target.Some? ==>
      var v := acts[h].target.value;
      var a := acts[i];
      var b := Modifiers(acts, players, h).value[i];
      && SameCore(b, a)
      && (b.targetSavedByMedic <==>
            (a.targetSavedByMedic || (!acts[h].prevented && a.target == Some(v) && IsInstance(a.kind, AffectedByMedic))))
      && (b.originatorSavedByMedic <==>
            (a.originatorSavedByMedic || (!acts[h].prevented && a.originator == v && IsInstance(a.kind, AffectedByMedic))))
      && b.originatorAttackedByWolf == a.originatorAttackedByWolf && b.targetAttackedByWolf == a.targetAttackedByWolf
      && b.originatorSleepingWithProstitute == a.originatorSleepingWithProstitute
      && b.targetSleepingWithProstitute == a.targetSleepingWithProstitute
  {
    LinkedBound(acts, players);
    if acts[h].target.None? {
      SearchWithoutTarget(acts, players, h);
    } else {
      var v := acts[h].target.value;
      InTo(acts, players, v, i);
      InFrom(acts, players, v, i);
      MedicAt(acts, players, h, i);
    }
  }

  /** The wolves' pass: the seer's then the fool's class, first on the target's side, then the originator's. */
  lemma WolfPass(acts: seq<GameAction>, players: map<nat, GamePlayer>, h: nat)
    requires Bound(acts, players) && h < |acts|
    requires acts[h].kind == WolfKill && acts[h].target.Some?
    ensures var c := acts[h];
      var v := c.target.value;
      var hsT := players[v].targettedBy;
      var hsO := players[v].originatedFrom;
      var s2 := ApplyMixin(ApplyMixin(acts, hsT, ClassMixin(SeerCheck), TARGETTING_TARGET, c),
                           hsT, ClassMixin(FoolCheck), TARGETTING_TARGET, c);
      Modifiers(acts, players, h) == Ok(ApplyMixin(ApplyMixin(s2, hsO, ClassMixin(SeerCheck), ORIGINATING_FROM_TARGET, c),
                                                   hsO, ClassMixin(FoolCheck), ORIGINATING_FROM_TARGET, c))
  {
    var c := acts[h];
    var v := c.target.value;
    AllTypes(acts, players, c);
    var hsT := players[v].targettedBy;
    var hsO := players[v].originatedFrom;
    WolfStep(acts, players, c, TARGETTING_TARGET);
    SeerThenFool(acts, hsT, TARGETTING_TARGET, c);
    var s2 := ApplyMixin(ApplyMixin(acts, hsT, ClassMixin(SeerCheck), TARGETTING_TARGET, c),
                         hsT, ClassMixin(FoolCheck), TARGETTING_TARGET, c);
    WolfStep(s2, players, c, ORIGINATING_FROM_TARGET);
    SeerThenFool(s2, hsO, ORIGINATING_FROM_TARGET, c);
  }

  /** The wolves' registered mixins, the seer's class and then the fool's, applied over one list. */
  lemma SeerThenFool(acts: seq<GameAction>, hs: seq<nat>, t: ModifierType, c: GameAction)
    requires forall j :: 0 <= j < |hs| ==> hs[j] < |acts|
    ensures ApplyMixins(acts, hs, [ClassMixin(SeerCheck), ClassMixin(FoolCheck)], t, c)
      == ApplyMixin(ApplyMixin(acts, hs, ClassMixin(SeerCheck), t, c), hs, ClassMixin(FoolCheck), t, c)
  {
    var ms := [ClassMixin(SeerCheck), ClassMixin(FoolCheck)];
    assert ms[..1] == [ClassMixin(SeerCheck)];
    assert ms[..1][..0] == [];
  }

  /** One turn of the wolves' outer loop, for a type that searches around the target. */
  lemma WolfStep(acts: seq<GameAction>, players: map<nat, GamePlayer>, c: GameAction, t: ModifierType)
    requires HandlesBelow(players, |acts|) && Known(players, c)
    requires c.kind == WolfKill && c.target.Some? && t in {TARGETTING_TARGET, ORIGINATING_FROM_TARGET}
    ensures var p := players[c.target.value];
      Step(Ok(acts), players, c, t)
        == Ok(ApplyMixins(acts, if t == TARGETTING_TARGET then p.targettedBy else p.originatedFrom,
                          [ClassMixin(SeerCheck), ClassMixin(FoolCheck)], t, c))
  {
    assert Registered(c.kind, t) == [ClassMixin(SeerCheck), ClassMixin(FoolCheck)];
  }

  /** The seer's then the fool's class on one side of the target, read off at one position. */
  lemma WolfSideAt(acts: seq<GameAction>, hs: seq<nat>, t: ModifierType, c: GameAction, i: nat)
    requires forall j :: 0 <= j < |hs| ==> hs[j] < |acts|
    requires i < |acts|
    ensures ApplyMixin(ApplyMixin(acts, hs, ClassMixin(SeerCheck), t, c), hs, ClassMixin(FoolCheck), t, c)[i]
      == if i in hs && acts[i].kind in {SeerCheck, FoolCheck} then Modify(acts[i], ClassMixin(SeerCheck), t, c) else acts[i]
  {
    var s1 := ApplyMixin(acts, hs, ClassMixin(SeerCheck), t, c);
    ApplyMixinAt(acts, hs, ClassMixin(SeerCheck), t, c, i);
    ApplyMixinAt(s1, hs, ClassMixin(FoolCheck), t, c, i);
  }

  /** One side of the wolves' pass, read off at one position: only that side's attacked flag can rise. */
  lemma WolfFlagsAt(acts: seq<GameAction>, hs: seq<nat>, t: ModifierType, c: GameAction, i: nat)
    requires forall j :: 0 <= j < |hs| ==> hs[j] < |acts|
    requires i < |acts| && t in {ORIGINATING_FROM_TARGET, TARGETTING_TARGET}
    ensures var a := acts[i];
      var b := ApplyMixin(ApplyMixin(acts, hs, ClassMixin(SeerCheck), t, c), hs, ClassMixin(FoolCheck), t, c)[i];
      var hit := i in hs && a.kind in {SeerCheck, FoolCheck};
      && SameCore(b, a)
      && b.targetSavedByMedic == a.targetSavedByMedic && b.originatorSavedByMedic == a.originatorSavedByMedic
      && (t == TARGETTING_TARGET ==>
            (b.targetAttackedByWolf <==> a.targetAttackedByWolf || (hit && !a.targetSavedByMedic))
            && b.originatorAttackedByWolf == a.originatorAttackedByWolf)
      && (t == ORIGINATING_FROM_TARGET ==>
            (b.originatorAttackedByWolf <==> a.originatorAttackedByWolf || (hit && !a.originatorSavedByMedic))
            && b.targetAttackedByWolf == a.targetAttackedByWolf)
      && b.originatorSleepingWithProstitute == a.originatorSleepingWithProstitute
      && b.targetSleepingWithProstitute == a.targetSleepingWithProstitute
  {
    WolfSideAt(acts, hs, t, c, i);
  }

  /** The wolves' pass, read off at one position, in terms of the player's lists. */
  lemma WolfAt(acts: seq<GameAction>, players: map<nat, GamePlayer>, h: nat, i: nat)
    requires Bound(acts, players) && h < |acts| && i < |acts|
    requires acts[h].kind == WolfKill && acts[h].target.Some?
    ensures Modifiers(acts, players, h).Ok?
    ensures var v := acts[h].target.value;
      var a := acts[i];
      var b := Modifiers(acts, players, h).value[i];
      && SameCore(b, a)
      && b.targetSavedByMedic == a.targetSavedByMedic && b.originatorSavedByMedic == a.originatorSavedByMedic
      && (b.targetAttackedByWolf <==>
            (a.targetAttackedByWolf || (i in players[v].targettedBy && a.kind in {SeerCheck, FoolCheck} && !a.targetSavedByMedic)))
      && (b.originatorAttackedByWolf <==>
            (a.originatorAttackedByWolf || (i in players[v].originatedFrom && a.kind in {SeerCheck, FoolCheck} && !a.originatorSavedByMedic)))
      && b.originatorSleepingWithProstitute == a.originatorSleepingWithProstitute
      && b.targetSleepingWithProstitute == a.targetSleepingWithProstitute
  {
    var c := acts[h];
    var v := c.target.value;
    WolfPass(acts, players, h);
    var hsT := players[v].targettedBy;
    var hsO := players[v].originatedFrom;
    var s2 := ApplyMixin(ApplyMixin(acts, hsT, ClassMixin(SeerCheck), TARGETTING_TARGET, c),
                         hsT, ClassMixin(FoolCheck), TARGETTING_TARGET, c);
    WolfFlagsAt(acts, hsT, TARGETTING_TARGET, c, i);
    WolfFlagsAt(s2, hsO, ORIGINATING_FROM_TARGET, c, i);
  }

  /**
   * The wolves' `do_modifiers`: without a target it fails; otherwise a
   * seer's or fool's action around the target is marked attacked on the
   * side the target is on, unless that side is already saved, and nothing
   * else changes.
   */
  lemma WolfModifiers(acts: seq<GameAction>, players: map<nat, GamePlayer>, h: nat, i: nat)
    requires Linked(acts, players) && Bound(acts, players) && h < |acts| && i < |acts|
    requires acts[h].kind == WolfKill
    ensures acts[h].target.None? ==> Modifiers(acts, players, h) == Err(AttributeError)
    ensures acts[h].target.Some? ==> Modifiers(acts, players, h).Ok?
    ensures acts[h].target.Some? ==>
      var v := acts[h].target.value;
      var a := acts[i];
      var b := Modifiers(acts, players, h).value[i];
      && SameCore(b, a)
      && b.targetSavedByMedic == a.targetSavedByMedic && b.originatorSavedByMedic == a.originatorSavedByMedic
      && (b.targetAttackedByWolf <==>
            (a.targetAttackedByWolf || (a.target == Some(v) && a.kind in {SeerCheck, FoolCheck} && !a.targetSavedByMedic)))
      && (b.originatorAttackedByWolf <==>
            (a.originatorAttackedByWolf || (a.originator == v && a.kind in {SeerCheck, FoolCheck} && !a.originatorSavedByMedic)))
      && b.originatorSleepingWithProstitute == a.originatorSleepingWithProstitute
      && b.targetSleepingWithProstitute == a.targetSleepingWithProstitute
  {
    LinkedBound(acts, players);
    if acts[h].target.None? {
      SearchWithoutTarget(acts, players, h);
    } else {
      var v := acts[h].target.value;
      InTo(acts, players, v, i);
      InFrom(acts, players, v, i);
      WolfAt(acts, players, h, i);
    }
  }

  /** The medic's or the wolves' registry search around a missing target fails on the first turn, and the failure stands. */
  lemma SearchWithoutTarget(acts: seq<GameAction>, players: map<nat, GamePlayer>, h: nat)
    requires Bound(acts, players) && h < |acts|
    requires acts[h].kind in {MedicSave, WolfKill} && acts[h].target.None?
    ensures Modifiers(acts, players, h) == Err(AttributeError)
  {
    var c := acts[h];
    AllTypes(acts, players, c);
    assert Registered(c.kind, TARGETTING_TARGET) != [];
    assert Relevant(players, c, TARGETTING_TARGET).None?;
    assert Step(Ok(acts), players, c, TARGETTING_TARGET) == Err(AttributeError);
  }

  /** The prostitute's pass, read off at one position, in terms of the target's list. */
  lemma ProstituteAt(acts: seq<GameAction>, players: map<nat, GamePlayer>, h: nat, i: nat)
    requires Bound(acts, players) && h < |acts| && i < |acts|
    requires acts[h].kind == ProstituteSleep && acts[h].target.Some?
    ensures Modifiers(acts, players, h).Ok?
    ensures var v := acts[h].target.value;
      Modifiers(acts, players, h).value[i]
        == if i in players[v].originatedFrom then acts[i].(prevented := true) else acts[i]
  {
    ProstitutePass(acts, players, h);
  }

  /** The prostitute's class registers no mixin, so its pass is the prevention alone. */
  lemma ProstitutePass(acts: seq<GameAction>, players: map<nat, GamePlayer>, h: nat)
    requires Bound(acts, players) && h < |acts|
    requires acts[h].kind == ProstituteSleep && acts[h].target.Some?
    ensures Modifiers(acts, players, h) == Ok(PreventAll(acts, players[acts[h].target.value].originatedFrom))
  {
    var pre := PreventAll(acts, players[acts[h].target.value].originatedFrom);
    var c := pre[h];
    assert c.kind == ProstituteSleep;
    AllTypes(pre, players, c);
    StepSkips(Ok(pre), players, c, TARGETTING_TARGET);
    StepSkips(Ok(pre), players, c, ORIGINATING_FROM_TARGET);
  }

  /** A modifier type with no mixin registered for the caller's class is a turn that changes nothing. */
  lemma StepSkips(prev: Result<seq<GameAction>>, players: map<nat, GamePlayer>, caller: GameAction, t: ModifierType)
    requires prev.Ok? ==> HandlesBelow(players, |prev.value|)
    requires Known(players, caller) && caller.kind !in {MedicSave, WolfKill}
    ensures Step(prev, players, caller, t) == prev
  {
    assert Registered(caller.kind, t) == [];
  }

  /**
   * The prostitute's `do_modifiers`: without a target it fails; otherwise
   * exactly the actions the target originated become prevented, and no
   * flag changes (nothing is registered for the prostitute's class).
   */
  lemma ProstituteModifiers(acts: seq<GameAction>, players: map<nat, GamePlayer>, h: nat, i: nat)
    requires Linked(acts, players) && Bound(acts, players) && h < |acts| && i < |acts|
    requires acts[h].kind == ProstituteSleep
    ensures acts[h].target.None? ==> Modifiers(acts, players, h) == Err(AttributeError)
    ensures acts[h].target.Some? ==> Modifiers(acts, players, h).Ok?
    ensures acts[h].target.Some? ==>
      (Modifiers(acts, players, h).value[i]
        == if acts[i].originator == acts[h].target.value then acts[i].(prevented := true) else acts[i])
  {
    LinkedBound(acts, players);
    if acts[h].target.Some? {
      InFrom(acts, players, acts[h].target.value, i);
      ProstituteAt(acts, players, h, i);
    }
  }

  /** The other classes register no modifiers: their `do_modifiers` changes nothing. */
  lemma OtherModifiers(acts: seq<GameAction>, players: map<nat, GamePlayer>, h: nat)
    requires Linked(acts, players) && Bound(acts, players) && h < |acts|
    requires acts[h].kind !in {MedicSave, WolfKill, ProstituteSleep}
    ensures Modifiers(acts, players, h) == Ok(acts)
  {
    LinkedBound(acts, players);
    AllTypes(acts, players, acts[h]);
  }

  /** The same ends give the same links. */
  lemma EndsKeepLinks(acts: seq<GameAction>, r: seq<GameAction>, players: map<nat, GamePlayer>)
    requires Linked(acts, players)
    requires |r| == |acts| && forall i :: 0 <= i < |acts| ==> SameEnds(r[i], acts[i])
    ensures Ends(r) == Ends(acts)
    ensures Linked(r, players)
  {
    assert Ends(r) == Ends(acts);
  }

  /**
   * The modifier pass of a resolution: `do_modifiers` of every action in
   * the given order, stopping at the first error.
   */
  function ModifyAll(acts: seq<GameAction>, players: map<nat, GamePlayer>, order: seq<nat>): (r: Result<seq<GameAction>>)
    requires Bound(acts, players)
    requires forall i :: 0 <= i < |order| ==> order[i] < |acts|
    ensures r.Ok? ==> |r.value| == |acts| && Bound(r.value, players)
    ensures r.Ok? ==> forall i :: 0 <= i < |acts| ==> SameEnds(r.value[i], acts[i]) && Rises(acts[i], r.value[i])
    decreases |order|
  {
    if |order| == 0 then Ok(acts)
    else
      var prev := ModifyAll(acts, players, order[..|order| - 1]);
      if prev.Err? then prev
      else
        var next := Modifiers(prev.value, players, order[|order| - 1]);
        if next.Ok? then
          Chain(acts, prev.value, next.value);
          next
        else next
  }

  /** Two passes that each keep the ends and raise flags make one that does. */
  lemma Chain(acts: seq<GameAction>, mid: seq<GameAction>, r: seq<GameAction>)
    requires |mid| == |acts| && forall i :: 0 <= i < |acts| ==> SameEnds(mid[i], acts[i]) && Rises(acts[i], mid[i])
    requires |r| == |mid| && forall i :: 0 <= i < |mid| ==> SameEnds(r[i], mid[i]) && Rises(mid[i], r[i])
    ensures forall i :: 0 <= i < |acts| ==> SameEnds(r[i], acts[i]) && Rises(acts[i], r[i])
  {
  }

  // ---------------------------------------------------------------------
  // Queries of the role files
  // ---------------------------------------------------------------------

  /**
   * `is_saved_by_medic`: some action targeting the player carries the
   * target-saved flag. `acts` is the resolution's action list.
   */
  predicate IsSavedByMedic(acts: seq<GameAction>, p: GamePlayer)
  {
    exists i :: 0 <= i < |p.targettedBy| && p.targettedBy[i] < |acts| && acts[p.targettedBy[i]].targetSavedByMedic
  }

  /** The search of `is_saved_by_medic`, with its early exit. */
  method SearchSavedByMedic(acts: seq<GameAction>, p: GamePlayer) returns (saved: bool)
    requires forall i :: 0 <= i < |p.targettedBy| ==> p.targettedBy[i] < |acts|
    ensures saved <==> IsSavedByMedic(acts, p)
  {
    saved := false;
    var i := 0;
    while i < |p.targettedBy|
      invariant 0 <= i <= |p.targettedBy|
      invariant !saved
      invariant forall j :: 0 <= j < i ==> !acts[p.targettedBy[j]].targetSavedByMedic
    {
      if acts[p.targettedBy[i]].targetSavedByMedic {
        saved := true;
        break;
      }
      i := i + 1;
    }
  }

  /**
   * `prostitute_sleeping_with`: a TypeError for a player who is not a
   * prostitute, an AssertionError unless exactly one action originated
   * from them, otherwise that action's target.
   */
  function ProstituteSleepingWith(acts: seq<GameAction>, p: GamePlayer): (r: Result<Option<nat>>)
    requires forall i :: 0 <= i < |p.originatedFrom| ==> p.originatedFrom[i] < |acts|
    ensures p.model.role != PROSTITUTE ==> r == Err(TypeError)
    ensures p.model.role == PROSTITUTE && |p.originatedFrom| != 1 ==> r == Err(AssertionError)
    ensures r.Ok? <==> p.model.role == PROSTITUTE && |p.originatedFrom| == 1
    ensures r.Ok? ==> r.value == acts[p.originatedFrom[0]].target
  {
    if p.model.role != PROSTITUTE then Err(TypeError)
    else if |p.originatedFrom| != 1 then Err(AssertionError)
    else Ok(acts[p.originatedFrom[0]].target)
  }
}
