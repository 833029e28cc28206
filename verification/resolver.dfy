// `process_actions` of backend/resolver.py: the stored actions of a stage
// become GameAction objects linked into their players' lists, are ordered
// by (priority, action id), modify one another, execute in that order, and
// the stage's finalizer moves the game on.

module Resolver {
  import opened Types
  import opened Roles
  import opened GameActions
  import opened RoleRules
  import opened GameState
  import Teams
  import Distribution

  // ---------------------------------------------------------------------
  // Building the objects
  // ---------------------------------------------------------------------

  /** The player dictionary, keyed by player id; a later row with the same id replaces an earlier one. */
  function PlayerMap(ps: seq<Player>): (m: map<nat, GamePlayer>)
    ensures forall id :: id in m <==> exists i :: 0 <= i < |ps| && ps[i].id == id
    ensures forall id :: id in m ==> m[id].originatedFrom == [] && m[id].targettedBy == [] && m[id].model in ps
  {
    if |ps| == 0 then map[]
    else
      var init := PlayerMap(ps[..|ps| - 1]);
      assert forall p :: p in ps[..|ps| - 1] ==> p in ps;
      init[ps[|ps| - 1].id := GamePlayer(ps[|ps| - 1], [], [])]
  }

  /** The target id of a stored action: its selected id when that is truthy. */
  function TargetOf(a: Action): Option<int>
  {
    if Truthy(a.selectedPlayerId) then a.selectedPlayerId else None
  }

  /** Whether the dictionary lookups of the GameAction constructor succeed. */
  predicate Resolvable(players: map<nat, GamePlayer>, a: Action)
  {
    a.playerId in players && (TargetOf(a).Some? ==> TargetOf(a).value >= 0 && TargetOf(a).value as nat in players)
  }

  /** The GameAction built from a stored action whose lookups succeed. */
  function Built(players: map<nat, GamePlayer>, a: Action, kind: ActionKind): GameAction
    requires Resolvable(players, a)
  {
    NewGameAction(a, kind, a.playerId, if TargetOf(a).Some? then Some(TargetOf(a).value as nat) else None)
  }

  /**
   * What goes wrong building the object for a stored action: the row's
   * player is missing (AttributeError), its role has no class for the
   * stage (calling None is a TypeError), or a dictionary lookup fails
   * (KeyError).
   */
  function BuildError(allPlayers: seq<Player>, players: map<nat, GamePlayer>, a: Action, stage: GameStage): Option<Error>
  {
    match RoleOfPlayer(allPlayers, a.playerId)
    case None => Some(AttributeError)
    case Some(role) =>
      if RoleAction(role, stage).None? then Some(TypeError)
      else if !Resolvable(players, a) then Some(KeyError)
      else None
  }

  /** The class of a stored action whose object can be built. */
  function KindOf(allPlayers: seq<Player>, players: map<nat, GamePlayer>, a: Action, stage: GameStage): ActionKind
    requires BuildError(allPlayers, players, a, stage).None?
  {
    RoleAction(RoleOfPlayer(allPlayers, a.playerId).value, stage).value
  }

  /** The `i`-th stored action is the first whose object cannot be built, and it fails with `e`. */
  predicate FirstBuildError(allPlayers: seq<Player>, players: map<nat, GamePlayer>, stored: seq<Action>, stage: GameStage, i: nat, e: Error)
    requires i < |stored|
  {
    && BuildError(allPlayers, players, stored[i], stage) == Some(e)
    && forall j :: 0 <= j < i ==> BuildError(allPlayers, players, stored[j], stage).None?
  }

  /**
   * The objects the construction loop builds from `stored`, or the error
   * of the first stored action whose object cannot be built.
   */
  function BuildAll(allPlayers: seq<Player>, players: map<nat, GamePlayer>, stored: seq<Action>, stage: GameStage): Result<seq<GameAction>>
  {
    if |stored| == 0 then Ok([])
    else
      match BuildAll(allPlayers, players, stored[..|stored| - 1], stage)
      case Err(e) => Err(e)
      case Ok(built) =>
        var a := stored[|stored| - 1];
        match BuildError(allPlayers, players, a, stage)
        case Some(e) => Err(e)
        case None => Ok(built + [Built(players, a, KindOf(allPlayers, players, a, stage))])
  }

  /** A failure at stored action `i` after a clean prefix is the result of the whole loop. */
  lemma {:induction false} BuildAllStops(allPlayers: seq<Player>, players: map<nat, GamePlayer>, stored: seq<Action>, stage: GameStage, i: nat)
    requires i < |stored| && BuildAll(allPlayers, players, stored[..i], stage).Ok?
    requires BuildError(allPlayers, players, stored[i], stage).Some?
    ensures BuildAll(allPlayers, players, stored, stage) == Err(BuildError(allPlayers, players, stored[i], stage).value)
    decreases |stored|
  {
    assert stored[..i + 1][..i] == stored[..i];
    if i + 1 < |stored| {
      var init := stored[..|stored| - 1];
      assert init[..i] == stored[..i] && init[i] == stored[i];
      BuildAllStops(allPlayers, players, init, stage, i);
    } else {
      assert stored[..i] == stored[..|stored| - 1];
    }
  }

  /** One more stored action whose object can be built extends the list by that object. */
  lemma BuildAllNext(allPlayers: seq<Player>, players: map<nat, GamePlayer>, stored: seq<Action>, stage: GameStage, i: nat, built: seq<GameAction>, kind: ActionKind)
    requires i < |stored| && BuildAll(allPlayers, players, stored[..i], stage) == Ok(built)
    requires RoleOfPlayer(allPlayers, stored[i].playerId).Some?
    requires RoleAction(RoleOfPlayer(allPlayers, stored[i].playerId).value, stage) == Some(kind)
    requires Resolvable(players, stored[i])
    ensures BuildAll(allPlayers, players, stored[..i + 1], stage) == Ok(built + [Built(players, stored[i], kind)])
  {
    assert stored[..i + 1][..i] == stored[..i];
  }

  /**
   * The loop builds every object exactly when no stored action fails, the
   * i-th object being built from the i-th stored action; otherwise it
   * reports the error of the first failing one.
   */
  lemma {:induction false} BuildAllSpec(allPlayers: seq<Player>, players: map<nat, GamePlayer>, stored: seq<Action>, stage: GameStage)
    ensures BuildAll(allPlayers, players, stored, stage).Ok? <==>
      forall i :: 0 <= i < |stored| ==> BuildError(allPlayers, players, stored[i], stage).None?
    ensures BuildAll(allPlayers, players, stored, stage).Err? ==>
      exists i: nat :: i < |stored| && FirstBuildError(allPlayers, players, stored, stage, i, BuildAll(allPlayers, players, stored, stage).error)
    ensures BuildAll(allPlayers, players, stored, stage).Ok? ==>
      var built := BuildAll(allPlayers, players, stored, stage).value;
      |built| == |stored| && forall i :: 0 <= i < |stored| ==>
        (BuildError(allPlayers, players, stored[i], stage).None? &&
         built[i] == Built(players, stored[i], KindOf(allPlayers, players, stored[i], stage)))
  {
    BuildAllOk(allPlayers, players, stored, stage);
    BuildAllErr(allPlayers, players, stored, stage);
  }

  lemma {:induction false} BuildAllOk(allPlayers: seq<Player>, players: map<nat, GamePlayer>, stored: seq<Action>, stage: GameStage)
    ensures BuildAll(allPlayers, players, stored, stage).Ok? ==>
      var built := BuildAll(allPlayers, players, stored, stage).value;
      |built| == |stored| && forall i :: 0 <= i < |stored| ==>
        (BuildError(allPlayers, players, stored[i], stage).None? &&
         built[i] == Built(players, stored[i], KindOf(allPlayers, players, stored[i], stage)))
  {
    if |stored| > 0 && BuildAll(allPlayers, players, stored, stage).Ok? {
      var init := stored[..|stored| - 1];
      var a := stored[|stored| - 1];
      BuildAllOk(allPlayers, players, init, stage);
      var built := BuildAll(allPlayers, players, init, stage).value;
      assert BuildError(allPlayers, players, a, stage).None?;
      var next := built + [Built(players, a, KindOf(allPlayers, players, a, stage))];
      assert BuildAll(allPlayers, players, stored, stage) == Ok(next);
      forall i | 0 <= i < |stored|
        ensures BuildError(allPlayers, players, stored[i], stage).None?
        ensures next[i] == Built(players, stored[i], KindOf(allPlayers, players, stored[i], stage))
      {
        if i < |init| {
          assert init[i] == stored[i] && next[i] == built[i];
        }
      }
    }
  }

  lemma {:induction false} BuildAllErr(allPlayers: seq<Player>, players: map<nat, GamePlayer>, stored: seq<Action>, stage: GameStage)
    ensures BuildAll(allPlayers, players, stored, stage).Err? ==>
      exists i: nat :: i < |stored| && FirstBuildError(allPlayers, players, stored, stage, i, BuildAll(allPlayers, players, stored, stage).error)
  {
    if |stored| > 0 && BuildAll(allPlayers, players, stored, stage).Err? {
      var init := stored[..|stored| - 1];
      var a := stored[|stored| - 1];
      var e := BuildAll(allPlayers, players, stored, stage).error;
      assert forall i :: 0 <= i < |init| ==> init[i] == stored[i];
      if BuildAll(allPlayers, players, init, stage).Err? {
        BuildAllErr(allPlayers, players, init, stage);
        var k: nat :| k < |init| && FirstBuildError(allPlayers, players, init, stage, k, e);
        assert FirstBuildError(allPlayers, players, stored, stage, k, e);
      } else {
        BuildAllOk(allPlayers, players, init, stage);
        assert FirstBuildError(allPlayers, players, stored, stage, |stored| - 1, e);
      }
    }
  }

  /** The dictionary after the constructor of action number `n` appended it to its players' lists. */
  function AddLinks(players: map<nat, GamePlayer>, n: nat, g: GameAction): map<nat, GamePlayer>
  {
    map id | id in players :: players[id].(
      originatedFrom := players[id].originatedFrom + (if g.originator == id then [n] else []),
      targettedBy := players[id].targettedBy + (if g.target == Some(id) then [n] else []))
  }

  /** `players[o].originated_from.append(n)` */
  function LinkOriginator(players: map<nat, GamePlayer>, n: nat, o: nat): map<nat, GamePlayer>
    requires o in players
  {
    players[o := players[o].(originatedFrom := players[o].originatedFrom + [n])]
  }

  /** `players[v].targetted_by.append(n)` */
  function LinkTarget(players: map<nat, GamePlayer>, n: nat, v: nat): map<nat, GamePlayer>
    requires v in players
  {
    players[v := players[v].(targettedBy := players[v].targettedBy + [n])]
  }

  /** The two appends of the constructor, one after the other, give the linked dictionary. */
  lemma LinkSteps(players: map<nat, GamePlayer>, n: nat, g: GameAction)
    requires Known(players, g)
    ensures var p := LinkOriginator(players, n, g.originator);
      AddLinks(players, n, g) == if g.target.Some? then LinkTarget(p, n, g.target.value) else p
  {
    var p := LinkOriginator(players, n, g.originator);
    var q := if g.target.Some? then LinkTarget(p, n, g.target.value) else p;
    var linked := AddLinks(players, n, g);
    assert q.Keys == linked.Keys;
    forall id | id in q ensures q[id] == linked[id] {
    }
  }

  /** Linking changes no player's set of keys and no player's model. */
  lemma AddLinksKeepsModels(players: map<nat, GamePlayer>, n: nat, g: GameAction)
    ensures AddLinks(players, n, g).Keys == players.Keys
    ensures forall id :: id in players ==> AddLinks(players, n, g)[id].model == players[id].model
  {
  }

  /** Appending an action whose players are known, with its links, keeps every list exact. */
  lemma LinkedAppend(acts: seq<GameAction>, players: map<nat, GamePlayer>, g: GameAction)
    requires Linked(acts, players) && Known(players, g)
    ensures Linked(acts + [g], AddLinks(players, |acts|, g))
  {
    var next := acts + [g];
    var linked := AddLinks(players, |acts|, g);
    var e := End(g.originator, g.target);
    EndsSnoc(acts, g);
    forall h | 0 <= h < |next|
      ensures next[h].originator in linked && (next[h].target.Some? ==> next[h].target.value in linked)
    {
      if h < |acts| {
        assert next[h] == acts[h];
      }
    }
    forall id | id in linked
      ensures linked[id].originatedFrom == From(Ends(next), id)
      ensures linked[id].targettedBy == To(Ends(next), id)
    {
      EndsAppend(Ends(acts), e, id);
    }
  }

  lemma EndsSnoc(acts: seq<GameAction>, g: GameAction)
    ensures Ends(acts + [g]) == Ends(acts) + [End(g.originator, g.target)]
  {
    var l := Ends(acts + [g]);
    var r := Ends(acts) + [End(g.originator, g.target)];
    assert |l| == |r|;
    forall i | 0 <= i < |l| ensures l[i] == r[i] {
      if i < |acts| {
        assert (acts + [g])[i] == acts[i];
      }
    }
  }

  // ---------------------------------------------------------------------
  // The order of the modifier and execute loops
  // ---------------------------------------------------------------------

  /**
   * Action `x` comes before action `y` in the sorted list: a smaller
   * (priority, action id) key, or the same key and built earlier, since
   * the list sort keeps the construction order of equal keys.
   */
  predicate Before(acts: seq<GameAction>, x: nat, y: nat)
    requires x < |acts| && y < |acts|
  {
    var px, py := Priority(acts[x].kind), Priority(acts[y].kind);
    var ix, iy := acts[x].model.id, acts[y].model.id;
    px < py || (px == py && (ix < iy || (ix == iy && x < y)))
  }

  lemma BeforeOrder(acts: seq<GameAction>, x: nat, y: nat, z: nat)
    requires x < |acts| && y < |acts| && z < |acts|
    ensures !Before(acts, x, x)
    ensures x != y ==> (Before(acts, x, y) <==> !Before(acts, y, x))
    ensures Before(acts, x, y) && Before(acts, y, z) ==> Before(acts, x, z)
  {
  }

  /** Handles sorted strictly by `Before`. */
  predicate SortedBy(acts: seq<GameAction>, order: seq<nat>)
  {
    && (forall i :: 0 <= i < |order| ==> order[i] < |acts|)
    && (forall i, j :: 0 <= i < j < |order| ==> Before(acts, order[i], order[j]))
  }

  /** `order` holds every handle of `acts` once. */
  predicate Permutes(acts: seq<GameAction>, order: seq<nat>)
  {
    && |order| == |acts|
    && (forall i :: 0 <= i < |order| ==> order[i] < |acts|)
    && (forall h :: 0 <= h < |acts| ==> h in order)
  }

  /** `h` inserted before the first handle it comes before. */
  function Insert(acts: seq<GameAction>, s: seq<nat>, h: nat): (r: seq<nat>)
    requires h < |acts| && forall i :: 0 <= i < |s| ==> s[i] < |acts|
    ensures |r| == |s| + 1 && multiset(r) == multiset(s) + multiset{h}
    ensures forall x :: x in r <==> x in s || x == h
    ensures forall i :: 0 <= i < |r| ==> r[i] < |acts|
  {
    if |s| == 0 then [h]
    else if Before(acts, h, s[0]) then [h] + s
    else
      var rest := Insert(acts, s[1..], h);
      assert s == [s[0]] + s[1..];
      [s[0]] + rest
  }

  /** Inserting a handle missing from a sorted list keeps it sorted. */
  lemma {:induction false} InsertSorted(acts: seq<GameAction>, s: seq<nat>, h: nat)
    requires h < |acts| && SortedBy(acts, s) && h !in s
    ensures SortedBy(acts, Insert(acts, s, h))
  {
    if |s| == 0 {
    } else if Before(acts, h, s[0]) {
      forall j | 0 <= j < |s| ensures Before(acts, h, s[j]) {
        if j > 0 {
          BeforeOrder(acts, h, s[0], s[j]);
        }
      }
      ConsSorted(acts, h, s);
    } else {
      var tail := s[1..];
      TailSorted(acts, s);
      InsertSorted(acts, tail, h);
      var rest := Insert(acts, tail, h);
      BeforeOrder(acts, h, s[0], h);
      forall j | 0 <= j < |rest| ensures Before(acts, s[0], rest[j]) {
        if rest[j] != h {
          assert rest[j] in tail;
          var k :| 0 <= k < |tail| && tail[k] == rest[j];
          assert Before(acts, s[0], s[k + 1]);
        }
      }
      ConsSorted(acts, s[0], rest);
      assert [s[0]] + rest == Insert(acts, s, h);
    }
  }

  /** A handle that comes before every handle of a sorted list can lead it. */
  lemma ConsSorted(acts: seq<GameAction>, x: nat, rest: seq<nat>)
    requires x < |acts| && SortedBy(acts, rest)
    requires forall j :: 0 <= j < |rest| ==> Before(acts, x, rest[j])
    ensures SortedBy(acts, [x] + rest)
  {
    var r := [x] + rest;
    forall i, j | 0 <= i < j < |r| ensures Before(acts, r[i], r[j]) {
      if i == 0 {
        assert r[j] == rest[j - 1];
      } else {
        assert r[i] == rest[i - 1] && r[j] == rest[j - 1];
      }
    }
  }

  /** The tail of a sorted list is sorted. */
  lemma TailSorted(acts: seq<GameAction>, s: seq<nat>)
    requires |s| > 0 && SortedBy(acts, s)
    ensures SortedBy(acts, s[1..])
  {
    var tail := s[1..];
    forall i, j | 0 <= i < j < |tail| ensures Before(acts, tail[i], tail[j]) {
      assert tail[i] == s[i + 1] && tail[j] == s[j + 1];
    }
  }

  /** The first `n` handles, sorted: the list `process_actions` sorts. */
  function SortedPrefix(acts: seq<GameAction>, n: nat): (r: seq<nat>)
    requires n <= |acts|
    ensures |r| == n && multiset(r) == multiset(Range(n))
    ensures forall i :: 0 <= i < |r| ==> r[i] < n
  {
    if n == 0 then []
    else
      assert Range(n) == Range(n - 1) + [n - 1];
      var s := SortedPrefix(acts, n - 1);
      var r := Insert(acts, s, n - 1);
      assert forall i :: 0 <= i < |r| ==> r[i] in r && (r[i] in s ==> r[i] < n - 1);
      r
  }

  lemma {:induction false} SortedPrefixSorted(acts: seq<GameAction>, n: nat)
    requires n <= |acts|
    ensures SortedBy(acts, SortedPrefix(acts, n))
  {
    if n > 0 {
      var s := SortedPrefix(acts, n - 1);
      SortedPrefixSorted(acts, n - 1);
      SortedPrefixStep(acts, n);
      InsertSorted(acts, s, n - 1);
    }
  }

  /** One more handle: the last one is inserted into the sorted list of the others, where it is missing. */
  lemma SortedPrefixStep(acts: seq<GameAction>, n: nat)
    requires 0 < n <= |acts|
    ensures SortedPrefix(acts, n) == Insert(acts, SortedPrefix(acts, n - 1), n - 1)
    ensures n - 1 !in SortedPrefix(acts, n - 1)
  {
    BelowNotIn(SortedPrefix(acts, n - 1), n - 1);
  }

  lemma BelowNotIn(s: seq<nat>, n: nat)
    requires forall i :: 0 <= i < |s| ==> s[i] < n
    ensures n !in s
  {
  }

  /** `[0, 1, ..., n - 1]` */
  function Range(n: nat): (r: seq<nat>)
    ensures |r| == n && forall i :: 0 <= i < n ==> r[i] == i
  {
    if n == 0 then [] else Range(n - 1) + [n - 1]
  }

  /** The sort of `process_actions`: by (priority, action id), keeping the construction order of ties. */
  function Ordered(acts: seq<GameAction>): seq<nat>
  {
    SortedPrefix(acts, |acts|)
  }

  /**
   * The sorted list holds every action once and runs in ascending
   * (priority, action id) order, ties in construction order: the lower
   * priority acts first.
   */
  lemma OrderedSpec(acts: seq<GameAction>)
    ensures Permutes(acts, Ordered(acts)) && SortedBy(acts, Ordered(acts))
    ensures forall i, j :: 0 <= i < j < |acts| ==>
      var x, y := acts[Ordered(acts)[i]], acts[Ordered(acts)[j]];
      Priority(x.kind) < Priority(y.kind) || (Priority(x.kind) == Priority(y.kind) && x.model.id <= y.model.id)
  {
    SortedPrefixSorted(acts, |acts|);
    var o := Ordered(acts);
    forall h | 0 <= h < |acts| ensures h in o {
      assert Range(|acts|)[h] == h;
      assert h in multiset(Range(|acts|));
    }
  }

  /** One more `do_modifiers` after a clean prefix of the loop. */
  lemma ModifyAllNext(a0: seq<GameAction>, players: map<nat, GamePlayer>, order: seq<nat>, i: nat, acts: seq<GameAction>)
    requires Bound(a0, players) && Bound(acts, players) && i < |order|
    requires forall k :: 0 <= k < |order| ==> order[k] < |a0|
    requires ModifyAll(a0, players, order[..i]) == Ok(acts)
    ensures ModifyAll(a0, players, order[..i + 1]) == Modifiers(acts, players, order[i])
  {
    assert order[..i + 1][..i] == order[..i];
  }

  /** One step of the in-place modifier loop: its result continues the specified loop, or its error ends it. */
  lemma ModifyStep(a0: seq<GameAction>, players: map<nat, GamePlayer>, order: seq<nat>, i: nat, acts: seq<GameAction>)
    requires Bound(a0, players) && Linked(acts, players) && Bound(acts, players) && |acts| == |a0| && i < |order|
    requires forall k :: 0 <= k < |order| ==> order[k] < |a0|
    requires ModifyAll(a0, players, order[..i]) == Ok(acts)
    ensures var next := Modifiers(acts, players, order[i]);
      && (next.Err? ==> ModifyAll(a0, players, order) == Err(next.error))
      && (next.Ok? ==> Linked(next.value, players) && |next.value| == |a0|
                       && ModifyAll(a0, players, order[..i + 1]) == next)
  {
    var next := Modifiers(acts, players, order[i]);
    ModifyAllNext(a0, players, order, i, acts);
    if next.Err? {
      ModifyAllStops(a0, players, order, i);
    } else {
      EndsKeepLinks(acts, next.value, players);
    }
  }

  /** An exception in `do_modifiers` of the `i`-th action is the result of the whole loop. */
  lemma {:induction false} ModifyAllStops(a0: seq<GameAction>, players: map<nat, GamePlayer>, order: seq<nat>, i: nat)
    requires Bound(a0, players) && i < |order|
    requires forall k :: 0 <= k < |order| ==> order[k] < |a0|
    requires ModifyAll(a0, players, order[..i + 1]).Err?
    ensures ModifyAll(a0, players, order) == ModifyAll(a0, players, order[..i + 1])
    decreases |order|
  {
    if i + 1 < |order| {
      var init := order[..|order| - 1];
      assert init[..i + 1] == order[..i + 1];
      ModifyAllStops(a0, players, init, i);
    } else {
      assert order[..i + 1] == order;
    }
  }

  /** The state of one resolution: the GameAction objects, in construction order, and the GamePlayer dictionary. */
  class Resolution {
    var acts: seq<GameAction>
    var players: map<nat, GamePlayer>

    /** Every player's lists hold exactly its actions. */
    ghost predicate Valid()
      reads this
    {
      Linked(acts, players)
    }

    /** The dictionary of `process_actions`: one GamePlayer per shown player, with empty lists. */
    constructor (ps: seq<Player>)
      ensures players == PlayerMap(ps) && acts == []
      ensures Valid()
    {
      acts := [];
      var m: map<nat, GamePlayer> := map[];
      var i := 0;
      while i < |ps|
        invariant 0 <= i <= |ps|
        invariant m == PlayerMap(ps[..i])
      {
        assert ps[..i + 1][..i] == ps[..i];
        m := m[ps[i].id := GamePlayer(ps[i], [], [])];
        i := i + 1;
      }
      assert ps[..|ps|] == ps;
      players := m;
    }

    /**
     * The GameAction constructor: the originator, then (for a truthy
     * selected id) the target, are looked up, a failed lookup being a
     * KeyError before anything changes; the new object is appended to the
     * originator's originated list and then the target's targeted list.
     */
    method Register(a: Action, kind: ActionKind) returns (r: Result<()>)
      requires Valid()
      modifies this
      ensures Valid()
      ensures r.Ok? <==> Resolvable(old(players), a)
      ensures r.Err? ==> r.error == KeyError && acts == old(acts) && players == old(players)
      ensures r.Ok? ==> acts == old(acts) + [Built(old(players), a, kind)]
      ensures players.Keys == old(players).Keys
      ensures forall id :: id in players ==> players[id].model == old(players)[id].model
    {
      if a.playerId !in players {
        return Err(KeyError);
      }
      var t := TargetOf(a);
      if t.Some? && !(t.value >= 0 && t.value as nat in players) {
        return Err(KeyError);
      }
      var g := Built(players, a, kind);
      AddLinksKeepsModels(players, |acts|, g);
      Append(g);
      r := Ok(());
    }

    /** The new object appended, then its handle added to its originator's and its target's lists. */
    method Append(g: GameAction)
      requires Valid() && Known(players, g)
      modifies this
      ensures Valid()
      ensures acts == old(acts) + [g] && players == AddLinks(old(players), |old(acts)|, g)
    {
      var n := |acts|;
      LinkedAppend(acts, players, g);
      LinkSteps(players, n, g);
      players := LinkOriginator(players, n, g.originator);
      if g.target.Some? {
        players := LinkTarget(players, n, g.target.value);
      }
      acts := acts + [g];
    }

    /**
     * The loop of `process_actions` building one object per stored action,
     * in order; the first failure ends it. `allPlayers` are every player
     * row of the game, which the action rows' player relation reads.
     */
    method RegisterAll(allPlayers: seq<Player>, stored: seq<Action>, stage: GameStage) returns (r: Result<()>)
      requires Valid() && acts == []
      modifies this
      ensures Valid()
      ensures players.Keys == old(players).Keys
      ensures forall id :: id in players ==> players[id].model == old(players)[id].model
      ensures r.Ok? ==> BuildAll(allPlayers, old(players), stored, stage) == Ok(acts)
      ensures r.Err? ==> BuildAll(allPlayers, old(players), stored, stage) == Err(r.error)
    {
      ghost var p0 := players;
      var i := 0;
      while i < |stored|
        invariant 0 <= i <= |stored|
        invariant Valid()
        invariant players.Keys == p0.Keys
        invariant forall id :: id in players ==> players[id].model == p0[id].model
        invariant BuildAll(allPlayers, p0, stored[..i], stage) == Ok(acts)
      {
        var a := stored[i];
        var role := RoleOfPlayer(allPlayers, a.playerId);
        if role.None? {
          BuildAllStops(allPlayers, p0, stored, stage, i);
          return Err(AttributeError);
        }
        var kind := RoleAction(role.value, stage);
        if kind.None? {
          BuildAllStops(allPlayers, p0, stored, stage, i);
          return Err(TypeError);
        }
        assert Resolvable(players, a) <==> Resolvable(p0, a);
        ghost var before := acts;
        r := Register(a, kind.value);
        if r.Err? {
          BuildAllStops(allPlayers, p0, stored, stage, i);
          return;
        }
        BuildAllNext(allPlayers, p0, stored, stage, i, before, kind.value);
        i := i + 1;
      }
      assert stored[..|stored|] == stored;
      r := Ok(());
    }

    /**
     * The modifier loop of `process_actions`: `do_modifiers` of each action
     * in the given order; an exception ends the loop.
     */
    method ModifyInOrder(order: seq<nat>) returns (r: Result<()>)
      requires Valid() && Bound(acts, players)
      requires forall i :: 0 <= i < |order| ==> order[i] < |acts|
      modifies this`acts
      ensures Valid()
      ensures ModifyAll(old(acts), players, order) == if r.Ok? then Ok(acts) else Err(r.error)
    {
      var a0, ps := acts, players;
      var cur := a0;
      var i := 0;
      assert order[..0] == [];
      while i < |order|
        invariant 0 <= i <= |order|
        invariant Linked(cur, ps) && Bound(cur, ps) && |cur| == |a0|
        invariant ModifyAll(a0, ps, order[..i]) == Ok(cur)
      {
        var next := Modifiers(cur, ps, order[i]);
        ModifyStep(a0, ps, order, i, cur);
        if next.Err? {
          acts := cur;
          return Err(next.error);
        }
        LinkedBound(next.value, ps);
        cur := next.value;
        i := i + 1;
      }
      assert order[..|order|] == order;
      acts := cur;
      r := Ok(());
    }
  }
}
