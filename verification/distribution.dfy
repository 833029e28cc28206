// How a new game's roles are drawn: a number of wolves, the seer and the
// medic, a few villagers, then weighted draws from the optional roles (the
// mason always in pairs), and a final shuffle. The random draws are inputs.

module Distribution {
  import opened Types

  /** The roles every game with enough players has. */
  const GuaranteedRoles: seq<PlayerRole> := [SEER, MEDIC]

  /** The optional roles and their default relative weights, in dictionary order. */
  const RandomisedRoles: seq<(PlayerRole, int)> :=
    [(JESTER, 20), (VIGILANTE, 10), (MAYOR, 10), (MILLER, 10), (ACOLYTE, 5),
     (PRIEST, 10), (PROSTITUTE, 10), (MASON, 7), (EXORCIST, 10), (FOOL, 10)]

  /** Roles that are always handed out twice. */
  predicate IsDualRole(r: PlayerRole)
  {
    r == MASON
  }

  /** The dictionary gives `r` a weight. */
  ghost predicate HasKey(ws: seq<(PlayerRole, int)>, r: PlayerRole)
  {
    exists p :: p in ws && p.0 == r
  }

  /** The keys of the optional roles' dictionary, in order. */
  const RandomisedRoleNames: seq<PlayerRole> :=
    [JESTER, VIGILANTE, MAYOR, MILLER, ACOLYTE, PRIEST, PROSTITUTE, MASON, EXORCIST, FOOL]

  lemma RandomisedRoleNamesAreKeys()
    ensures |RandomisedRoleNames| == |RandomisedRoles|
    ensures forall i :: 0 <= i < |RandomisedRoles| ==> RandomisedRoleNames[i] == RandomisedRoles[i].0
  {
  }

  /** Every role the module knows how to hand out. */
  const AllDistributedRoles: seq<PlayerRole> :=
    GuaranteedRoles + RandomisedRoleNames + [WOLF, VILLAGER, NARRATOR, SPECTATOR]

  /** The import-time check that every role can be distributed. */
  function DistributableCheck(known: seq<PlayerRole>): (r: Result<()>)
    ensures r.Ok? <==> forall role: PlayerRole :: role in known
    ensures r.Err? ==> r.error == TypeError
  {
    if forall role: PlayerRole :: role in known then Ok(()) else Err(TypeError)
  }

  /** The module's own list passes its import-time check. */
  lemma DistributableCheckPasses()
    ensures DistributableCheck(AllDistributedRoles).Ok?
  {
    var all := AllDistributedRoles;
    assert all == [SEER, MEDIC, JESTER, VIGILANTE, MAYOR, MILLER, ACOLYTE, PRIEST,
                   PROSTITUTE, MASON, EXORCIST, FOOL, WOLF, VILLAGER, NARRATOR, SPECTATOR];
    forall role: PlayerRole ensures role in all {
      match role {
        case SEER => assert all[0] == role;
        case MEDIC => assert all[1] == role;
        case JESTER => assert all[2] == role;
        case VIGILANTE => assert all[3] == role;
        case MAYOR => assert all[4] == role;
        case MILLER => assert all[5] == role;
        case ACOLYTE => assert all[6] == role;
        case PRIEST => assert all[7] == role;
        case PROSTITUTE => assert all[8] == role;
        case MASON => assert all[9] == role;
        case EXORCIST => assert all[10] == role;
        case FOOL => assert all[11] == role;
        case WOLF => assert all[12] == role;
        case VILLAGER => assert all[13] == role;
        case NARRATOR => assert all[14] == role;
        case SPECTATOR => assert all[15] == role;
      }
    }
  }

  /** Python's math.ceil(n / 5) on integers. */
  function CeilFifth(n: int): (r: int)
    ensures 5 * (r - 1) < n <= 5 * r
  {
    if n >= 0 then (n + 4) / 5 else -((-n) / 5)
  }

  /** `_default_num_wolves`: a lookup for 3 to 15 players, otherwise one wolf per five players, rounded up. */
  function DefaultNumWolves(n: int): (r: int)
    ensures 3 <= n <= 6 ==> r == 1
    ensures 7 <= n <= 9 ==> r == 2
    ensures 10 <= n <= 15 ==> r == 3
    ensures (n < 3 || n > 15) ==> 5 * (r - 1) < n <= 5 * r
  {
    if 3 <= n <= 6 then 1
    else if 7 <= n <= 9 then 2
    else if 10 <= n <= 15 then 3
    else CeilFifth(n)
  }

  /**
   * With the default number of wolves there is room for the wolves and
   * the guaranteed roles exactly when at least three players take part.
   */
  lemma DefaultWolvesFit(n: int)
    ensures |GuaranteedRoles| + DefaultNumWolves(n) <= n <==> n >= 3
  {
  }

  datatype WolvesSetting = WolfCount(count: int) | DefaultWolves | NotAnInt
  datatype Settings = Settings(numberOfWolves: WolvesSetting, roleWeights: Option<seq<(PlayerRole, int)>>)
  /** The `settings` argument: None, a settings object, or something else. */
  datatype SettingsArg = NoSettings | Given(settings: Settings) | NotSettings

  /** The settings a None argument stands for. */
  const DefaultSettings: Settings := Settings(DefaultWolves, None)

  /** The dictionary comprehension keeping only the positive weights. */
  function PositiveWeights(ws: seq<(PlayerRole, int)>): (r: seq<(PlayerRole, int)>)
    ensures forall p :: p in r <==> p in ws && p.1 > 0
  {
    if |ws| == 0 then []
    else if ws[0].1 > 0 then [ws[0]] + PositiveWeights(ws[1..])
    else PositiveWeights(ws[1..])
  }

  /** `del d[key]` on an insertion-ordered dictionary. */
  function Remove(ws: seq<(PlayerRole, int)>, key: PlayerRole): (r: seq<(PlayerRole, int)>)
    ensures forall p :: p in r <==> p in ws && p.0 != key
    ensures |r| <= |ws|
    ensures (exists i :: 0 <= i < |ws| && ws[i].0 == key) ==> |r| < |ws|
  {
    if |ws| == 0 then []
    else if ws[0].0 == key then Remove(ws[1..], key)
    else
      var rest := Remove(ws[1..], key);
      assert (exists i :: 0 <= i < |ws| && ws[i].0 == key) ==> (exists i :: 0 <= i < |ws[1..]| && ws[1..][i].0 == key) by {
        if i :| 0 <= i < |ws| && ws[i].0 == key {
          assert ws[1..][i - 1] == ws[i];
        }
      }
      [ws[0]] + rest
  }

  function Repeat(r: PlayerRole, n: int): (s: seq<PlayerRole>)
    ensures |s| == if n > 0 then n else 0
    ensures forall i :: 0 <= i < |s| ==> s[i] == r
  {
    if n <= 0 then [] else [r] + Repeat(r, n - 1)
  }

  function Count(s: seq<PlayerRole>, r: PlayerRole): nat
  {
    multiset(s)[r]
  }

  /**
   * `random.shuffle`: for i from the last index down to 1, swap element i
   * with the element at a drawn index j, 0 <= j <= i.
   */
  function ShuffleDown(s: seq<PlayerRole>, i: nat, draw: nat -> nat): seq<PlayerRole>
    requires i < |s|
    decreases i
  {
    if i == 0 then s
    else
      var j := draw(i) % (i + 1);
      ShuffleDown(s[i := s[j]][j := s[i]], i - 1, draw)
  }

  function Shuffle(s: seq<PlayerRole>, draw: nat -> nat): seq<PlayerRole>
  {
    if |s| == 0 then s else ShuffleDown(s, |s| - 1, draw)
  }

  /** Shuffling only reorders: the same roles, as often as before. */
  lemma {:induction false} ShufflePermutes(s: seq<PlayerRole>, draw: nat -> nat)
    ensures |Shuffle(s, draw)| == |s|
    ensures multiset(Shuffle(s, draw)) == multiset(s)
  {
    if |s| > 0 {
      ShuffleDownPermutes(s, |s| - 1, draw);
    }
  }

  lemma {:induction false} ShuffleDownPermutes(s: seq<PlayerRole>, i: nat, draw: nat -> nat)
    requires i < |s|
    ensures |ShuffleDown(s, i, draw)| == |s|
    ensures multiset(ShuffleDown(s, i, draw)) == multiset(s)
    decreases i
  {
    if i > 0 {
      var j := draw(i) % (i + 1);
      var t := s[i := s[j]][j := s[i]];
      SwapPermutes(s, i, j);
      ShuffleDownPermutes(t, i - 1, draw);
    }
  }

  lemma SwapPermutes(s: seq<PlayerRole>, i: nat, j: nat)
    requires i < |s| && j < |s|
    ensures multiset(s[i := s[j]][j := s[i]]) == multiset(s)
  {
    if i != j {
      var t := s[i := s[j]];
      assert multiset(t) == multiset(s) - multiset{s[i]} + multiset{s[j]};
      assert t[j] == s[j];
      assert multiset(t[j := s[i]]) == multiset(t) - multiset{s[j]} + multiset{s[i]};
    }
  }

  /**
   * The random inputs of one call: whether the i-th `random.random()` of
   * the villager count falls below the villager probability, the index
   * source of the k-th weighted choice, and the swap source of the shuffle.
   */
  datatype Draws = Draws(villager: nat -> bool, choice: nat -> nat, shuffle: nat -> nat)

  /** `sum(random.random() < p for _ in range(n))`: how many of the first n draws hit. */
  function CountHits(hit: nat -> bool, n: int): (c: nat)
    ensures c <= if n > 0 then n else 0
  {
    if n <= 0 then 0 else CountHits(hit, n - 1) + (if hit(n - 1) then 1 else 0)
  }

  /** The roles that make up the list before the optional roles are drawn. */
  function BaseRoles(numWolves: int, numVillagers: int): seq<PlayerRole>
  {
    Repeat(WOLF, numWolves) + GuaranteedRoles + Repeat(VILLAGER, numVillagers)
  }

  /**
   * The filling loop of `assign_roles`: while places are left, draw a role
   * from the pool (the k-th draw picks index `choice(k)` modulo the pool's
   * size) and remove it from the pool; a drawn mason takes two places, or
   * none when fewer than two are left; an empty pool gives villagers.
   * Returns what the loop appends to a list that already holds `filled`
   * roles.
   */
  method DrawOptionalRoles(numPlayers: int, filled: nat, weights: seq<(PlayerRole, int)>, choice: nat -> nat)
    returns (extras: seq<PlayerRole>)
    ensures filled < numPlayers ==> filled + |extras| == numPlayers
    ensures filled >= numPlayers ==> extras == []
    ensures forall r :: r in extras && r != VILLAGER ==> HasKey(weights, r)
    ensures forall r :: r != VILLAGER && r != MASON ==> Count(extras, r) <= 1
    ensures Count(extras, MASON) in {0, 2}
  {
    var remaining := weights;
    extras := [];
    var step: nat := 0;
    ghost var drawn: set<PlayerRole> := {};
    while filled + |extras| < numPlayers
      invariant filled + |extras| <= numPlayers || extras == []
      invariant Drawing(weights, remaining, drawn, extras)
      decreases numPlayers - filled - |extras| + |remaining|
    {
      if |remaining| == 0 {
        DrawStep(weights, remaining, drawn, extras, VILLAGER, 1);
        extras := extras + Repeat(VILLAGER, 1);
      } else {
        var index := DrawIndex(choice, step, |remaining|);
        var chosen := remaining[index].0;
        assert remaining[index] in remaining;
        var copies: nat;
        if IsDualRole(chosen) {
          copies := if numPlayers - (filled + |extras|) >= 2 then 2 else 0;
        } else {
          copies := 1;
        }
        DrawStep(weights, remaining, drawn, extras, chosen, copies);
        extras := extras + Repeat(chosen, copies);
        drawn := drawn + {chosen};
        remaining := Remove(remaining, chosen);
        step := step + 1;
      }
    }
  }

  /**
   * What the filling loop keeps: the pool holds only roles of the weights
   * not yet drawn, every drawn role has a weight, every extra but a
   * villager was drawn, and each drawn role was appended once (masons as
   * a pair).
   */
  ghost predicate Drawing(weights: seq<(PlayerRole, int)>, remaining: seq<(PlayerRole, int)>, drawn: set<PlayerRole>, extras: seq<PlayerRole>)
  {
    && (forall p :: p in remaining ==> p in weights && p.0 !in drawn)
    && (forall r :: r in drawn ==> HasKey(weights, r))
    && (forall r :: r in extras && r != VILLAGER ==> r in drawn)
    && (forall r :: r != VILLAGER && r != MASON ==> Count(extras, r) <= 1)
    && Count(extras, MASON) in {0, 2}
    && (Count(extras, MASON) == 2 ==> MASON in drawn)
  }

  /** One turn of the filling loop keeps `Drawing`: a villager from an empty pool, or a role drawn from the pool. */
  lemma DrawStep(weights: seq<(PlayerRole, int)>, remaining: seq<(PlayerRole, int)>, drawn: set<PlayerRole>, extras: seq<PlayerRole>,
                 chosen: PlayerRole, copies: nat)
    requires Drawing(weights, remaining, drawn, extras)
    requires |remaining| == 0 ==> chosen == VILLAGER && copies == 1
    requires |remaining| > 0 ==> (exists p :: p in remaining && p.0 == chosen) && (IsDualRole(chosen) ==> copies in {0, 2}) && (!IsDualRole(chosen) ==> copies == 1)
    ensures |remaining| == 0 ==> Drawing(weights, remaining, drawn, extras + Repeat(chosen, copies))
    ensures |remaining| > 0 ==> Drawing(weights, Remove(remaining, chosen), drawn + {chosen}, extras + Repeat(chosen, copies))
  {
    if |remaining| > 0 {
      DrawFromPool(weights, remaining, drawn, extras, chosen, copies);
    } else {
      AppendCounts(extras, chosen, copies);
    }
  }

  /** A role drawn from a non-empty pool leaves the pool, joins the drawn set and is appended once (masons: none or a pair). */
  lemma DrawFromPool(weights: seq<(PlayerRole, int)>, remaining: seq<(PlayerRole, int)>, drawn: set<PlayerRole>, extras: seq<PlayerRole>,
                     chosen: PlayerRole, copies: nat)
    requires Drawing(weights, remaining, drawn, extras)
    requires exists p :: p in remaining && p.0 == chosen
    requires IsDualRole(chosen) ==> copies in {0, 2}
    requires !IsDualRole(chosen) ==> copies == 1
    ensures Drawing(weights, Remove(remaining, chosen), drawn + {chosen}, extras + Repeat(chosen, copies))
  {
    var rest, drawn', extras' := Remove(remaining, chosen), drawn + {chosen}, extras + Repeat(chosen, copies);
    AppendCounts(extras, chosen, copies);
    var p :| p in remaining && p.0 == chosen;
    assert HasKey(weights, chosen) by {
      assert p in weights;
    }
    assert chosen !in drawn;
    assert chosen != VILLAGER ==> chosen !in extras;
    forall r | r in drawn'
      ensures HasKey(weights, r)
    {
    }
    forall r | r in extras' && r != VILLAGER
      ensures r in drawn'
    {
    }
    forall r | r != VILLAGER && r != MASON
      ensures Count(extras', r) <= 1
    {
    }
  }

  lemma AppendCounts(extras: seq<PlayerRole>, chosen: PlayerRole, copies: nat)
    ensures forall r :: r != chosen ==> Count(extras + Repeat(chosen, copies), r) == Count(extras, r)
    ensures Count(extras + Repeat(chosen, copies), chosen) == Count(extras, chosen) + copies
    ensures forall r :: r in extras + Repeat(chosen, copies) ==> r in extras || r == chosen
  {
    assert multiset(extras + Repeat(chosen, copies)) == multiset(extras) + multiset(Repeat(chosen, copies));
    RepeatMultiset(chosen, copies);
  }

  /** The index the k-th weighted choice picks in a pool of `size` roles. */
  function DrawIndex(choice: nat -> nat, k: nat, size: nat): (i: nat)
    requires size > 0
    ensures i < size
  {
    choice(k) % size
  }

  /** The settings in force: a None argument stands for the defaults. */
  function SettingsOf(arg: SettingsArg): Settings
  {
    if arg.Given? then arg.settings else DefaultSettings
  }

  /** The number of wolves the settings ask for, the default when they name none. */
  function WolvesFor(arg: SettingsArg, numPlayers: int): int
  {
    var s := SettingsOf(arg);
    if s.numberOfWolves.WolfCount? then s.numberOfWolves.count else DefaultNumWolves(numPlayers)
  }

  /** The pool of optional roles: the given or default weights, positive ones only. */
  function WeightsFor(arg: SettingsArg): seq<(PlayerRole, int)>
  {
    var s := SettingsOf(arg);
    PositiveWeights(if s.roleWeights.Some? then s.roleWeights.value else RandomisedRoles)
  }

  /**
   * What a successful distribution promises: one role per player (when
   * the wolf count is not negative), only the fixed roles and pool roles,
   * masons in pairs, every other pool role at most once, and exactly the
   * requested wolves, one seer and one medic unless the pool adds more.
   */
  ghost predicate Distributed(roles: seq<PlayerRole>, numPlayers: int, w: int, weights: seq<(PlayerRole, int)>)
  {
    && (w >= 0 ==> |roles| == numPlayers)
    && (forall r :: r in roles ==> r in {WOLF, SEER, MEDIC, VILLAGER} || HasKey(weights, r))
    && Count(roles, MASON) in {0, 2}
    && (forall r :: r !in {WOLF, SEER, MEDIC, VILLAGER, MASON} ==> Count(roles, r) <= 1)
    && (!HasKey(weights, WOLF) ==> Count(roles, WOLF) == if w > 0 then w else 0)
    && (!HasKey(weights, SEER) ==> Count(roles, SEER) == 1)
    && (!HasKey(weights, MEDIC) ==> Count(roles, MEDIC) == 1)
  }

  /**
   * `assign_roles`: None when the wolves and the guaranteed roles do not
   * fit, otherwise the wolves, the seer and the medic, the villagers the
   * villager draws hit (capped so the others fit), the drawn
   * optional roles, all shuffled.
   */
  method AssignRoles(numPlayers: int, arg: SettingsArg, draws: Draws)
    returns (result: Result<Option<seq<PlayerRole>>>)
    ensures result.Err? <==> arg.NotSettings? || (arg.Given? && arg.settings.numberOfWolves.NotAnInt?)
    ensures result.Err? ==> result.error == TypeError
    ensures result.Ok? ==> (result.value.None? <==> numPlayers < |GuaranteedRoles| + WolvesFor(arg, numPlayers))
    ensures result.Ok? && result.value.Some? ==>
      Distributed(result.value.value, numPlayers, WolvesFor(arg, numPlayers), WeightsFor(arg))
  {
    var s: Settings;
    match arg {
      case NotSettings => return Err(TypeError);
      case NoSettings => s := DefaultSettings;
      case Given(given) => s := given;
    }
    var numWolves: int;
    match s.numberOfWolves {
      case NotAnInt => return Err(TypeError);
      case WolfCount(c) => numWolves := c;
      case DefaultWolves => numWolves := DefaultNumWolves(numPlayers);
    }
    var roleWeights := PositiveWeights(if s.roleWeights.Some? then s.roleWeights.value else RandomisedRoles);
    assert numWolves == WolvesFor(arg, numPlayers) && roleWeights == WeightsFor(arg);
    var dealt := Deal(numPlayers, numWolves, roleWeights, draws);
    return Ok(dealt);
  }

  /**
   * The dealing half of `assign_roles`, once the wolf count and the pool
   * are known: None when they do not fit, otherwise the base roles and the
   * drawn extras, shuffled.
   */
  method Deal(numPlayers: int, numWolves: int, roleWeights: seq<(PlayerRole, int)>, draws: Draws)
    returns (dealt: Option<seq<PlayerRole>>)
    ensures dealt.None? <==> numPlayers < |GuaranteedRoles| + numWolves
    ensures dealt.Some? ==> Distributed(dealt.value, numPlayers, numWolves, roleWeights)
  {
    if numPlayers < |GuaranteedRoles| + numWolves {
      return None;
    }
    var numVillagers: int := CountHits(draws.villager, numPlayers);
    var maxNumVillagers := numPlayers - numWolves - |GuaranteedRoles|;
    if numVillagers > maxNumVillagers {
      numVillagers := maxNumVillagers;
    }
    var base := BaseRoles(numWolves, numVillagers);
    var extras := DrawOptionalRoles(numPlayers, |base|, roleWeights, draws.choice);
    var roles := base + extras;
    var shuffled := Shuffle(roles, draws.shuffle);
    FinalDistributed(numPlayers, numWolves, numVillagers, extras, roleWeights, draws.shuffle);
    return Some(shuffled);
  }

  lemma FinalDistributed(n: int, w: int, v: int, extras: seq<PlayerRole>, weights: seq<(PlayerRole, int)>, draw: nat -> nat)
    requires 0 <= v && (w >= 0 ==> w + 2 + v <= n)
    requires |BaseRoles(w, v)| < n ==> |BaseRoles(w, v)| + |extras| == n
    requires |BaseRoles(w, v)| >= n ==> extras == []
    requires forall r :: r in extras && r != VILLAGER ==> HasKey(weights, r)
    requires forall r :: r != VILLAGER && r != MASON ==> Count(extras, r) <= 1
    requires Count(extras, MASON) in {0, 2}
    ensures Distributed(Shuffle(BaseRoles(w, v) + extras, draw), n, w, weights)
  {
    var base := BaseRoles(w, v);
    var shuffled := Shuffle(base + extras, draw);
    ShufflePermutes(base + extras, draw);
    BaseCounts(w, v);
    CountsOfFinal(base, extras, shuffled, weights);
  }

  lemma CountsOfFinal(base: seq<PlayerRole>, extras: seq<PlayerRole>, shuffled: seq<PlayerRole>, weights: seq<(PlayerRole, int)>)
    requires multiset(shuffled) == multiset(base + extras)
    requires forall r :: r in base ==> r in {WOLF, SEER, MEDIC, VILLAGER}
    requires forall r :: r !in {WOLF, SEER, MEDIC, VILLAGER} ==> Count(base, r) == 0
    requires forall r :: r in extras && r != VILLAGER ==> HasKey(weights, r)
    requires forall r :: r != VILLAGER && r != MASON ==> Count(extras, r) <= 1
    requires Count(extras, MASON) in {0, 2}
    ensures forall r :: r in shuffled ==> r in {WOLF, SEER, MEDIC, VILLAGER} || HasKey(weights, r)
    ensures Count(shuffled, MASON) in {0, 2}
    ensures forall r :: r !in {WOLF, SEER, MEDIC, VILLAGER, MASON} ==> Count(shuffled, r) <= 1
    ensures forall r :: r != VILLAGER && !HasKey(weights, r) ==> Count(shuffled, r) == Count(base, r)
  {
    assert forall r :: Count(shuffled, r) == Count(base, r) + Count(extras, r);
    forall r | r in shuffled ensures r in {WOLF, SEER, MEDIC, VILLAGER} || HasKey(weights, r) {
      assert r in multiset(shuffled);
      assert r in base || r in extras;
    }
    forall r | r != VILLAGER && !HasKey(weights, r) ensures Count(shuffled, r) == Count(base, r) {
      assert r !in extras;
    }
  }

  lemma BaseCounts(w: int, v: int)
    ensures Count(BaseRoles(w, v), WOLF) == if w > 0 then w else 0
    ensures Count(BaseRoles(w, v), SEER) == 1
    ensures Count(BaseRoles(w, v), MEDIC) == 1
    ensures forall r :: r in BaseRoles(w, v) ==> r in {WOLF, SEER, MEDIC, VILLAGER}
    ensures forall r :: r !in {WOLF, SEER, MEDIC, VILLAGER} ==> Count(BaseRoles(w, v), r) == 0
  {
    var ws, vs := Repeat(WOLF, w), Repeat(VILLAGER, v);
    RepeatMultiset(WOLF, w);
    RepeatMultiset(VILLAGER, v);
    var m := multiset(BaseRoles(w, v));
    assert m == multiset{}[WOLF := |ws|] + multiset{SEER, MEDIC} + multiset{}[VILLAGER := |vs|] by {
      assert BaseRoles(w, v) == ws + [SEER, MEDIC] + vs;
    }
    forall r | r in BaseRoles(w, v) ensures r in {WOLF, SEER, MEDIC, VILLAGER} {
      assert r in m;
    }
  }

  lemma {:induction false} RepeatMultiset(r: PlayerRole, n: int)
    ensures multiset(Repeat(r, n)) == multiset{}[r := |Repeat(r, n)|]
    decreases if n > 0 then n else 0
  {
    if n > 0 {
      RepeatMultiset(r, n - 1);
      assert Repeat(r, n) == [r] + Repeat(r, n - 1);
    }
  }
}
