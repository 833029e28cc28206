// The execute loop of `process_actions` (backend/resolver.py): each
// action's `execute`, in the sorted order, plays its writes on the game.
// A write that fails ends the loop; the writes made before it stay, since
// every game method commits its own change.

module Execution {
  import opened Types
  import opened GameActions
  import opened RoleRules
  import opened GameState
  import Resolver

  /** The rows of a game that the resolution and its finalizers change. */
  datatype Table = Table(players: seq<Player>, messages: seq<Message>, stage: GameStage, stageId: int, numAttempts: int)

  function TableOf(g: Game): Table
    reads g`players, g`messages, g`stage, g`stageId, g`numAttempts
  {
    Table(g.players, g.messages, g.stage, g.stageId, g.numAttempts)
  }

  // ---------------------------------------------------------------------
  // Playing effects
  // ---------------------------------------------------------------------

  /**
   * One write: `send_chat_message`, `kill_player` or `vote_player`. The
   * last two look the player up among the shown players and fail on the
   * missing player with an AttributeError.
   */
  function Play(t: Table, e: Effect): (r: Result<Table>)
  {
    match e
    case Say(text, isStrong, visibleTo) => Ok(t.(messages := t.messages + [Message(text, isStrong, visibleTo, false)]))
    case Kill(pid, st) =>
      (match PlayerIndexById(t.players, pid)
       case None => Err(AttributeError)
       case Some(k) => Ok(t.(players := t.players[k := Killed(t.players[k], st)])))
    case Vote(pid) =>
      (match PlayerIndexById(t.players, pid)
       case None => Err(AttributeError)
       case Some(k) => Ok(t.(players := t.players[k := t.players[k].(votes := t.players[k].votes + 1)])))
  }

  /** The writes in order; the first that fails ends the run and the table keeps what came before. */
  function PlayAll(t: Table, es: seq<Effect>): (Table, Option<Error>)
  {
    if |es| == 0 then (t, None)
    else
      var (mid, err) := PlayAll(t, es[..|es| - 1]);
      if err.Some? then (mid, err)
      else
        match Play(mid, es[|es| - 1])
        case Err(e) => (mid, Some(e))
        case Ok(next) => (next, None)
  }

  /** The message a `Say` effect posts. */
  function Posted(es: seq<Effect>): seq<Message>
  {
    if |es| == 0 then []
    else
      var e := es[|es| - 1];
      Posted(es[..|es| - 1]) + (if e.Say? then [Message(e.text, e.isStrong, e.visibleTo, false)] else [])
  }

  /** Nothing but the players' rows and the chat changes, and every row keeps its place, id and user. */
  predicate Keeps(t: Table, u: Table)
  {
    && |u.players| == |t.players|
    && (forall i :: 0 <= i < |t.players| ==> u.players[i].id == t.players[i].id && u.players[i].userId == t.players[i].userId)
    && u.stage == t.stage && u.stageId == t.stageId && u.numAttempts == t.numAttempts
  }

  /**
   * A run of writes posts its messages in order after the existing chat,
   * changes only rows of players it kills or votes for, and moves nothing
   * else.
   */
  lemma {:induction false} PlayAllSpec(t: Table, es: seq<Effect>)
    ensures var (u, err) := PlayAll(t, es);
      && Keeps(t, u)
      && (err.None? ==> u.messages == t.messages + Posted(es))
      && (err.Some? ==> err.value == AttributeError)
      && forall i :: 0 <= i < |t.players| && t.players[i].id !in Victims(es) && t.players[i].id !in Voted(es) ==>
        u.players[i] == t.players[i]
  {
    if |es| > 0 {
      var init := es[..|es| - 1];
      var e := es[|es| - 1];
      PlayAllSpec(t, init);
      VictimsSnoc(init, e);
      var (mid, err) := PlayAll(t, init);
      if err.None? {
        PlayKeeps(mid, e);
      }
    }
  }

  /** One write fails only on a missing player, posts only what it says, and changes only the row it names. */
  lemma PlayKeeps(t: Table, e: Effect)
    ensures Play(t, e).Err? ==> Play(t, e).error == AttributeError
    ensures Play(t, e).Ok? ==>
      var u := Play(t, e).value;
      && Keeps(t, u)
      && u.messages == t.messages + (if e.Say? then [Message(e.text, e.isStrong, e.visibleTo, false)] else [])
      && forall i :: 0 <= i < |t.players| && (e.Say? || t.players[i].id != e.pid) ==> u.players[i] == t.players[i]
  {
    match e
    case Say(_, _, _) =>
    case Kill(pid, st) =>
      var k := PlayerIndexById(t.players, pid);
      if k.Some? {
        KilledStaysVisible(t.players[k.value], st);
      }
    case Vote(pid) =>
  }

  /** The killed and voted ids of a run with one more write. */
  lemma VictimsSnoc(es: seq<Effect>, e: Effect)
    ensures forall pid :: pid in Victims(es + [e]) <==> pid in Victims(es) || (e.Kill? && e.pid == pid)
    ensures forall pid :: pid in Voted(es + [e]) <==> pid in Voted(es) || (e.Vote? && e.pid == pid)
  {
    var s := es + [e];
    assert forall x :: x in s <==> x in es || x == e;
  }

  /** A write that fails ends the run: the rest is skipped. */
  lemma {:induction false} PlayAllStops(t: Table, es: seq<Effect>, j: nat)
    requires j < |es| && PlayAll(t, es[..j + 1]).1.Some?
    ensures PlayAll(t, es) == PlayAll(t, es[..j + 1])
    decreases |es|
  {
    if j + 1 < |es| {
      var init := es[..|es| - 1];
      assert init[..j + 1] == es[..j + 1];
      PlayAllStops(t, init, j);
    } else {
      assert es[..j + 1] == es;
    }
  }

  /** The game's writes, one per effect, until one fails. */
  method PlayEffects(g: Game, es: seq<Effect>) returns (err: Option<Error>)
    requires g.Valid()
    modifies g`players, g`messages
    ensures g.Valid()
    ensures (TableOf(g), err) == PlayAll(old(TableOf(g)), es)
  {
    ghost var t0 := TableOf(g);
    var j := 0;
    while j < |es|
      invariant 0 <= j <= |es|
      invariant g.Valid()
      invariant g.stage == t0.stage && g.stageId == t0.stageId && g.numAttempts == t0.numAttempts
      invariant PlayAll(t0, es[..j]) == (TableOf(g), None)
    {
      PlayNext(t0, es, j, TableOf(g));
      var e := PlayOne(g, es[j]);
      if e.Some? {
        PlayAllStops(t0, es, j);
        return e;
      }
      j := j + 1;
    }
    assert es[..|es|] == es;
    err := None;
  }

  /** One write on the game: the table moves as `Play` says, or stays as it was when the write fails. */
  method PlayOne(g: Game, e: Effect) returns (err: Option<Error>)
    requires g.Valid()
    modifies g`players, g`messages
    ensures g.Valid()
    ensures Play(old(TableOf(g)), e).Err? ==> err == Some(Play(old(TableOf(g)), e).error) && TableOf(g) == old(TableOf(g))
    ensures Play(old(TableOf(g)), e).Ok? ==> err.None? && TableOf(g) == Play(old(TableOf(g)), e).value
  {
    match e {
      case Say(text, isStrong, visibleTo) =>
        g.SendChatMessage(text, isStrong, visibleTo);
        err := None;
      case Kill(pid, st) =>
        var r := g.KillPlayer(pid, st);
        err := if r.Err? then Some(r.error) else None;
      case Vote(pid) =>
        var r := g.VotePlayer(pid);
        err := if r.Err? then Some(r.error) else None;
    }
  }

  /** One more write after a clean prefix of the run. */
  lemma PlayNext(t0: Table, es: seq<Effect>, j: nat, cur: Table)
    requires j < |es| && PlayAll(t0, es[..j]) == (cur, None)
    ensures PlayAll(t0, es[..j + 1]) == match Play(cur, es[j]) case Err(e) => (cur, Some(e)) case Ok(next) => (next, None)
  {
    assert es[..j + 1][..j] == es[..j];
  }

  // ---------------------------------------------------------------------
  // The execute loop
  // ---------------------------------------------------------------------

  /** Every GamePlayer's user exists, so its display name can be read. */
  predicate Seated(players: map<nat, GamePlayer>, users: map<nat, User>)
  {
    forall id :: id in players ==> players[id].model.userId in users
  }

  /** A GamePlayer as `execute` reads it: its row and its user's name. */
  function SeatOf(players: map<nat, GamePlayer>, users: map<nat, User>, id: nat): Seat
    requires id in players && Seated(players, users)
  {
    Seat(players[id].model, users[players[id].model.userId].name)
  }

  /** `execute` of the action with handle `h`; `coin` is the fool's random bit. */
  function ExecuteAt(acts: seq<GameAction>, players: map<nat, GamePlayer>, users: map<nat, User>, h: nat, coin: bool): Result<seq<Effect>>
    requires Bound(acts, players) && Seated(players, users) && h < |acts|
  {
    var g := acts[h];
    var target := if g.target.Some? then Some(SeatOf(players, users, g.target.value)) else None;
    Execute(g, SeatOf(players, users, g.originator), target, coin)
  }

  /**
   * The execute loop over `order`: the `i`-th action executed draws
   * `coins(i)`. An exception in `execute` or in one of its writes ends the
   * loop.
   */
  function RunActions(t: Table, acts: seq<GameAction>, players: map<nat, GamePlayer>, users: map<nat, User>, order: seq<nat>, coins: nat -> bool): (Table, Option<Error>)
    requires Bound(acts, players) && Seated(players, users)
    requires forall i :: 0 <= i < |order| ==> order[i] < |acts|
  {
    if |order| == 0 then (t, None)
    else
      var (mid, err) := RunActions(t, acts, players, users, order[..|order| - 1], coins);
      if err.Some? then (mid, err)
      else
        match ExecuteAt(acts, players, users, order[|order| - 1], coins(|order| - 1))
        case Err(e) => (mid, Some(e))
        case Ok(es) => PlayAll(mid, es)
  }

  /** The execute loop moves no stage, keeps every row's place and identity, and fails only as `execute` or a write can. */
  lemma {:induction false} RunActionsKeeps(t: Table, acts: seq<GameAction>, players: map<nat, GamePlayer>, users: map<nat, User>, order: seq<nat>, coins: nat -> bool)
    requires Bound(acts, players) && Seated(players, users)
    requires forall i :: 0 <= i < |order| ==> order[i] < |acts|
    ensures var (u, err) := RunActions(t, acts, players, users, order, coins);
      Keeps(t, u) && (err.Some? ==> err.value in {AttributeError, RuntimeError})
  {
    if |order| > 0 {
      var init := order[..|order| - 1];
      RunActionsKeeps(t, acts, players, users, init, coins);
      var (mid, err) := RunActions(t, acts, players, users, init, coins);
      if err.None? {
        var r := ExecuteAt(acts, players, users, order[|order| - 1], coins(|order| - 1));
        if r.Ok? {
          PlayAllSpec(mid, r.value);
        }
      }
    }
  }

  /** One more `execute` after a clean prefix of the loop. */
  lemma RunActionsNext(t: Table, acts: seq<GameAction>, players: map<nat, GamePlayer>, users: map<nat, User>, order: seq<nat>, coins: nat -> bool, i: nat)
    requires Bound(acts, players) && Seated(players, users)
    requires forall k :: 0 <= k < |order| ==> order[k] < |acts|
    requires i < |order| && RunActions(t, acts, players, users, order[..i], coins).1.None?
    ensures var mid := RunActions(t, acts, players, users, order[..i], coins).0;
      RunActions(t, acts, players, users, order[..i + 1], coins) ==
        match ExecuteAt(acts, players, users, order[i], coins(i))
        case Err(e) => (mid, Some(e))
        case Ok(es) => PlayAll(mid, es)
  {
    assert order[..i + 1][..i] == order[..i];
  }

  /** A failure at the `i`-th action is the result of the whole loop. */
  lemma {:induction false} RunActionsStops(t: Table, acts: seq<GameAction>, players: map<nat, GamePlayer>, users: map<nat, User>, order: seq<nat>, coins: nat -> bool, i: nat)
    requires Bound(acts, players) && Seated(players, users)
    requires forall k :: 0 <= k < |order| ==> order[k] < |acts|
    requires i < |order| && RunActions(t, acts, players, users, order[..i + 1], coins).1.Some?
    ensures RunActions(t, acts, players, users, order, coins) == RunActions(t, acts, players, users, order[..i + 1], coins)
    decreases |order|
  {
    if i + 1 < |order| {
      var init := order[..|order| - 1];
      assert init[..i + 1] == order[..i + 1];
      RunActionsStops(t, acts, players, users, init, coins, i);
    } else {
      assert order[..i + 1] == order;
    }
  }

  /** `execute` of every action in `order`, each once, after the modifier loop. */
  method ExecuteAll(g: Game, res: Resolver.Resolution, order: seq<nat>, coins: nat -> bool) returns (err: Option<Error>)
    requires g.Valid() && Bound(res.acts, res.players) && Seated(res.players, g.users)
    requires forall i :: 0 <= i < |order| ==> order[i] < |res.acts|
    modifies g`players, g`messages
    ensures g.Valid()
    ensures (TableOf(g), err) == RunActions(old(TableOf(g)), res.acts, res.players, g.users, order, coins)
  {
    ghost var t0 := TableOf(g);
    var i := 0;
    while i < |order|
      invariant 0 <= i <= |order|
      invariant g.Valid()
      invariant RunActions(t0, res.acts, res.players, g.users, order[..i], coins) == (TableOf(g), None)
    {
      RunActionsNext(t0, res.acts, res.players, g.users, order, coins, i);
      var out := ExecuteAt(res.acts, res.players, g.users, order[i], coins(i));
      if out.Err? {
        RunActionsStops(t0, res.acts, res.players, g.users, order, coins, i);
        return Some(out.error);
      }
      err := PlayEffects(g, out.value);
      if err.Some? {
        RunActionsStops(t0, res.acts, res.players, g.users, order, coins, i);
        return;
      }
      assert RunActions(t0, res.acts, res.players, g.users, order[..i + 1], coins) == (TableOf(g), None);
      i := i + 1;
    }
    assert order[..|order|] == order;
    err := None;
  }
}
