// The stage finalizers of backend/resolver.py: after the night the day
// breaks, after the day the vote opens, after the vote the votes are
// counted, and a lobby or a finished game starts a new one.

module Finalizers {
  import opened Types
  import opened GameState
  import opened Execution
  import Teams
  import Distribution
  import Masons

  // ---------------------------------------------------------------------
  // Counting the votes
  // ---------------------------------------------------------------------

  /** `[p.votes for p in players]` */
  function Votes(ps: seq<Player>): (vs: seq<int>)
    ensures |vs| == |ps| && forall i :: 0 <= i < |ps| ==> vs[i] == ps[i].votes
  {
    seq(|ps|, i requires 0 <= i < |ps| => ps[i].votes)
  }

  /** Where `max` over the (player, votes) pairs keyed on the votes lands: the first largest. */
  function FirstMax(vs: seq<int>): (k: nat)
    requires |vs| > 0
    ensures k < |vs|
    ensures forall j :: 0 <= j < |vs| ==> vs[j] <= vs[k]
    ensures forall j :: 0 <= j < k ==> vs[j] < vs[k]
  {
    if |vs| == 1 then 0
    else
      var k := FirstMax(vs[..|vs| - 1]);
      if vs[|vs| - 1] > vs[k] then |vs| - 1 else k
  }

  /** `votes.count(x)` */
  function Count(vs: seq<int>, x: int): nat
  {
    if |vs| == 0 then 0 else Count(vs[..|vs| - 1], x) + (if vs[|vs| - 1] == x then 1 else 0)
  }

  /** A value occurs nowhere exactly when it is counted zero times. */
  lemma {:induction false} CountZero(vs: seq<int>, x: int)
    ensures Count(vs, x) == 0 <==> forall j :: 0 <= j < |vs| ==> vs[j] != x
  {
    if |vs| > 0 {
      CountZero(vs[..|vs| - 1], x);
    }
  }

  /** The value at `k` is counted once exactly when no other position holds it. */
  lemma {:induction false} CountOnce(vs: seq<int>, k: nat)
    requires k < |vs|
    ensures Count(vs, vs[k]) >= 1
    ensures Count(vs, vs[k]) == 1 <==> forall j :: 0 <= j < |vs| && j != k ==> vs[j] != vs[k]
  {
    var init := vs[..|vs| - 1];
    if k == |vs| - 1 {
      CountZero(init, vs[k]);
    } else {
      CountOnce(init, k);
    }
  }

  /** What `count_votes` decides. */
  datatype VoteOutcome =
    | NoVoters      // `max` of an empty sequence: a ValueError
    | Lynch(index: nat)
    | Revote
    | NoLynch

  /** The decision over the shown players' votes and the attempts made in this stage. */
  function Decide(ps: seq<Player>, numAttempts: int): VoteOutcome
  {
    if |ps| == 0 then NoVoters
    else
      var vs := Votes(ps);
      var k := FirstMax(vs);
      if Count(vs, vs[k]) > 1 then (if numAttempts == 0 then Revote else NoLynch)
      else Lynch(k)
  }

  /** Someone has strictly more votes than everyone else. */
  predicate UniqueTop(ps: seq<Player>, k: nat)
    requires k < |ps|
  {
    forall j :: 0 <= j < |ps| && j != k ==> ps[j].votes < ps[k].votes
  }

  /**
   * The player with strictly the most votes is lynched; a tie for the most
   * votes is revoted once, and a second tie lynches nobody.
   */
  lemma DecideSpec(ps: seq<Player>, numAttempts: int)
    ensures Decide(ps, numAttempts) == NoVoters <==> |ps| == 0
    ensures Decide(ps, numAttempts).Lynch? ==>
      Decide(ps, numAttempts).index < |ps| && UniqueTop(ps, Decide(ps, numAttempts).index)
    ensures forall k :: 0 <= k < |ps| && UniqueTop(ps, k) ==> Decide(ps, numAttempts) == Lynch(k)
    ensures Decide(ps, numAttempts) == Revote <==> |ps| > 0 && numAttempts == 0 && !Decide(ps, numAttempts).Lynch?
    ensures Decide(ps, numAttempts) == NoLynch <==> |ps| > 0 && numAttempts != 0 && !Decide(ps, numAttempts).Lynch?
  {
    if |ps| > 0 {
      var vs := Votes(ps);
      var k := FirstMax(vs);
      CountOnce(vs, k);
      forall k' | 0 <= k' < |ps| && UniqueTop(ps, k')
        ensures Decide(ps, numAttempts) == Lynch(k')
      {
        assert vs[k'] <= vs[k];
      }
    }
  }

  const TieText: string := "The vote was a tie! Revote..."
  const TieAgainText: string := "The vote was a tie again! No one gets lynched."

  /** One strong public message after the chat. */
  function Announce(ms: seq<Message>, text: string): seq<Message>
  {
    ms + [Message(text, true, [], false)]
  }

  /** `reset_votes` on the rows: everybody's votes go to zero. */
  function ResetAll(ps: seq<Player>): (r: seq<Player>)
    ensures |r| == |ps| && forall i :: 0 <= i < |ps| ==> r[i] == ps[i].(votes := 0)
  {
    seq(|ps|, i requires 0 <= i < |ps| => ps[i].(votes := 0))
  }

  /**
   * `count_votes` over the tables. No shown player is a ValueError before
   * anything is written. A lynch is announced, then the player is killed;
   * a failed kill leaves the announcement. As no game ever ends through a
   * win, the stage then moves to the night unless a first tie calls a
   * revote.
   */
  function CountVotesAfter(t: Table, users: map<nat, User>): (Table, Option<Error>)
    requires Masons.UsersKnown(t.players, users)
  {
    var shown := VisiblePlayers(t.players);
    match Decide(shown, t.numAttempts)
    case NoVoters => (t, Some(ValueError))
    case Revote =>
      (t.(messages := Announce(t.messages, TieText), players := ResetAll(t.players), stageId := t.stageId + 1, numAttempts := 1), None)
    case NoLynch =>
      (t.(messages := Announce(t.messages, TieAgainText), stage := NIGHT, stageId := t.stageId + 1, numAttempts := 0), None)
    case Lynch(k) =>
      assert shown[k] in t.players;
      var (u, err) := LynchAfter(t, users, shown[k]);
      if err.Some? then (u, err)
      else (u.(stage := NIGHT, stageId := u.stageId + 1, numAttempts := 0), None)
  }

  /** The lynch branch: the announcement, the kill, then `reset_votes`. */
  function LynchAfter(t: Table, users: map<nat, User>, p: Player): (Table, Option<Error>)
    requires p.userId in users
  {
    var announced := t.(messages := Announce(t.messages, users[p.userId].name + " got lynched"));
    match PlayerIndexById(t.players, p.id)
    case None => (announced, Some(AttributeError))
    case Some(i) =>
      var killed := t.players[i := Killed(t.players[i], LYNCHED)];
      (announced.(players := ResetAll(killed), stageId := t.stageId + 1), None)
  }

  /**
   * A unique top vote-getter among the shown players, in a game whose
   * player ids are distinct, is found by the kill, ends LYNCHED, and every
   * vote is reset; a first tie keeps the stage and counts one attempt; a
   * repeated tie moves to the night with nobody killed.
   */
  lemma CountVotesSpec(t: Table, users: map<nat, User>)
    requires Masons.UsersKnown(t.players, users) && IdsDistinct(t.players)
    ensures var shown := VisiblePlayers(t.players);
      var (u, err) := CountVotesAfter(t, users);
      && (|shown| == 0 <==> err == Some(ValueError))
      && (forall k :: 0 <= k < |shown| && UniqueTop(shown, k) ==>
        && err.None? && u.stage == NIGHT && u.numAttempts == 0 && |u.players| == |t.players|
        && (forall i :: 0 <= i < |t.players| ==>
          u.players[i] == (if t.players[i] == shown[k] then Killed(t.players[i], LYNCHED) else t.players[i]).(votes := 0)))
      && (Decide(shown, t.numAttempts) == Revote ==>
        err.None? && u.stage == t.stage && u.numAttempts == 1 && u.players == ResetAll(t.players))
      && (Decide(shown, t.numAttempts) == NoLynch ==>
        err.None? && u.stage == NIGHT && u.players == t.players)
  {
    var shown := VisiblePlayers(t.players);
    DecideSpec(shown, t.numAttempts);
    CountVotesBranches(t, users);
    forall k | 0 <= k < |shown| && UniqueTop(shown, k)
      ensures var (u, err) := CountVotesAfter(t, users);
        && err.None? && u.stage == NIGHT && u.numAttempts == 0 && |u.players| == |t.players|
        && (forall i :: 0 <= i < |t.players| ==>
          u.players[i] == (if t.players[i] == shown[k] then Killed(t.players[i], LYNCHED) else t.players[i]).(votes := 0))
    {
      LynchUniqueTop(t, users, k);
    }
  }

  /** A unique top vote-getter is lynched: the night comes and that row alone is killed, everybody's votes reset. */
  lemma LynchUniqueTop(t: Table, users: map<nat, User>, k: nat)
    requires Masons.UsersKnown(t.players, users) && IdsDistinct(t.players)
    requires k < |VisiblePlayers(t.players)| && UniqueTop(VisiblePlayers(t.players), k)
    ensures var (u, err) := CountVotesAfter(t, users);
      && err.None? && u.stage == NIGHT && u.numAttempts == 0 && |u.players| == |t.players|
      && (forall i :: 0 <= i < |t.players| ==>
        u.players[i] == (if t.players[i] == VisiblePlayers(t.players)[k] then Killed(t.players[i], LYNCHED) else t.players[i]).(votes := 0))
  {
    var shown := VisiblePlayers(t.players);
    DecideSpec(shown, t.numAttempts);
    CountVotesLynch(t, users, k);
    var p := shown[k];
    assert p in t.players && Visible(p);
    var j :| 0 <= j < |t.players| && t.players[j] == p;
    var i := PlayerIndexById(t.players, p.id);
    assert i.Some? && i.value == j;
  }

  /** `CountVotesAfter` branch by branch, as the method on the game reaches each one. */
  lemma CountVotesBranches(t: Table, users: map<nat, User>)
    requires Masons.UsersKnown(t.players, users)
    ensures var o := Decide(VisiblePlayers(t.players), t.numAttempts);
      && (o == Revote ==>
            CountVotesAfter(t, users) ==
            (t.(messages := Announce(t.messages, TieText), players := ResetAll(t.players), stageId := t.stageId + 1, numAttempts := 1), None))
      && (o == NoLynch ==>
            CountVotesAfter(t, users) ==
            (t.(messages := Announce(t.messages, TieAgainText), stage := NIGHT, stageId := t.stageId + 1, numAttempts := 0), None))
  {
  }

  /** `CountVotesAfter` when the vote has a unique top vote-getter. */
  lemma CountVotesLynch(t: Table, users: map<nat, User>, k: nat)
    requires Masons.UsersKnown(t.players, users)
    requires Decide(VisiblePlayers(t.players), t.numAttempts) == Lynch(k)
    ensures k < |VisiblePlayers(t.players)| && VisiblePlayers(t.players)[k].userId in users
    ensures var (u, err) := LynchAfter(t, users, VisiblePlayers(t.players)[k]);
      CountVotesAfter(t, users) == if err.Some? then (u, err) else (u.(stage := NIGHT, stageId := u.stageId + 1, numAttempts := 0), None)
  {
    var shown := VisiblePlayers(t.players);
    assert shown[k] in t.players;
  }

  /** `count_votes` on the game. */
  method CountVotes(g: Game) returns (err: Option<Error>)
    requires g.Valid()
    modifies g`players, g`messages, g`stage, g`stageId, g`numAttempts
    ensures g.Valid()
    ensures (TableOf(g), err) == CountVotesAfter(old(TableOf(g)), g.users)
  {
    var shown := VisiblePlayers(g.players);
    if |shown| == 0 {
      return Some(ValueError);
    }
    var votes := Votes(shown);
    var k := FirstMax(votes);
    var numVotes := votes[k];
    var tied := Count(votes, numVotes) > 1;
    ghost var outcome := Decide(shown, g.numAttempts);
    assert outcome == if tied then (if g.numAttempts == 0 then Revote else NoLynch) else Lynch(k);
    if tied {
      if g.numAttempts == 0 {
        CallRevote(g);
      } else {
        CallNoLynch(g);
      }
      err := None;
    } else {
      err := CallLynch(g, k);
    }
  }

  /** The first tie of `count_votes` on the game: the tie is announced, the votes reset and the vote held again. */
  method CallRevote(g: Game)
    requires g.Valid() && Decide(VisiblePlayers(g.players), g.numAttempts) == Revote
    modifies g`players, g`messages, g`stage, g`stageId, g`numAttempts
    ensures g.Valid()
    ensures (TableOf(g), None) == CountVotesAfter(old(TableOf(g)), g.users)
  {
    ghost var t0 := TableOf(g);
    CountVotesBranches(t0, g.users);
    g.SendChatMessage(TieText, true, []);
    assert g.messages == Announce(t0.messages, TieText);
    assert g.stage == t0.stage && g.stageId == t0.stageId;
    g.ResetVotes();
    assert g.players == ResetAll(t0.players);
    assert g.stage == t0.stage && g.stageId == t0.stageId + 1;
    g.numAttempts := 1;
    assert TableOf(g) == t0.(messages := Announce(t0.messages, TieText), players := ResetAll(t0.players), stageId := t0.stageId + 1, numAttempts := 1);
    CloseVote(g, false);
  }

  /** A repeated tie: announced, and the night begins with nobody lynched. */
  method CallNoLynch(g: Game)
    requires g.Valid() && Decide(VisiblePlayers(g.players), g.numAttempts) == NoLynch
    modifies g`messages, g`stage, g`stageId, g`numAttempts
    ensures g.Valid()
    ensures (TableOf(g), None) == CountVotesAfter(old(TableOf(g)), g.users)
  {
    ghost var t0 := TableOf(g);
    CountVotesBranches(t0, g.users);
    g.SendChatMessage(TieAgainText, true, []);
    assert TableOf(g) == t0.(messages := Announce(t0.messages, TieAgainText));
    CloseVote(g, true);
  }

  /** A unique top vote-getter: lynched, and the night begins unless the kill failed. */
  method CallLynch(g: Game, k: nat) returns (err: Option<Error>)
    requires g.Valid() && Decide(VisiblePlayers(g.players), g.numAttempts) == Lynch(k)
    modifies g`players, g`messages, g`stage, g`stageId, g`numAttempts
    ensures g.Valid()
    ensures (TableOf(g), err) == CountVotesAfter(old(TableOf(g)), g.users)
  {
    ghost var t0 := TableOf(g);
    CountVotesLynch(t0, g.users, k);
    var shown := VisiblePlayers(g.players);
    assert shown[k] in g.players;
    err := LynchPlayer(g, shown[k]);
    if err.Some? {
      return;
    }
    CloseVote(g, true);
  }

  /** The end of `count_votes`: unless the game is over or the vote is held again, the night begins. */
  method CloseVote(g: Game, endVote: bool)
    modifies g`stage, g`stageId, g`numAttempts
    ensures TableOf(g) == if endVote then old(TableOf(g)).(stage := NIGHT, stageId := old(g.stageId) + 1, numAttempts := 0) else old(TableOf(g))
  {
    var ended, _ := Teams.GameEnded(VisiblePlayers(g.players));
    if !ended && endVote {
      var _ := g.SetStage(IsStage(NIGHT));
    }
  }

  /** The lynch branch of `count_votes` on the game. */
  method LynchPlayer(g: Game, p: Player) returns (err: Option<Error>)
    requires g.Valid() && p in g.players
    modifies g`players, g`messages, g`stageId
    ensures g.Valid()
    ensures p.userId in g.users && (TableOf(g), err) == LynchAfter(old(TableOf(g)), g.users, p)
  {
    g.SendChatMessage(g.users[p.userId].name + " got lynched", true, []);
    var r := g.KillPlayer(p.id, LYNCHED);
    if r.Err? {
      return Some(r.error);
    }
    ghost var before := g.players;
    g.ResetVotes();
    assert g.players == ResetAll(before);
    err := None;
  }

  // ---------------------------------------------------------------------
  // The finalizer of each stage
  // ---------------------------------------------------------------------

  /** `judge_night`: no game ends through a win, so the day breaks with a plain public message. */
  function JudgeNightAfter(t: Table): (Table, Option<Error>)
  {
    (t.(stage := DAY, stageId := t.stageId + 1, numAttempts := 0,
        messages := t.messages + [Message("Day breaks...", false, [], false)]), None)
  }

  method JudgeNight(g: Game)
    modifies g`stage, g`stageId, g`numAttempts, g`messages
    ensures (TableOf(g), None) == JudgeNightAfter(old(TableOf(g)))
  {
    var ended, _ := Teams.GameEnded(VisiblePlayers(g.players));
    if !ended {
      var _ := g.SetStage(IsStage(DAY));
      g.SendChatMessage("Day breaks...", false, []);
    }
  }

  /** `switch_to_vote` */
  function SwitchToVoteAfter(t: Table): (Table, Option<Error>)
  {
    (t.(stage := VOTING, stageId := t.stageId + 1, numAttempts := 0), None)
  }

  /**
   * What `start_game` leaves when it runs on table `t` with users `users`
   * and actions `actions0`: `u`, `usersAfter` and `actions` are the game
   * after it, `err` what it raised. With fewer than three shown players
   * after the wipe it raises 400 and only the committed wipe remains;
   * otherwise some valid default distribution is dealt to the shown seats,
   * actions and old messages expire, the start messages are posted and the
   * night begins.
   */
  ghost predicate StartedGame(t: Table, users: map<nat, User>, actions0: seq<Action>,
                              u: Table, usersAfter: map<nat, User>, actions: seq<Action>, err: Option<Error>)
  {
    var idx := VisibleIndices(WipedAll(t.players));
    && usersAfter == users
    && (err.Some? <==> |idx| < 3)
    && (err.Some? ==> err.value == Http(400, "Not enough players") && u == t.(players := WipedAll(t.players)) && actions == actions0)
    && (err.None? ==>
      && u.stage == NIGHT && u.stageId == t.stageId + 1 && u.numAttempts == 0
      && |actions| == |actions0| && (forall i :: 0 <= i < |actions| ==> actions[i] == actions0[i].(expired := true))
      && StartMessages(t.messages, u.messages, u.players, users, idx)
      && exists dealt :: DealtRoles(t.players, u.players, idx, dealt) &&
           Distribution.Distributed(dealt, |idx|, Distribution.DefaultNumWolves(|idx|), Distribution.WeightsFor(Distribution.NoSettings)))
  }

  /**
   * `stage_finalizers[stage](game)`: every stage has a finalizer, so one
   * always runs. `draws` are the random choices of the new game that the
   * lobby and the end of a game start.
   */
  method Finalize(g: Game, stage: GameStage, draws: Distribution.Draws) returns (err: Option<Error>)
    requires g.Valid()
    modifies g
    ensures g.Valid()
    ensures stage == NIGHT ==> (TableOf(g), err) == JudgeNightAfter(old(TableOf(g))) && g.users == old(g.users)
    ensures stage == DAY ==> (TableOf(g), err) == SwitchToVoteAfter(old(TableOf(g))) && g.users == old(g.users)
    ensures stage == VOTING ==> (TableOf(g), err) == CountVotesAfter(old(TableOf(g)), old(g.users)) && g.users == old(g.users)
    ensures stage in {LOBBY, ENDED} ==>
      && StartedGame(old(TableOf(g)), old(g.users), old(g.actions), TableOf(g), g.users, g.actions, err)
      && (err.Some? ==> g.updateTag == old(g.updateTag) + 1)
    ensures stage != LOBBY && stage != ENDED ==> g.actions == old(g.actions)
  {
    match stage {
      case NIGHT =>
        JudgeNight(g);
        err := None;
      case DAY =>
        var _ := g.SetStage(IsStage(VOTING));
        err := None;
      case VOTING =>
        err := CountVotes(g);
      case LOBBY =>
        err := Start(g, draws);
      case ENDED =>
        err := Start(g, draws);
    }
  }

  /** The lobby's and the end's finalizer: `start_game`, its 400 as the error. */
  method Start(g: Game, draws: Distribution.Draws) returns (err: Option<Error>)
    requires g.Valid()
    modifies g
    ensures g.Valid()
    ensures StartedGame(old(TableOf(g)), old(g.users), old(g.actions), TableOf(g), g.users, g.actions, err)
    ensures err.Some? ==> g.updateTag == old(g.updateTag) + 1
  {
    var r, dealt := g.StartGame(draws);
    err := if r.Err? then Some(r.error) else None;
  }
}
