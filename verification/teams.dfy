// The win conditions of backend/roles/teams.py and `game_ended` of
// backend/resolver.py. The count of living villagers is taken and thrown
// away: no team ever wins, so no game ends through a win.

module Teams {
  import opened Types
  import opened Roles
  import Seqs

  /** `list(Team)` of the teams module, in declaration order. */
  const AllTeams: seq<Team> := [VILLAGERS, WOLVES, SPECTATORS, JESTER_TEAM]

  /** The living players on the villagers' team among `ps`. */
  function AliveVillagers(ps: seq<Player>): nat
  {
    if |ps| == 0 then 0
    else
      var last := ps[|ps| - 1];
      AliveVillagers(ps[..|ps| - 1]) + (if RoleTeam(last.role) == VILLAGERS && last.state == ALIVE then 1 else 0)
  }

  /**
   * `team_has_won`: the shown players are counted and the answer is no,
   * whatever the team. The loop rebinds the name of the team argument,
   * which is why the count does not depend on it.
   */
  method TeamHasWon(ps: seq<Player>, team: Team) returns (won: bool)
    ensures !won
  {
    var alive := 0;
    var i := 0;
    while i < |ps|
      invariant 0 <= i <= |ps|
      invariant alive == AliveVillagers(ps[..i])
    {
      var t := RoleTeam(ps[i].role);
      if t == VILLAGERS && ps[i].state == ALIVE {
        alive := alive + 1;
      }
      assert ps[..i + 1][..i] == ps[..i];
      i := i + 1;
    }
    won := false;
  }

  /** `win_ends_game`: every win ends the game. */
  predicate WinEndsGame(t: Team)
  {
    true
  }

  /**
   * `game_ended`: the teams that have won, of which those whose win ends
   * the game (the announcement of each win is not part of this model).
   * With no winner ever, no game ends this way.
   */
  method GameEnded(ps: seq<Player>) returns (ended: bool, wins: seq<Team>)
    ensures wins == [] && !ended
  {
    wins := [];
    var i := 0;
    while i < |AllTeams|
      invariant 0 <= i <= |AllTeams|
      invariant wins == []
    {
      var t := AllTeams[i];
      var won := TeamHasWon(ps, t);
      wins := wins + (if won then [t] else []);
      i := i + 1;
    }
    ended := Seqs.Filter(WinEndsGame, wins) != [];
  }
}
