// The client's list of players (`react-ui/src/features/stateSlices/players.js`):
// reducers that push onto, splice and assign into the draft list. The
// slice is an object whose `players` field the reducers change. A reducer
// that throws leaves the state as it was, since the draft is discarded.

module ClientPlayers {
  import opened Types
  import Seqs

  /** One entry of the list. Ids are the UUID strings the server sends. */
  datatype PlayerEntry = PlayerEntry(id: string, name: string, status: string, selected: bool)

  /** JavaScript truthiness of an optional string payload field: present and non-empty. */
  predicate Truthful(s: Option<string>)
  {
    s.Some? && s.value != ""
  }

  /** `getPlayerById`: the index of the first entry with that id, if any. */
  function IndexById(ps: seq<PlayerEntry>, id: string): (r: Option<nat>)
    ensures r.Some? ==> r.value < |ps| && ps[r.value].id == id
    ensures r.Some? ==> forall j :: 0 <= j < r.value ==> ps[j].id != id
    ensures r.None? ==> forall j :: 0 <= j < |ps| ==> ps[j].id != id
  {
    Seqs.IndexWhere((p: PlayerEntry) => p.id == id, ps)
  }

  /** The list with entry `k` replaced by `p`: length, order and every other entry kept. */
  function Replaced(ps: seq<PlayerEntry>, k: nat, p: PlayerEntry): (r: seq<PlayerEntry>)
    requires k < |ps|
    ensures |r| == |ps| && r[k] == p
    ensures forall j :: 0 <= j < |ps| && j != k ==> r[j] == ps[j]
  {
    ps[k := p]
  }

  /** `splice(start, 1)` with JavaScript's handling of a negative start. */
  function SpliceOne(ps: seq<PlayerEntry>, start: int): (r: seq<PlayerEntry>)
    ensures |ps| > 0 && start < |ps| ==> |r| == |ps| - 1
    ensures |ps| == 0 || start >= |ps| ==> r == ps
  {
    var s := if start < 0 then (if |ps| + start > 0 then |ps| + start else 0) else (if start < |ps| then start else |ps|);
    if s < |ps| then ps[..s] + ps[s + 1..] else ps
  }

  /**
   * `removePlayer` as written: `indexOf` is given a predicate, which never
   * equals an entry, so the index is -1 and the last entry is spliced
   * out, whatever id was asked for.
   */
  function RemoveAsWritten(ps: seq<PlayerEntry>, id: string): (r: seq<PlayerEntry>)
    ensures r == (if |ps| == 0 then [] else ps[..|ps| - 1])
  {
    SpliceOne(ps, -1)
  }

  /** Removing a player who is not last drops the wrong one: the last entry goes and the player stays. */
  lemma RemoveDropsLastEntry()
    ensures var a := PlayerEntry("a", "Ann", "ALIVE", false);
            var b := PlayerEntry("b", "Bob", "ALIVE", false);
            RemoveAsWritten([a, b], "a") == [a]
  {
  }

  /** `removePlayer` as intended: the first entry with that id leaves, and nothing happens when there is none. */
  function RemoveById(ps: seq<PlayerEntry>, id: string): (r: seq<PlayerEntry>)
    ensures IndexById(ps, id).None? ==> r == ps
    ensures IndexById(ps, id).Some? ==> |r| == |ps| - 1
    ensures IndexById(ps, id).Some? ==>
      var k := IndexById(ps, id).value;
      r == ps[..k] + ps[k + 1..]
  {
    match IndexById(ps, id)
    case None => ps
    case Some(k) => SpliceOne(ps, k)
  }

  /** After the intended removal every other player remains, and no entry appears that was not there. */
  lemma RemoveByIdKeepsOthers(ps: seq<PlayerEntry>, id: string)
    ensures forall p :: p in ps && p.id != id ==> p in RemoveById(ps, id)
    ensures forall p :: p in RemoveById(ps, id) ==> p in ps
    ensures multiset(RemoveById(ps, id)) <= multiset(ps)
  {
    match IndexById(ps, id)
    case None =>
    case Some(k) =>
      assert ps == ps[..k] + [ps[k]] + ps[k + 1..];
      forall p | p in ps && p.id != id
        ensures p in RemoveById(ps, id)
      {
        var j :| 0 <= j < |ps| && ps[j] == p;
        if j < k {
          assert p == ps[..k][j];
        } else {
          assert j != k;
          assert p == ps[k + 1..][j - k - 1];
        }
      }
  }

  /** The players slice. */
  class PlayersSlice {
    var players: seq<PlayerEntry>

    /** The initial state is the empty list. */
    constructor ()
      ensures players == []
    {
      players := [];
    }

    /** `addPlayer`: one unselected entry is pushed at the end. */
    method AddPlayer(id: string, name: string, status: string)
      modifies this
      ensures players == old(players) + [PlayerEntry(id, name, status, false)]
    {
      players := players + [PlayerEntry(id, name, status, false)];
    }

    /** `removePlayer` as written: see `RemoveAsWritten`. */
    method RemovePlayer(id: string)
      modifies this
      ensures players == RemoveAsWritten(old(players), id)
      ensures |old(players)| > 0 ==> players == old(players)[..|old(players)| - 1]
    {
      var index := -1;
      players := SpliceOne(players, index);
    }

    /**
     * `setPlayerName`: the first entry with that id takes a truthy name.
     * With no such entry, a truthy name is written to `undefined`, which
     * throws; a falsy one changes nothing.
     */
    method SetPlayerName(id: string, name: Option<string>) returns (err: Option<Error>)
      modifies this
      ensures IndexById(old(players), id).None? && Truthful(name) <==> err == Some(TypeError)
      ensures err.Some? || !Truthful(name) ==> players == old(players)
      ensures err.None? && Truthful(name) ==>
        var k := IndexById(old(players), id).value;
        players == Replaced(old(players), k, old(players)[k].(name := name.value))
    {
      var found := IndexById(players, id);
      err := None;
      if Truthful(name) {
        if found.None? {
          err := Some(TypeError);
        } else {
          var k := found.value;
          players := Replaced(players, k, players[k].(name := name.value));
        }
      }
    }

    /** `setPlayerStatus`: as `setPlayerName`, for the status. */
    method SetPlayerStatus(id: string, status: Option<string>) returns (err: Option<Error>)
      modifies this
      ensures IndexById(old(players), id).None? && Truthful(status) <==> err == Some(TypeError)
      ensures err.Some? || !Truthful(status) ==> players == old(players)
      ensures err.None? && Truthful(status) ==>
        var k := IndexById(old(players), id).value;
        players == Replaced(old(players), k, old(players)[k].(status := status.value))
    {
      var found := IndexById(players, id);
      err := None;
      if Truthful(status) {
        if found.None? {
          err := Some(TypeError);
        } else {
          var k := found.value;
          players := Replaced(players, k, players[k].(status := status.value));
        }
      }
    }

    /** `setPlayerSelected`: the flag is assigned unconditionally, so a missing id always throws. */
    method SetPlayerSelected(id: string, selected: bool) returns (err: Option<Error>)
      modifies this
      ensures IndexById(old(players), id).None? <==> err == Some(TypeError)
      ensures err.Some? ==> players == old(players)
      ensures err.None? ==>
        var k := IndexById(old(players), id).value;
        players == Replaced(old(players), k, old(players)[k].(selected := selected))
    {
      var found := IndexById(players, id);
      if found.None? {
        err := Some(TypeError);
      } else {
        err := None;
        var k := found.value;
        players := Replaced(players, k, players[k].(selected := selected));
      }
    }
  }

  /** The setters keep every id in its place: the list of ids before and after is the same. */
  lemma SettersKeepIds(ps: seq<PlayerEntry>, k: nat, p: PlayerEntry)
    requires k < |ps| && p.id == ps[k].id
    ensures forall j :: 0 <= j < |ps| ==> Replaced(ps, k, p)[j].id == ps[j].id
    ensures forall id :: IndexById(Replaced(ps, k, p), id) == IndexById(ps, id)
  {
    forall id
      ensures IndexById(Replaced(ps, k, p), id) == IndexById(ps, id)
    {
      IndexSameIds(Replaced(ps, k, p), ps, id);
    }
  }

  /** Two lists with the same ids, position by position, find an id at the same index. */
  lemma IndexSameIds(a: seq<PlayerEntry>, b: seq<PlayerEntry>, id: string)
    requires |a| == |b| && forall j :: 0 <= j < |a| ==> a[j].id == b[j].id
    ensures IndexById(a, id) == IndexById(b, id)
  {
    var ia, ib := IndexById(a, id), IndexById(b, id);
    if ia.Some? && ib.Some? {
      assert !(ia.value < ib.value) && !(ib.value < ia.value);
    }
  }
}
