// Client helpers (`react-ui/src/utils.js`): building the URL of a server
// endpoint, posting a new game configuration, and deciding whether a
// configuration is the default one.
//
// The document's base URI is left out: a URL is its path and its list of
// query parameters. The module-level `temporary_id` (drawn once from
// `Math.random()` when the module loads) is a constant of the `ClientUtils`
// object, given to its constructor already rendered as text.

module ApiUrls {
  import opened Types

  /** A game tag as callers pass it: `null`, `undefined` or a string. */
  datatype GameTag = NullTag | UndefinedTag | Tag(text: string)

  /** A template literal's rendering of a tag other than `null`. */
  function TagText(tag: GameTag): string
    requires !tag.NullTag?
  {
    if tag.UndefinedTag? then "undefined" else tag.text
  }

  /** The path `make_api_url` builds: the tag segment is left out only when the tag is `null` itself. */
  function ApiPath(tag: GameTag, endpoint: string): (r: string)
    ensures |r| >= 5 && r[..5] == "/api/"
    ensures tag.NullTag? ==> r[5..] == endpoint
    ensures !tag.NullTag? ==> r[5..] == TagText(tag) + "/" + endpoint
  {
    if tag.NullTag? then "/api/" + endpoint else "/api/" + TagText(tag) + "/" + endpoint
  }

  /** An `undefined` tag is not `=== null`: it is spelled into the path. */
  lemma UndefinedTagIsSpelledOut(endpoint: string)
    ensures ApiPath(UndefinedTag, endpoint) == "/api/undefined/" + endpoint
    ensures ApiPath(UndefinedTag, endpoint) != ApiPath(NullTag, endpoint)
  {
    var u, n := ApiPath(UndefinedTag, endpoint), ApiPath(NullTag, endpoint);
    assert |u| == |n| + 10;
  }

  /** The query list `make_api_url` appends: `temporary_id` first, then the extra parameters, if any, in order. */
  function Query(temporaryId: string, extra: Option<seq<(string, string)>>): (r: seq<(string, string)>)
    ensures |r| >= 1 && r[0] == ("temporary_id", temporaryId)
    ensures extra.None? ==> |r| == 1
    ensures extra.Some? ==> r[1..] == extra.value
  {
    [("temporary_id", temporaryId)] + (if extra.Some? then extra.value else [])
  }

  /** `URLSearchParams.get`: the value of the first parameter with that key. */
  function Lookup(params: seq<(string, string)>, key: string): (r: Option<string>)
    ensures r.Some? <==> exists i :: 0 <= i < |params| && params[i].0 == key
    ensures r.Some? ==> exists i :: 0 <= i < |params| && params[i] == (key, r.value)
  {
    if |params| == 0 then None
    else if params[0].0 == key then Some(params[0].1)
    else
      var rest := Lookup(params[1..], key);
      assert forall i :: 1 <= i < |params| ==> params[i] == params[1..][i - 1];
      rest
  }

  /**
   * Reading the query back: `temporary_id` is the one the module drew, even
   * when an extra parameter has the same key, and every other key reads as
   * it does among the extra parameters.
   */
  lemma QueryReadsBack(temporaryId: string, extra: Option<seq<(string, string)>>, key: string)
    ensures Lookup(Query(temporaryId, extra), "temporary_id") == Some(temporaryId)
    ensures key != "temporary_id" ==>
      Lookup(Query(temporaryId, extra), key) == Lookup(if extra.Some? then extra.value else [], key)
  {
    var q := Query(temporaryId, extra);
    assert q[1..] == if extra.Some? then extra.value else [];
  }

  /** A URL: its path and the query parameters appended to it, in order. */
  class Url {
    var path: string
    var searchParams: seq<(string, string)>

    /** `new URL(path, document.baseURI)`: no parameters yet. */
    constructor (path: string)
      ensures this.path == path && searchParams == []
    {
      this.path := path;
      searchParams := [];
    }

    /** `url.searchParams.append(key, value)`. */
    method Append(key: string, value: string)
      modifies this
      ensures path == old(path) && searchParams == old(searchParams) + [(key, value)]
    {
      searchParams := searchParams + [(key, value)];
    }
  }

  /** The request `set_config` sends: a POST to that path with that query. */
  datatype Post = Post(path: string, query: seq<(string, string)>)

  /** The helpers' module, with the `temporary_id` it drew when it loaded. */
  class ClientUtils {
    const temporaryId: string

    /** Loading the module: `random` is the rendered `Math.random()`. */
    constructor (random: string)
      ensures temporaryId == random
    {
      temporaryId := random;
    }

    /** `make_api_url`: a new URL whose path and query are `ApiPath` and `Query`. */
    method MakeApiUrl(tag: GameTag, endpoint: string, extra: Option<seq<(string, string)>>) returns (url: Url)
      ensures fresh(url)
      ensures url.path == ApiPath(tag, endpoint) && url.searchParams == Query(temporaryId, extra)
    {
      if tag.NullTag? {
        url := new Url("/api/" + endpoint);
      } else {
        url := new Url("/api/" + TagText(tag) + "/" + endpoint);
      }
      url.Append("temporary_id", temporaryId);
      if extra.Some? {
        var params := extra.value;
        var i := 0;
        while i < |params|
          invariant 0 <= i <= |params|
          invariant url.path == ApiPath(tag, endpoint)
          invariant url.searchParams == [("temporary_id", temporaryId)] + params[..i]
        {
          url.Append(params[i].0, params[i].1);
          assert params[..i + 1] == params[..i] + [params[i]];
          i := i + 1;
        }
        assert params[..i] == params;
      }
    }

    /**
     * `set_config`: the configuration, already JSON-encoded, goes in the
     * `new_config` parameter of a POST to `game_config`. A failed request
     * is only logged, so nothing comes back to the caller.
     */
    method SetConfig(gameId: GameTag, configJson: string) returns (request: Post)
      ensures request.path == ApiPath(gameId, "game_config")
      ensures request.query == [("temporary_id", temporaryId), ("new_config", configJson)]
      ensures Lookup(request.query, "new_config") == Some(configJson)
    {
      var url := MakeApiUrl(gameId, "game_config", Some([("new_config", configJson)]));
      request := Post(url.path, url.searchParams);
      QueryReadsBack(temporaryId, Some([("new_config", configJson)]), "new_config");
    }
  }

  /** A configuration field as the client holds it: missing, `null`, or a value. */
  datatype Field<T> = Undefined | Null | Present(value: T)

  /** The game configuration the client holds. */
  datatype GameConfig = GameConfig(
    roleWeights: Field<map<string, int>>,
    numberOfWolves: Field<int>,
    probabilityOfVillager: Field<real>)

  /**
   * `isConfigDefault`: `role_weights` is compared loosely (`== null`, so
   * missing counts), the two numbers strictly (`=== null`, so missing does
   * not count).
   */
  function IsConfigDefault(c: GameConfig): (r: bool)
    ensures r ==> c.numberOfWolves.Null? && c.probabilityOfVillager.Null? && !c.roleWeights.Present?
    ensures c.numberOfWolves.Null? && c.probabilityOfVillager.Null? && !c.roleWeights.Present? ==> r
  {
    var rolesDefault := c.roleWeights.Undefined? || c.roleWeights.Null?;
    var wolvesDefault := c.numberOfWolves.Null?;
    var villagerProbDefault := c.probabilityOfVillager.Null?;
    rolesDefault && wolvesDefault && villagerProbDefault
  }

  /**
   * The asymmetry of the two comparisons: a configuration with no
   * `role_weights` key is default, but one with no `number_of_wolves` key
   * is not, and neither is one with any value set.
   */
  lemma MissingKeysDiffer()
    ensures IsConfigDefault(GameConfig(Undefined, Null, Null))
    ensures !IsConfigDefault(GameConfig(Null, Undefined, Null))
    ensures !IsConfigDefault(GameConfig(Null, Null, Undefined))
    ensures forall w: int :: !IsConfigDefault(GameConfig(Null, Present(w), Null))
  {
  }
}
