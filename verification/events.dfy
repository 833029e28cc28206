// The event log reader (`backend/events.py`): a queue object fixes its
// visibility and type filters once, then answers "what is the newest
// event" and "which events are there (since some id)". The database table
// is a sequence of rows kept in id order, as its auto-incremented primary
// key makes them.

module Events {
  import opened Types
  import Seqs

  datatype EventType = GUI | CHAT | NEW_PLAYER

  /** A row of the event log. `visibleTo` lists the users it was shared with; `details` is the stored JSON. */
  datatype GameEvent = GameEvent(id: int, gameId: int, eventType: EventType, publicVisibility: bool, visibleTo: seq<nat>, details: string)

  /** The record handed back to callers. */
  datatype Event = Event(id: int, eventType: EventType, details: string)

  /** The three shapes the constructor's `type_filter` argument takes. */
  datatype TypeFilterArg = NoTypes | OneType(t: EventType) | SomeTypes(ts: seq<EventType>)

  /**
   * A queue's fixed settings. An empty `typeFilter` stands for both None
   * and an empty list, which the filter treats alike (both are falsy).
   * `userId` is a UUID, and UUIDs are always truthy.
   */
  datatype EventQueue = EventQueue(gameId: int, publicOnly: bool, userId: Option<nat>, typeFilter: seq<EventType>)

  /**
   * `EventQueue.__init__`: a single event type becomes a one-element list,
   * a list is kept. `gameId` is the already hashed game tag.
   */
  function NewQueue(gameId: int, publicOnly: bool, userId: Option<nat>, typeFilter: TypeFilterArg): (q: EventQueue)
    ensures q.gameId == gameId && q.publicOnly == publicOnly && q.userId == userId
    ensures typeFilter.OneType? ==> q.typeFilter == [typeFilter.t]
    ensures typeFilter.SomeTypes? ==> q.typeFilter == typeFilter.ts
    ensures typeFilter.NoTypes? ==> q.typeFilter == []
  {
    match typeFilter
    case NoTypes => EventQueue(gameId, publicOnly, userId, [])
    case OneType(t) => EventQueue(gameId, publicOnly, userId, [t])
    case SomeTypes(ts) => EventQueue(gameId, publicOnly, userId, ts)
  }

  /**
   * `filter_query` on one row: the game must match; a user sees public
   * events and those shared with them, and then `public_only` plays no
   * part; without a user, `public_only` keeps the public events; a type
   * filter keeps the listed types.
   */
  predicate Passes(q: EventQueue, e: GameEvent)
  {
    && e.gameId == q.gameId
    && (if q.userId.Some? then e.publicVisibility || q.userId.value in e.visibleTo
        else !q.publicOnly || e.publicVisibility)
    && (|q.typeFilter| == 0 || e.eventType in q.typeFilter)
  }

  /** A single type given to the constructor filters exactly like a one-element list. */
  lemma SingleTypeIsOneElementList(gameId: int, publicOnly: bool, userId: Option<nat>, t: EventType, e: GameEvent)
    ensures Passes(NewQueue(gameId, publicOnly, userId, OneType(t)), e) == Passes(NewQueue(gameId, publicOnly, userId, SomeTypes([t])), e)
    ensures Passes(NewQueue(gameId, publicOnly, userId, OneType(t)), e) ==> e.eventType == t
  {
  }

  /** A user-specific queue sees everything a public-only queue of the same game and types sees. */
  lemma UserSeesPublic(q: EventQueue, uid: nat, e: GameEvent)
    requires q.publicOnly
    requires Passes(q.(userId := None), e)
    ensures Passes(q.(userId := Some(uid)), e)
  {
  }

  /** Row ids increase along the log. */
  predicate Ascending(log: seq<GameEvent>)
  {
    forall i, j :: 0 <= i < j < |log| ==> log[i].id < log[j].id
  }

  /** `since` narrows the result only when it is truthy. */
  predicate After(e: GameEvent, since: Option<int>)
  {
    !Truthy(since) || e.id > since.value
  }

  /**
   * `get_all_events`: the rows that pass the filters (and come after
   * `since`), in log order, as Event records.
   */
  function GetAllEvents(q: EventQueue, log: seq<GameEvent>, since: Option<int>): (r: seq<Event>)
    ensures |r| <= |log|
  {
    if |log| == 0 then []
    else if Passes(q, log[0]) && After(log[0], since) then [Event(log[0].id, log[0].eventType, log[0].details)] + GetAllEvents(q, log[1..], since)
    else GetAllEvents(q, log[1..], since)
  }

  /** Exactly the passing rows after `since` are listed. */
  lemma {:induction false} AllEventsMembers(q: EventQueue, log: seq<GameEvent>, since: Option<int>)
    ensures forall e :: e in log && Passes(q, e) && After(e, since) ==> Event(e.id, e.eventType, e.details) in GetAllEvents(q, log, since)
    ensures forall x :: x in GetAllEvents(q, log, since) ==> exists e :: e in log && Passes(q, e) && After(e, since) && x == Event(e.id, e.eventType, e.details)
  {
    if |log| > 0 {
      AllEventsMembers(q, log[1..], since);
      assert forall e :: e in log ==> e == log[0] || e in log[1..];
    }
  }

  /** Every listed id is the id of some row of the log. */
  lemma ListedIdsFromLog(q: EventQueue, log: seq<GameEvent>, since: Option<int>, x: Event)
    requires x in GetAllEvents(q, log, since)
    ensures exists k :: 0 <= k < |log| && log[k].id == x.id
  {
    AllEventsMembers(q, log, since);
    var e :| e in log && Passes(q, e) && After(e, since) && x == Event(e.id, e.eventType, e.details);
    var k :| 0 <= k < |log| && log[k] == e;
  }

  /** Event ids increase along the list. */
  predicate IdsAscending(r: seq<Event>)
  {
    forall i, j :: 0 <= i < j < |r| ==> r[i].id < r[j].id
  }

  /** The tail of an ordered log is ordered, and lies above its head. */
  lemma AscendingTail(log: seq<GameEvent>)
    requires Ascending(log) && |log| > 0
    ensures Ascending(log[1..])
    ensures forall k :: 0 <= k < |log[1..]| ==> log[1..][k].id > log[0].id
  {
    forall k | 0 <= k < |log[1..]|
      ensures log[1..][k].id > log[0].id
    {
      assert log[1..][k] == log[k + 1];
    }
  }

  /** Putting a smaller id in front keeps the list ordered. */
  lemma ConsAscending(x: Event, rest: seq<Event>)
    requires IdsAscending(rest)
    requires forall y :: y in rest ==> y.id > x.id
    ensures IdsAscending([x] + rest)
  {
    var r := [x] + rest;
    forall i, j | 0 <= i < j < |r|
      ensures r[i].id < r[j].id
    {
      assert r[j] == rest[j - 1];
      assert rest[j - 1] in rest;
      if i > 0 {
        assert r[i] == rest[i - 1];
      }
    }
  }

  /** On a log in id order, the events come back in ascending id order, as the query's ORDER BY asks. */
  lemma {:induction false} AllEventsAscending(q: EventQueue, log: seq<GameEvent>, since: Option<int>)
    requires Ascending(log)
    ensures IdsAscending(GetAllEvents(q, log, since))
  {
    if |log| > 0 {
      AscendingTail(log);
      var rest := GetAllEvents(q, log[1..], since);
      AllEventsAscending(q, log[1..], since);
      forall x | x in rest
        ensures x.id > log[0].id
      {
        ListedIdsFromLog(q, log[1..], since, x);
      }
      if Passes(q, log[0]) && After(log[0], since) {
        ConsAscending(Event(log[0].id, log[0].eventType, log[0].details), rest);
      }
    }
  }

  /**
   * `get_latest_event_id`: the id of the newest row that passes; when no
   * row passes, `.first()` is None and indexing it raises TypeError.
   */
  function GetLatestEventId(q: EventQueue, log: seq<GameEvent>): (r: Result<int>)
    ensures r.Err? <==> forall e :: e in log ==> !Passes(q, e)
    ensures r.Err? ==> r.error == TypeError
    ensures r.Ok? ==> exists e :: e in log && Passes(q, e) && e.id == r.value
    ensures Ascending(log) && r.Ok? ==> forall e :: e in log && Passes(q, e) ==> e.id <= r.value
  {
    if |log| == 0 then Err(TypeError)
    else
      var last := log[|log| - 1];
      var init := log[..|log| - 1];
      assert log == init + [last];
      assert forall e :: e in log ==> e == last || e in init;
      if Passes(q, last) then
        assert Ascending(log) ==> forall e :: e in init ==> e.id < last.id by {
          if Ascending(log) {
            forall e | e in init
              ensures e.id < last.id
            {
              var k :| 0 <= k < |init| && init[k] == e;
              assert log[k] == e;
            }
          }
        }
        Ok(last.id)
      else
        assert Ascending(log) ==> Ascending(init) by {
          if Ascending(log) {
            forall i, j | 0 <= i < j < |init|
              ensures init[i].id < init[j].id
            {
              assert init[i] == log[i] && init[j] == log[j];
            }
          }
        }
        GetLatestEventId(q, init)
  }

  /** What one row contributes to `get_all_events`. */
  function Keep(q: EventQueue, since: Option<int>, e: GameEvent): seq<Event>
  {
    if Passes(q, e) && After(e, since) then [Event(e.id, e.eventType, e.details)] else []
  }

  lemma GetAllEventsCons(q: EventQueue, log: seq<GameEvent>, since: Option<int>)
    requires |log| > 0
    ensures GetAllEvents(q, log, since) == Keep(q, since, log[0]) + GetAllEvents(q, log[1..], since)
  {
  }

  /** A row appended to the log is listed last, if it passes. */
  lemma {:induction false} GetAllEventsSnoc(q: EventQueue, log: seq<GameEvent>, e: GameEvent, since: Option<int>)
    ensures GetAllEvents(q, log + [e], since) == GetAllEvents(q, log, since) + Keep(q, since, e)
  {
    if |log| == 0 {
      assert log + [e] == [e];
      GetAllEventsCons(q, [e], since);
    } else {
      assert (log + [e])[1..] == log[1..] + [e];
      GetAllEventsCons(q, log + [e], since);
      GetAllEventsCons(q, log, since);
      GetAllEventsSnoc(q, log[1..], e, since);
    }
  }

  /** The newest id is the id of the last event `get_all_events` lists. */
  lemma {:induction false} LatestIsLastListed(q: EventQueue, log: seq<GameEvent>)
    requires GetLatestEventId(q, log).Ok?
    ensures |GetAllEvents(q, log, None)| > 0
    ensures GetAllEvents(q, log, None)[|GetAllEvents(q, log, None)| - 1].id == GetLatestEventId(q, log).value
  {
    var last := log[|log| - 1];
    var init := log[..|log| - 1];
    assert log == init + [last];
    GetAllEventsSnoc(q, init, last, None);
    if !Passes(q, last) {
      LatestIsLastListed(q, init);
    }
  }

  /** Asking for the events since the newest id yields nothing (when that id is truthy). */
  lemma NothingSinceLatest(q: EventQueue, log: seq<GameEvent>)
    requires Ascending(log)
    requires GetLatestEventId(q, log).Ok? && GetLatestEventId(q, log).value != 0
    ensures GetAllEvents(q, log, Some(GetLatestEventId(q, log).value)) == []
  {
    var r := GetAllEvents(q, log, Some(GetLatestEventId(q, log).value));
    if |r| > 0 {
      assert r[0] in r;
      AllEventsMembers(q, log, Some(GetLatestEventId(q, log).value));
    }
  }

  /** A falsy `since` (None or 0) lists every passing event. */
  lemma {:induction false} FalsySinceIsNoBound(q: EventQueue, log: seq<GameEvent>)
    ensures GetAllEvents(q, log, Some(0)) == GetAllEvents(q, log, None)
  {
    if |log| > 0 {
      FalsySinceIsNoBound(q, log[1..]);
    }
  }

  // ---------------------------------------------------------------------
  // The three-event log of the event tests
  // ---------------------------------------------------------------------

  const Game := 42
  const Viewer := 7
  const ThreeEvents := [
    GameEvent(1, Game, GUI, true, [], "{}"),
    GameEvent(2, Game, CHAT, false, [Viewer], "{}"),
    GameEvent(3, Game, NEW_PLAYER, false, [], "{}")]

  lemma UnfoldThree(q: EventQueue, since: Option<int>)
    ensures GetAllEvents(q, ThreeEvents, since)
         == Keep(q, since, ThreeEvents[0]) + Keep(q, since, ThreeEvents[1]) + Keep(q, since, ThreeEvents[2])
  {
    var t := ThreeEvents;
    assert t == [t[0]] + [t[1]] + [t[2]];
    GetAllEventsSnoc(q, [], t[0], since);
    GetAllEventsSnoc(q, [t[0]], t[1], since);
    GetAllEventsSnoc(q, [t[0]] + [t[1]], t[2], since);
  }

  lemma LatestOfThree(q: EventQueue)
    ensures GetLatestEventId(q, ThreeEvents)
         == if Passes(q, ThreeEvents[2]) then Ok(3)
            else if Passes(q, ThreeEvents[1]) then Ok(2)
            else if Passes(q, ThreeEvents[0]) then Ok(1)
            else Err(TypeError)
  {
    var t := ThreeEvents;
    assert t[..2] == [t[0], t[1]];
    assert t[..2][..1] == [t[0]];
    assert t[..2][..1][..0] == [];
  }

  /** A public queue sees the one public event; the last id is 1, and nothing comes after 2. */
  lemma PublicQueueOfThree()
    ensures |GetAllEvents(NewQueue(Game, true, None, NoTypes), ThreeEvents, None)| == 1
    ensures GetLatestEventId(NewQueue(Game, true, None, NoTypes), ThreeEvents) == Ok(1)
    ensures |GetAllEvents(NewQueue(Game, true, None, NoTypes), ThreeEvents, Some(2))| == 0
  {
    UnfoldThree(NewQueue(Game, true, None, NoTypes), None);
    UnfoldThree(NewQueue(Game, true, None, NoTypes), Some(2));
    LatestOfThree(NewQueue(Game, true, None, NoTypes));
  }

  /** The viewer's queue adds the event shared with them: two events, the last id 2, nothing after 2. */
  lemma UserQueueOfThree()
    ensures |GetAllEvents(NewQueue(Game, false, Some(Viewer), NoTypes), ThreeEvents, None)| == 2
    ensures GetLatestEventId(NewQueue(Game, false, Some(Viewer), NoTypes), ThreeEvents) == Ok(2)
    ensures |GetAllEvents(NewQueue(Game, false, Some(Viewer), NoTypes), ThreeEvents, Some(2))| == 0
  {
    UnfoldThree(NewQueue(Game, false, Some(Viewer), NoTypes), None);
    UnfoldThree(NewQueue(Game, false, Some(Viewer), NoTypes), Some(2));
    LatestOfThree(NewQueue(Game, false, Some(Viewer), NoTypes));
  }

  /** An unfiltered queue sees all three: the last id is 3, and one event comes after 2. */
  lemma SecretQueueOfThree()
    ensures |GetAllEvents(NewQueue(Game, false, None, NoTypes), ThreeEvents, None)| == 3
    ensures GetLatestEventId(NewQueue(Game, false, None, NoTypes), ThreeEvents) == Ok(3)
    ensures |GetAllEvents(NewQueue(Game, false, None, NoTypes), ThreeEvents, Some(2))| == 1
  {
    UnfoldThree(NewQueue(Game, false, None, NoTypes), None);
    UnfoldThree(NewQueue(Game, false, None, NoTypes), Some(2));
    LatestOfThree(NewQueue(Game, false, None, NoTypes));
  }

  /** A single GUI type keeps one event; the pair GUI, NEW_PLAYER keeps two. */
  lemma TypeFiltersOfThree()
    ensures |GetAllEvents(NewQueue(Game, false, None, OneType(GUI)), ThreeEvents, None)| == 1
    ensures |GetAllEvents(NewQueue(Game, false, None, SomeTypes([GUI, NEW_PLAYER])), ThreeEvents, None)| == 2
  {
    UnfoldThree(NewQueue(Game, false, None, OneType(GUI)), None);
    UnfoldThree(NewQueue(Game, false, None, SomeTypes([GUI, NEW_PLAYER])), None);
  }
}
