// The client's polling loop (`react-ui/src/features/GameUpdater.js`): a
// component that asks the server for the game's state hash, re-arms a timer
// after every answer, and fetches the full state when the hash has moved.
//
// The browser is the environment: a fetch the component issues is answered
// later by a resolution or a rejection, and a timer it arms later fires.
// Each such callback is an event. `Snapshot` is the component's fields plus
// what it has done to the outside world (requests issued, timers armed,
// page reloads, `replaceState` dispatches); the `On...` functions are the
// handlers on that record, and the `GameUpdater` class runs them in place.

module Updater {
  import opened Types
  import opened FrontendParser

  /** A request the component sends to the server. */
  datatype Request =
    | Join(tag: string)                      // POST /api/<tag>/join
    | HashCheck(tag: string, knownHash: int) // GET /api/<tag>/state_hash?known_hash=...
    | StateFetch(tag: string)                // GET /api/<tag>/state

  /** The JSON body of a state-hash answer. */
  datatype HashBody =
    | HashNumber(n: int) // the hash
    | OtherJson          // any other JSON value: never strictly equal to a number
    | Unparsable         // `r.json()` rejects, so its continuation never runs

  /** The JSON body of a full-state answer. */
  datatype StateBody =
    | StateObject(state: FrontendState)
    | NullBody   // the server's answer when the user has no view of the game
    | BadJson    // `r.json()` rejects

  /** A browser callback into the component. */
  datatype Event =
    | HashResolved(ok: bool, body: HashBody, knownHash: int)
    | HashRejected
    | TimerFired(id: nat, knownHash: int)
    | StateResolved(fetchOk: bool, answer: StateBody)
    | StateRejected
    | Unmount

  /**
   * The component and its effects. `pending` maps each armed timer's id to
   * its delay in milliseconds; `inFlight` counts hash checks awaiting an
   * answer and `stateFetches` full-state fetches awaiting one.
   */
  datatype Snapshot = Snapshot(
    timeoutId: Option<nat>,
    cancelled: bool,
    pending: map<nat, nat>,
    nextTimer: nat,
    inFlight: nat,
    stateFetches: nat,
    requests: seq<Request>,
    reloads: nat,
    dispatched: seq<FrontendState>)

  /** Delay before the next check after an answer, and after a network failure. */
  const SuccessCheckRate: nat := 500
  const ErrorCheckRate: nat := 1000

  /** The constructor's state: no timer, not cancelled, nothing sent. */
  function Initial(): (s: Snapshot)
    ensures s.timeoutId.None? && !s.cancelled && s.pending == map[]
    ensures s.inFlight == 0 && s.stateFetches == 0 && s.requests == []
  {
    Snapshot(None, false, map[], 1, 0, 0, [], 0, [])
  }

  /**
   * What the component keeps true between callbacks: at most one hash
   * check or timer is alive at a time, an armed timer is the one
   * `timeoutId` names, and once cancelled no timer is armed.
   */
  predicate Valid(s: Snapshot)
  {
    && s.inFlight + |s.pending| <= 1
    && (forall t :: t in s.pending ==> s.timeoutId == Some(t))
    && (s.cancelled ==> s.pending == map[])
  }

  /** `setTimeout(checkAndReschedule, delay)`, its id kept in `timeoutId`. */
  function Schedule(s: Snapshot, delay: nat): (r: Snapshot)
    ensures r.timeoutId == Some(s.nextTimer) && r.pending == s.pending[s.nextTimer := delay]
    ensures r.nextTimer > s.nextTimer
    ensures r.requests == s.requests && r.inFlight == s.inFlight && r.cancelled == s.cancelled
  {
    s.(timeoutId := Some(s.nextTimer), pending := s.pending[s.nextTimer := delay], nextTimer := s.nextTimer + 1)
  }

  /** `checkAndReschedule`: one hash check carrying the known hash. */
  function Check(s: Snapshot, tag: string, knownHash: int): (r: Snapshot)
    ensures r.requests == s.requests + [HashCheck(tag, knownHash)]
    ensures r.inFlight == s.inFlight + 1 && r.pending == s.pending && r.cancelled == s.cancelled
  {
    s.(requests := s.requests + [HashCheck(tag, knownHash)], inFlight := s.inFlight + 1)
  }

  /** `updateState`: one full-state fetch. */
  function UpdateState(s: Snapshot, tag: string): (r: Snapshot)
    ensures r.requests == s.requests + [StateFetch(tag)] && r.stateFetches == s.stateFetches + 1
    ensures r.pending == s.pending && r.inFlight == s.inFlight && r.cancelled == s.cancelled
  {
    s.(requests := s.requests + [StateFetch(tag)], stateFetches := s.stateFetches + 1)
  }

  /** `startPolling`: the join request, then the first hash check. */
  function Start(s: Snapshot, tag: string, knownHash: int): (r: Snapshot)
    ensures r.requests == s.requests + [Join(tag), HashCheck(tag, knownHash)]
    ensures r.inFlight == s.inFlight + 1 && r.pending == s.pending
  {
    Check(s.(requests := s.requests + [Join(tag)]), tag, knownHash)
  }

  /**
   * The success handler. Unless cancelled, the next check is armed for
   * 500 ms before anything else; a non-ok answer then reloads the page,
   * and the body, whatever the status, triggers a full-state fetch when it
   * is not strictly equal to the known hash. Once cancelled it does nothing.
   */
  function OnHashResolved(s: Snapshot, tag: string, ok: bool, body: HashBody, knownHash: int): (r: Snapshot)
    requires s.inFlight > 0
    ensures r.inFlight == s.inFlight - 1
    ensures s.cancelled ==> r == s.(inFlight := s.inFlight - 1)
    ensures !s.cancelled ==> r.pending == s.pending[s.nextTimer := SuccessCheckRate] && r.timeoutId == Some(s.nextTimer)
    ensures r.reloads == if !s.cancelled && !ok then s.reloads + 1 else s.reloads
    ensures r.requests == if !s.cancelled && HashMoved(body, knownHash) then s.requests + [StateFetch(tag)] else s.requests
  {
    var s1 := s.(inFlight := s.inFlight - 1);
    if s1.cancelled then s1
    else
      var s2 := Schedule(s1, SuccessCheckRate);
      var s3 := if !ok then s2.(reloads := s2.reloads + 1) else s2;
      if HashMoved(body, knownHash) then UpdateState(s3, tag) else s3
  }

  /** `new_hash !== state_hash`, for a body that parsed. */
  predicate HashMoved(body: HashBody, knownHash: int)
  {
    match body
    case HashNumber(n) => n != knownHash
    case OtherJson => true
    case Unparsable => false
  }

  /** The failure handler: unless cancelled, the next check is armed for 1000 ms, and nothing else happens. */
  function OnHashRejected(s: Snapshot): (r: Snapshot)
    requires s.inFlight > 0
    ensures r.inFlight == s.inFlight - 1 && r.requests == s.requests && r.reloads == s.reloads
    ensures s.cancelled ==> r.pending == s.pending
    ensures !s.cancelled ==> r.pending == s.pending[s.nextTimer := ErrorCheckRate] && r.timeoutId == Some(s.nextTimer)
  {
    var s1 := s.(inFlight := s.inFlight - 1);
    if s1.cancelled then s1 else Schedule(s1, ErrorCheckRate)
  }

  /** An armed timer fires: it is spent, and `checkAndReschedule` runs. */
  function OnTimer(s: Snapshot, tag: string, id: nat, knownHash: int): (r: Snapshot)
    requires id in s.pending
    ensures id !in r.pending && r.requests == s.requests + [HashCheck(tag, knownHash)]
  {
    Check(s.(pending := s.pending - {id}), tag, knownHash)
  }

  /** `stopPolling`: the timer `timeoutId` names is cleared, and the component is cancelled. */
  function OnUnmount(s: Snapshot): (r: Snapshot)
    ensures r.cancelled && r.requests == s.requests && r.inFlight == s.inFlight
    ensures s.timeoutId.Some? ==> r.pending == s.pending - {s.timeoutId.value}
    ensures s.timeoutId.None? ==> r.pending == s.pending
  {
    var cleared := if s.timeoutId.Some? then s.pending - {s.timeoutId.value} else s.pending;
    s.(pending := cleared, cancelled := true)
  }

  /**
   * The full-state answer. A non-ok status throws inside the chain, and a
   * body that is null or does not parse is ignored; only an ok answer with
   * a state object is dispatched as `replaceState`. The cancelled flag is
   * not consulted.
   */
  function OnStateResolved(s: Snapshot, ok: bool, body: StateBody): (r: Snapshot)
    requires s.stateFetches > 0
    ensures r.stateFetches == s.stateFetches - 1 && r.requests == s.requests && r.pending == s.pending
    ensures r.dispatched == if ok && body.StateObject? then s.dispatched + [body.state] else s.dispatched
  {
    var s1 := s.(stateFetches := s.stateFetches - 1);
    if ok && body.StateObject? then s1.(dispatched := s1.dispatched + [body.state]) else s1
  }

  /** A full-state fetch that fails at the network level: nothing but the bookkeeping changes. */
  function OnStateRejected(s: Snapshot): (r: Snapshot)
    requires s.stateFetches > 0
    ensures r == s.(stateFetches := s.stateFetches - 1)
  {
    s.(stateFetches := s.stateFetches - 1)
  }

  /** Whether the browser can deliver `e` now: an answer needs a request awaiting it, a firing an armed timer. */
  predicate Enabled(s: Snapshot, e: Event)
  {
    match e
    case HashResolved(_, _, _) => s.inFlight > 0
    case HashRejected => s.inFlight > 0
    case TimerFired(id, _) => id in s.pending
    case StateResolved(_, _) => s.stateFetches > 0
    case StateRejected => s.stateFetches > 0
    case Unmount => true
  }

  /** One callback; an event the browser cannot deliver now leaves the state alone. */
  function Step(s: Snapshot, tag: string, e: Event): Snapshot
  {
    if !Enabled(s, e) then s
    else match e
      case HashResolved(ok, body, known) => OnHashResolved(s, tag, ok, body, known)
      case HashRejected => OnHashRejected(s)
      case TimerFired(id, known) => OnTimer(s, tag, id, known)
      case StateResolved(ok, body) => OnStateResolved(s, ok, body)
      case StateRejected => OnStateRejected(s)
      case Unmount => OnUnmount(s)
  }

  /** A sequence of callbacks, in order. */
  function Run(s: Snapshot, tag: string, es: seq<Event>): Snapshot
    decreases |es|
  {
    if |es| == 0 then s else Run(Step(s, tag, es[0]), tag, es[1..])
  }

  // ---------------------------------------------------------------------
  // Properties of the handlers
  // ---------------------------------------------------------------------

  /** Mounting sends exactly one join and then one hash check, and leaves the component valid. */
  lemma StartIsJoinThenCheck(tag: string, knownHash: int)
    ensures Start(Initial(), tag, knownHash).requests == [Join(tag), HashCheck(tag, knownHash)]
    ensures Valid(Start(Initial(), tag, knownHash))
  {
  }

  /** Every callback keeps the component valid: never two checks or timers alive at once. */
  lemma StepKeepsValid(s: Snapshot, tag: string, e: Event)
    requires Valid(s)
    ensures Valid(Step(s, tag, e))
  {
    if Enabled(s, e) {
      match e
      case HashResolved(ok, body, known) =>
        assert s.pending == map[];
      case HashRejected =>
        assert s.pending == map[];
      case TimerFired(id, known) =>
        assert s.pending.Keys == {id} by {
          forall t | t in s.pending ensures t == id {
            assert s.timeoutId == Some(t) && s.timeoutId == Some(id);
          }
        }
        assert (s.pending - {id}) == map[];
      case StateResolved(_, _) =>
      case StateRejected =>
      case Unmount =>
        if s.timeoutId.Some? {
          assert s.pending.Keys <= {s.timeoutId.value};
          assert (s.pending - {s.timeoutId.value}) == map[];
        } else {
          assert s.pending == map[];
        }
    }
  }

  /** A whole run of callbacks keeps the component valid. */
  lemma {:induction false} RunKeepsValid(s: Snapshot, tag: string, es: seq<Event>)
    requires Valid(s)
    ensures Valid(Run(s, tag, es))
    decreases |es|
  {
    if |es| > 0 {
      StepKeepsValid(s, tag, es[0]);
      RunKeepsValid(Step(s, tag, es[0]), tag, es[1..]);
    }
  }

  /**
   * After unmounting, nothing is re-armed and nothing is sent: whatever
   * callbacks follow, no timer is armed, no request is added and the page
   * is not reloaded. Outstanding full-state fetches may still dispatch.
   */
  lemma {:induction false} CancelledStaysQuiet(s: Snapshot, tag: string, es: seq<Event>)
    requires Valid(s) && s.cancelled
    ensures Run(s, tag, es).pending == map[]
    ensures Run(s, tag, es).requests == s.requests
    ensures Run(s, tag, es).reloads == s.reloads
    ensures Run(s, tag, es).cancelled
    decreases |es|
  {
    if |es| > 0 {
      var s1 := Step(s, tag, es[0]);
      StepKeepsValid(s, tag, es[0]);
      assert s1.requests == s.requests && s1.reloads == s.reloads && s1.cancelled;
      CancelledStaysQuiet(s1, tag, es[1..]);
    }
  }

  /** Unmounting a valid component leaves it cancelled with no timer armed, whatever its state. */
  lemma UnmountDisarms(s: Snapshot)
    requires Valid(s)
    ensures OnUnmount(s).cancelled && OnUnmount(s).pending == map[]
  {
    StepKeepsValid(s, "", Unmount);
  }

  /** The number of join requests in a request list. */
  function Joins(rs: seq<Request>): nat
  {
    if |rs| == 0 then 0 else (if rs[0].Join? then 1 else 0) + Joins(rs[1..])
  }

  lemma {:induction false} JoinsAppend(a: seq<Request>, b: seq<Request>)
    ensures Joins(a + b) == Joins(a) + Joins(b)
    decreases |a|
  {
    if |a| > 0 {
      assert (a + b)[0] == a[0];
      assert (a + b)[1..] == a[1..] + b;
      JoinsAppend(a[1..], b);
    } else {
      assert a + b == b;
    }
  }

  /** No callback ever sends another join: a failing check reloads the page rather than re-joining. */
  lemma {:induction false} NoRejoin(s: Snapshot, tag: string, es: seq<Event>)
    ensures Joins(Run(s, tag, es).requests) == Joins(s.requests)
    decreases |es|
  {
    if |es| > 0 {
      var s1 := Step(s, tag, es[0]);
      var added := s1.requests[|s.requests|..];
      assert s1.requests == s.requests + added;
      JoinsAppend(s.requests, added);
      assert Joins(added) == 0 by {
        assert added == [] || added == [HashCheck(tag, es[0].knownHash)] || added == [StateFetch(tag)];
      }
      NoRejoin(s1, tag, es[1..]);
    }
  }

  /** A full-state fetch follows a hash answer exactly when the component is live and the hash moved. */
  lemma FetchOnlyWhenHashMoved(s: Snapshot, tag: string, ok: bool, body: HashBody, knownHash: int)
    requires s.inFlight > 0
    ensures |OnHashResolved(s, tag, ok, body, knownHash).requests| > |s.requests|
      <==> !s.cancelled && HashMoved(body, knownHash)
    ensures body == HashNumber(knownHash) ==> OnHashResolved(s, tag, ok, body, knownHash).requests == s.requests
  {
  }

  /** `replaceState` is dispatched only for an ok answer carrying a state, and then with that state. */
  lemma DispatchOnlyOkState(s: Snapshot, ok: bool, body: StateBody)
    requires s.stateFetches > 0
    ensures |OnStateResolved(s, ok, body).dispatched| > |s.dispatched| <==> ok && body.StateObject?
    ensures ok && body.StateObject? ==> OnStateResolved(s, ok, body).dispatched[|s.dispatched|] == body.state
  {
  }

  // ---------------------------------------------------------------------
  // The component
  // ---------------------------------------------------------------------

  /** The mounted component: its fields and the effects it has had. */
  class GameUpdater {
    const gameTag: string
    var timeoutId: Option<nat>
    var cancelled: bool
    var pending: map<nat, nat>
    var nextTimer: nat
    var inFlight: nat
    var stateFetches: nat
    var requests: seq<Request>
    var reloads: nat
    var dispatched: seq<FrontendState>

    /** The fields and effects as one record. */
    function State(): Snapshot
      reads this
    {
      Snapshot(timeoutId, cancelled, pending, nextTimer, inFlight, stateFetches, requests, reloads, dispatched)
    }

    /** `timeoutID = null`, `cancelled = false`. */
    constructor (gameTag: string)
      ensures this.gameTag == gameTag && State() == Initial()
    {
      this.gameTag := gameTag;
      timeoutId := None;
      cancelled := false;
      pending := map[];
      nextTimer := 1;
      inFlight := 0;
      stateFetches := 0;
      requests := [];
      reloads := 0;
      dispatched := [];
    }

    /** `startPolling`, run from `componentDidMount`. */
    method StartPolling(knownHash: int)
      modifies this
      ensures State() == Start(old(State()), gameTag, knownHash)
    {
      JoinGame();
      CheckAndReschedule(knownHash);
    }

    /** `joinGame`. */
    method JoinGame()
      modifies this
      ensures State() == old(State()).(requests := old(requests) + [Join(gameTag)])
    {
      requests := requests + [Join(gameTag)];
    }

    /** `checkAndReschedule`: sends the check; its answer arrives later as a callback. */
    method CheckAndReschedule(knownHash: int)
      modifies this
      ensures State() == Check(old(State()), gameTag, knownHash)
    {
      requests := requests + [HashCheck(gameTag, knownHash)];
      inFlight := inFlight + 1;
    }

    /** `setTimeout(this.checkAndReschedule, delay)`. */
    method SetTimer(delay: nat)
      modifies this
      ensures State() == Schedule(old(State()), delay)
    {
      pending := pending[nextTimer := delay];
      timeoutId := Some(nextTimer);
      nextTimer := nextTimer + 1;
    }

    /** `updateState`: sends the fetch; its answer arrives later as a callback. */
    method UpdateStateRequest()
      modifies this
      ensures State() == UpdateState(old(State()), gameTag)
    {
      requests := requests + [StateFetch(gameTag)];
      stateFetches := stateFetches + 1;
    }

    /** The hash check's success handler, with the body's continuation. */
    method HashCheckResolved(ok: bool, body: HashBody, knownHash: int)
      requires inFlight > 0
      modifies this
      ensures State() == OnHashResolved(old(State()), gameTag, ok, body, knownHash)
    {
      inFlight := inFlight - 1;
      if !cancelled {
        SetTimer(SuccessCheckRate);
        if !ok {
          reloads := reloads + 1;
        }
        if HashMoved(body, knownHash) {
          UpdateStateRequest();
        }
      }
    }

    /** The hash check's failure handler. */
    method HashCheckRejected()
      requires inFlight > 0
      modifies this
      ensures State() == OnHashRejected(old(State()))
    {
      inFlight := inFlight - 1;
      if !cancelled {
        SetTimer(ErrorCheckRate);
      }
    }

    /** The armed timer fires and calls `checkAndReschedule`. */
    method TimerFires(id: nat, knownHash: int)
      requires id in pending
      modifies this
      ensures State() == OnTimer(old(State()), gameTag, id, knownHash)
    {
      pending := pending - {id};
      CheckAndReschedule(knownHash);
    }

    /** `stopPolling`, run from `componentWillUnmount`. */
    method StopPolling()
      modifies this
      ensures State() == OnUnmount(old(State()))
    {
      if timeoutId.Some? {
        pending := pending - {timeoutId.value};
      }
      cancelled := true;
    }

    /** The full-state fetch's chain of handlers. */
    method StateFetchResolved(ok: bool, body: StateBody)
      requires stateFetches > 0
      modifies this
      ensures State() == OnStateResolved(old(State()), ok, body)
    {
      stateFetches := stateFetches - 1;
      if ok {
        match body
        case StateObject(data) =>
          dispatched := dispatched + [data];
        case NullBody =>
        case BadJson =>
      }
    }

    /** A full-state fetch that fails at the network level. */
    method StateFetchRejected()
      requires stateFetches > 0
      modifies this
      ensures State() == OnStateRejected(old(State()))
    {
      stateFetches := stateFetches - 1;
    }
  }
}
