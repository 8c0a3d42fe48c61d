/** The bookkeeping of `operadoresCache`, the in-memory cache in front of
    the status pipeline: a stored answer, the time it was stored, and a flag
    saying that a refresh is in flight. A request either serves the stored
    answer, waits for the refresh in flight, or starts a refresh; the
    refresh's completion stores its answer (unless the roster was empty)
    and clears the flag, and its failure only clears the flag. The promise
    shared between waiters is not modelled: a request that waits is
    answered by the refresh it joins. */
module StatusCache {
  import opened Wrappers
  import OperatorStatus

  type Snapshot = OperatorStatus.StatusSnapshot

  /** `parseInt(env) || fallback`: a missing, unparsable or zero setting
      takes the fallback. A positive fallback and a setting that is not
      negative give a positive value. */
  function SettingOr(parsed: Option<int>, fallback: int): (r: int)
    ensures parsed.Some? && parsed.value != 0 ==> r == parsed.value
    ensures parsed.None? || parsed.value == 0 ==> r == fallback
    ensures fallback >= 1 && (parsed.None? || parsed.value >= 0) ==> r >= 1
  {
    if parsed.Some? && parsed.value != 0 then parsed.value else fallback
  }

  const DefaultCacheDuration: int := 15000
  const DefaultConcurrency: int := 10

  /** The settings `CACHE_DURATION` and `ARGUS_CONCURRENCY`, as `parseInt`
      leaves them: `None` when unset or not a number. */
  datatype Settings = Settings(cacheDuration: Option<int>, concurrency: Option<int>)

  function Duration(st: Settings): int
  {
    SettingOr(st.cacheDuration, DefaultCacheDuration)
  }

  function Concurrency(st: Settings): int
  {
    SettingOr(st.concurrency, DefaultConcurrency)
  }

  /** The three fields of the cache the handler reads and writes. */
  datatype CacheState = CacheState(data: Option<Snapshot>, timestamp: int, isFetching: bool)

  const Initial: CacheState := CacheState(None, 0, false)

  /** What a request does on arrival. */
  datatype Decision = ServeCache(snapshot: Snapshot) | JoinInFlight | StartFetch

  /** A stored answer younger than the cache duration. */
  predicate IsFresh(s: CacheState, now: int, duration: int)
  {
    s.data.Some? && now - s.timestamp < duration
  }

  /** The decision of a request arriving at `now`: the stored answer when it
      is fresh, otherwise the refresh in flight if there is one, otherwise a
      new refresh. */
  function DecisionOf(s: CacheState, now: int, duration: int): (d: Decision)
    ensures d.ServeCache? <==> IsFresh(s, now, duration)
    ensures d.ServeCache? ==> s.data == Some(d.snapshot)
    ensures d.JoinInFlight? <==> !IsFresh(s, now, duration) && s.isFetching
    ensures d.StartFetch? <==> !IsFresh(s, now, duration) && !s.isFetching
  {
    if IsFresh(s, now, duration) then ServeCache(s.data.value)
    else if s.isFetching then JoinInFlight
    else StartFetch
  }

  /** The state after the decision: only starting a refresh changes it, by
      raising the flag. */
  function Decided(s: CacheState, now: int, duration: int): (t: CacheState)
    ensures t.data == s.data && t.timestamp == s.timestamp
    ensures t.isFetching <==> s.isFetching || DecisionOf(s, now, duration).StartFetch?
    ensures !DecisionOf(s, now, duration).StartFetch? ==> t == s
  {
    if DecisionOf(s, now, duration).StartFetch? then s.(isFetching := true) else s
  }

  /** A waiter whose joined refresh failed starts a refresh of its own. */
  function Rejoined(s: CacheState): (t: CacheState)
    ensures t.data == s.data && t.timestamp == s.timestamp && t.isFetching
  {
    s.(isFetching := true)
  }

  /** A refresh finished at time `at`: its answer is stored and timestamped
      when `stored` holds (a non-empty roster), and the flag is cleared. */
  function Succeeded(s: CacheState, snapshot: Snapshot, stored: bool, at: int): (t: CacheState)
    ensures !t.isFetching
    ensures stored ==> t.data == Some(snapshot) && t.timestamp == at
    ensures !stored ==> t.data == s.data && t.timestamp == s.timestamp
  {
    if stored then CacheState(Some(snapshot), at, false) else s.(isFetching := false)
  }

  /** A refresh failed: only the flag is cleared. */
  function FailedState(s: CacheState): (t: CacheState)
    ensures t.data == s.data && t.timestamp == s.timestamp && !t.isFetching
  {
    s.(isFetching := false)
  }

  // ---------------------------------------------------------------------
  // Properties of the rules
  // ---------------------------------------------------------------------

  /** A stored answer keeps being served for the whole window after it was
      stored, and a stale one is never served. */
  lemma FreshAfterSuccess(s: CacheState, snapshot: Snapshot, at: int, now: int, duration: int)
    ensures now - at < duration ==>
              DecisionOf(Succeeded(s, snapshot, true, at), now, duration) == ServeCache(snapshot)
    ensures now - at >= duration ==>
              DecisionOf(Succeeded(s, snapshot, true, at), now, duration) == StartFetch
  {
    var t := Succeeded(s, snapshot, true, at);
    assert t == CacheState(Some(snapshot), at, false);
  }

  /** Freshness only wears off: an answer served at `later` would have been
      served at any earlier time after it was stored. */
  lemma FreshEarlier(s: CacheState, now: int, later: int, duration: int)
    requires now <= later
    requires DecisionOf(s, later, duration).ServeCache?
    ensures DecisionOf(s, now, duration) == DecisionOf(s, later, duration)
  {
    assert IsFresh(s, later, duration);
    assert IsFresh(s, now, duration);
  }

  /** After a failure nobody waits: the next request is served from the
      cache or starts a refresh, and what was stored is still there. */
  lemma FailureNeverJoins(s: CacheState, now: int, duration: int)
    ensures !DecisionOf(FailedState(s), now, duration).JoinInFlight?
    ensures DecisionOf(FailedState(s), now, duration).ServeCache? <==> IsFresh(s, now, duration)
  {
    assert IsFresh(FailedState(s), now, duration) == IsFresh(s, now, duration);
  }

  /** An empty roster answers without storing anything: the next request
      decides exactly as if the refresh had failed. */
  lemma EmptyRosterNotCached(s: CacheState, snapshot: Snapshot, at: int, now: int, duration: int)
    ensures Succeeded(s, snapshot, false, at) == FailedState(s)
    ensures DecisionOf(Succeeded(s, snapshot, false, at), now, duration) == DecisionOf(FailedState(s), now, duration)
  {
  }

  /** The decisions of requests arriving at the times `nows`, with no
      refresh completing in between. */
  function Decisions(s: CacheState, nows: seq<int>, duration: int): (ds: seq<Decision>)
    ensures |ds| == |nows|
    decreases |nows|
  {
    if nows == [] then []
    else [DecisionOf(s, nows[0], duration)] + Decisions(Decided(s, nows[0], duration), nows[1..], duration)
  }

  function Starts(ds: seq<Decision>): nat
    decreases |ds|
  {
    if ds == [] then 0 else (if ds[0].StartFetch? then 1 else 0) + Starts(ds[1..])
  }

  /** Coalescing: while no refresh completes, however many requests arrive,
      at most one of them starts a refresh, and none does when one is
      already in flight. */
  lemma {:induction false} AtMostOneStart(s: CacheState, nows: seq<int>, duration: int)
    ensures Starts(Decisions(s, nows, duration)) <= 1
    ensures s.isFetching ==> Starts(Decisions(s, nows, duration)) == 0
    decreases |nows|
  {
    if nows != [] {
      var ds := Decisions(s, nows, duration);
      var next := Decided(s, nows[0], duration);
      assert ds[1..] == Decisions(next, nows[1..], duration);
      AtMostOneStart(next, nows[1..], duration);
      if DecisionOf(s, nows[0], duration).StartFetch? {
        assert next.isFetching;
      } else {
        assert next == s;
      }
    }
  }

  /** Three requests on a cold cache: the first starts the refresh, the
      other two wait for it. */
  lemma ColdStartCase(duration: int)
    ensures Decisions(Initial, [0, 5, 9], duration) == [StartFetch, JoinInFlight, JoinInFlight]
  {
    var s1 := Initial.(isFetching := true);
    assert Decided(Initial, 0, duration) == s1;
    assert Decisions(s1, [9], duration) == [JoinInFlight];
    assert [0, 5, 9][1..] == [5, 9];
    assert [5, 9][1..] == [9];
  }

  // ---------------------------------------------------------------------
  // Waiters of a refresh that fails
  // ---------------------------------------------------------------------

  /** What reaches the handler: a new request arriving at `now`, or a
      request that was waiting on the refresh in flight, whose refresh has
      just failed, resuming at `now`. */
  datatype Event = Arrive(now: int) | Resume(now: int)

  /** One event as the handler is written: a new request decides as usual;
      a resumed waiter leaves the catch block and raises the flag for a
      refresh of its own, looking neither at the flag nor at the cache. */
  function StepAsWritten(s: CacheState, e: Event, duration: int): (Decision, CacheState)
  {
    match e
    case Arrive(now) => (DecisionOf(s, now, duration), Decided(s, now, duration))
    case Resume(_) => (StartFetch, Rejoined(s))
  }

  /** The decisions of a run of events, with no refresh completing in
      between, as written. */
  function RunAsWritten(s: CacheState, evs: seq<Event>, duration: int): (ds: seq<Decision>)
    ensures |ds| == |evs|
    decreases |evs|
  {
    if evs == [] then []
    else
      var step := StepAsWritten(s, evs[0], duration);
      [step.0] + RunAsWritten(step.1, evs[1..], duration)
  }

  /** One event as intended: a resumed waiter decides again, exactly as a
      new request does. */
  function StepCorrected(s: CacheState, e: Event, duration: int): (Decision, CacheState)
  {
    (DecisionOf(s, e.now, duration), Decided(s, e.now, duration))
  }

  function RunCorrected(s: CacheState, evs: seq<Event>, duration: int): (ds: seq<Decision>)
    ensures |ds| == |evs|
    decreases |evs|
  {
    if evs == [] then []
    else
      var step := StepCorrected(s, evs[0], duration);
      [step.0] + RunCorrected(step.1, evs[1..], duration)
  }

  function Times(evs: seq<Event>): (ts: seq<int>)
    ensures |ts| == |evs|
    ensures forall i :: 0 <= i < |evs| ==> ts[i] == evs[i].now
  {
    seq(|evs|, i requires 0 <= i < |evs| => evs[i].now)
  }

  /** As written, every waiter of a failed refresh starts a refresh of its
      own: `k` waiters resuming put `k` refreshes in flight at once. */
  lemma {:induction false} ResumesAllStart(s: CacheState, evs: seq<Event>, duration: int)
    requires forall i :: 0 <= i < |evs| ==> evs[i].Resume?
    ensures Starts(RunAsWritten(s, evs, duration)) == |evs|
    decreases |evs|
  {
    if evs != [] {
      var ds := RunAsWritten(s, evs, duration);
      var step := StepAsWritten(s, evs[0], duration);
      assert step == (StartFetch, Rejoined(s));
      assert ds[1..] == RunAsWritten(step.1, evs[1..], duration);
      ResumesAllStart(step.1, evs[1..], duration);
    }
  }

  /** Two requests wait on a refresh that fails: as written they start two
      refreshes side by side; as intended the first starts one and the
      second waits for it. */
  lemma TwoWaitersTwoRefreshes(s: CacheState, duration: int)
    requires s.data.None?
    ensures RunAsWritten(FailedState(s), [Resume(3), Resume(3)], duration) == [StartFetch, StartFetch]
    ensures RunCorrected(FailedState(s), [Resume(3), Resume(3)], duration) == [StartFetch, JoinInFlight]
  {
    var evs := [Resume(3), Resume(3)];
    assert evs[1..] == [Resume(3)];
    var f := FailedState(s);
    assert DecisionOf(f, 3, duration) == StartFetch;
    assert DecisionOf(f.(isFetching := true), 3, duration) == JoinInFlight;
  }

  /** As intended, resuming is deciding again: a run of events decides as
      the requests at the same times do. */
  lemma {:induction false} RunCorrectedDecides(s: CacheState, evs: seq<Event>, duration: int)
    ensures RunCorrected(s, evs, duration) == Decisions(s, Times(evs), duration)
    decreases |evs|
  {
    if evs != [] {
      var ts := Times(evs);
      assert ts[0] == evs[0].now;
      assert ts[1..] == Times(evs[1..]);
      RunCorrectedDecides(Decided(s, evs[0].now, duration), evs[1..], duration);
    }
  }

  /** With resumed waiters deciding again, coalescing holds whatever mix
      of new and resumed requests arrives: at most one refresh starts. */
  lemma CorrectedAtMostOneStart(s: CacheState, evs: seq<Event>, duration: int)
    ensures Starts(RunCorrected(s, evs, duration)) <= 1
    ensures s.isFetching ==> Starts(RunCorrected(s, evs, duration)) == 0
  {
    RunCorrectedDecides(s, evs, duration);
    AtMostOneStart(s, Times(evs), duration);
  }

  // ---------------------------------------------------------------------
  // The cache object and the request handler
  // ---------------------------------------------------------------------

  /** `operadoresCache`. */
  class OperadoresCache {
    var data: Option<Snapshot>
    var timestamp: int
    var isFetching: bool

    function State(): CacheState
      reads this
    {
      CacheState(data, timestamp, isFetching)
    }

    constructor()
      ensures State() == Initial
    {
      data := None;
      timestamp := 0;
      isFetching := false;
    }

    method Decide(now: int, duration: int) returns (d: Decision)
      modifies this
      ensures d == DecisionOf(old(State()), now, duration)
      ensures State() == Decided(old(State()), now, duration)
    {
      if data.Some? && now - timestamp < duration {
        return ServeCache(data.value);
      }
      if isFetching {
        return JoinInFlight;
      }
      isFetching := true;
      d := StartFetch;
    }

    method RetryAfterJoinFailure()
      modifies this
      ensures State() == Rejoined(old(State()))
    {
      isFetching := true;
    }

    method CompleteSuccess(snapshot: Snapshot, stored: bool, at: int)
      modifies this
      ensures State() == Succeeded(old(State()), snapshot, stored, at)
    {
      if stored {
        data := Some(snapshot);
        timestamp := at;
      }
      isFetching := false;
    }

    method CompleteFailure()
      modifies this
      ensures State() == FailedState(old(State()))
    {
      isFetching := false;
    }

    /** One request handled to the end by the request that starts the
        refresh: the refresh runs, its outcome completes the cache, and the
        caller gets the answer or the generic server error. A request that
        finds a refresh in flight is told to wait; what it does when that
        refresh fails is `RetryAfterJoinFailure`. The request arrives at
        `now`; the refresh finishes, stamps its answer and stores it at
        `at`. */
    method Handle(
      now: int, at: int, settings: Settings,
      token: Option<string>, roster: Result<seq<OperatorStatus.RosterRow>>,
      upstream: string -> OperatorStatus.ArgusReply)
      returns (response: Response)
      requires settings.concurrency.None? || settings.concurrency.value >= 0
      modifies this
      ensures IsFresh(old(State()), now, Duration(settings)) ==>
                response == Answer(old(data).value) && State() == old(State())
      ensures !IsFresh(old(State()), now, Duration(settings)) && old(isFetching) ==>
                response == Wait && State() == old(State())
      ensures !IsFresh(old(State()), now, Duration(settings)) && !old(isFetching) ==>
                && response != Wait
                && (!OperatorStatus.Truthy(token) || roster.Failure? ==>
                      response == ServerError(ServerErrorMessage) && State() == FailedState(old(State())))
                && (OperatorStatus.Truthy(token) && roster.Success? && roster.value == [] ==>
                      var snapshot := OperatorStatus.EmptySnapshot(at);
                      response == Answer(snapshot) && State() == Succeeded(old(State()), snapshot, false, at))
                && (OperatorStatus.Truthy(token) && roster.Success? && roster.value != [] ==>
                      var snapshot := OperatorStatus.Aggregate(OperatorStatus.ToRamais(roster.value), upstream, at);
                      response == Answer(snapshot) && State() == Succeeded(old(State()), snapshot, true, at))
      ensures response.ServerError? <==>
                !IsFresh(old(State()), now, Duration(settings)) && !old(isFetching) &&
                (!OperatorStatus.Truthy(token) || roster.Failure?)
      ensures response.Answer? && !IsFresh(old(State()), now, Duration(settings)) ==>
                OperatorStatus.Consistent(response.snapshot)
    {
      var concurrency := Concurrency(settings);
      var d := Decide(now, Duration(settings));
      match d
      case ServeCache(snapshot) =>
        response := Answer(snapshot);
      case JoinInFlight =>
        response := Wait;
      case StartFetch =>
        var outcome, _ := OperatorStatus.FetchOperadores(token, roster, upstream, concurrency, at);
        match outcome
        case Fetched(snapshot, stored) =>
          CompleteSuccess(snapshot, stored, at);
          response := Answer(snapshot);
        case Failed(_) =>
          CompleteFailure();
          response := ServerError(ServerErrorMessage);
    }
  }

  /** What the handler sends: an answer, the generic error (status 500 with
      an empty operator list), or nothing yet because the request waits for
      the refresh in flight. */
  datatype Response = Answer(snapshot: Snapshot) | ServerError(error: string) | Wait

  const ServerErrorMessage: string := "Erro interno do servidor"
}
