/** fal's catalogue: stale-while-revalidate listings over one cache, one routing map and at most
    one background refresh (`backends/fal/adapter.py`). */
module FalCatalogue {
  import opened Options
  import opened TtlCache

  import SingleFlights

  type Id = SingleFlights.Id

  /** What a fetched catalogue translates to (`entries_from_catalog`). */
  datatype Translation = Translation(entries: seq<string>, routes: map<string, string>)

  /** Where an inline fetch or a background refresh stands in `_fetch_catalog_entries`. */
  datatype Phase = ForLock | Fetching | Over

  const CATALOG_KEY := "catalog"

  /** `published` is the history of fetches that succeeded and were not empty. */
  datatype State = State(
    cache: Cache<seq<string>>,
    routes: map<string, string>,
    authFailed: bool,
    now: real,
    lock: Option<Id>,
    phases: map<Id, Phase>,
    refreshes: SingleFlights.State,
    published: seq<Translation>)

  datatype Outcome = Got(t: Translation) | Rejected | Errored(error: Error) | Cancelled

  datatype Step =
    | Wait(until: real)
    | List(id: Id)                         // `id` is the fetch or refresh it may have to start
    | TakeLock(id: Id)
    | Ends(id: Id, outcome: Outcome)       // upstream answers, or the fetch is cancelled
    | GivesUp(id: Id)                      // cancelled while waiting for the lock
    | Rejection                            // another request finds the key rejected
    | Callback(id: Id)                     // a refresh's done-callback
    | CancelAll                            // `aclose`
    | Clear

  /** Configured models the catalogue did not return, and only those, are added back. */
  function Listed(t: Translation, configured: seq<string>): seq<string> {
    t.entries + Absent(configured, IdsOf(t.entries), t.routes.Values)
  }

  function IdsOf(entries: seq<string>): set<string> {
    set e | e in entries
  }

  function Absent(configured: seq<string>, listed: set<string>, folded: set<string>): seq<string> {
    if configured == [] then []
    else
      var rest := Absent(configured[..|configured| - 1], listed, folded);
      var last := configured[|configured| - 1];
      if last in listed || last in folded then rest else rest + [last]
  }

  function IsBusy(s: State, id: Id): bool {
    id in s.phases && !s.phases[id].Over?
  }

  predicate Enabled(s: State, step: Step) {
    match step
    case Wait(until) => until >= s.now
    case List(id) => id !in s.phases && id !in s.refreshes.keyOf
    case TakeLock(id) => id in s.phases && s.phases[id].ForLock? && s.lock.None?
    case Ends(id, _) => id in s.phases && s.phases[id].Fetching?
    case GivesUp(id) => id in s.phases && s.phases[id].ForLock?
    case Rejection => true
    case Callback(id) => SingleFlights.Enabled(s.refreshes, SingleFlights.Forget(id))
    case CancelAll => SingleFlights.Enabled(s.refreshes, SingleFlights.CancelAll)
    case Clear => SingleFlights.Enabled(s.refreshes, SingleFlights.Clear)
  }

  /** What `list_models` answers at once, or `None` when its caller has to pay for the fetch. */
  function AnswerNow(s: State, discover: bool, configured: seq<string>): Option<seq<string>> {
    if !discover || s.authFailed then Some(configured)
    else if Fresh(s.cache, s.now).Some? then Fresh(s.cache, s.now)
    else Stale(s.cache)
  }

  predicate StartsRefresh(s: State, discover: bool) {
    && discover && !s.authFailed
    && Fresh(s.cache, s.now).None? && Stale(s.cache).Some? && PendingFailure(s.cache, s.now).None?
  }

  /** The fetch `id` is over; if it was a refresh, so is its task. */
  function Over(s: State, id: Id): State
    requires id in s.phases
  {
    s.(phases := s.phases[id := Phase.Over],
       lock := if s.lock == Some(id) then None else s.lock,
       refreshes := if SingleFlights.Alive(s.refreshes, id) then SingleFlights.Do(s.refreshes, SingleFlights.Finish(id)) else s.refreshes)
  }

  function Joined(s: State, id: Id): State
    requires id !in s.refreshes.keyOf
  {
    s.(refreshes := SingleFlights.Do(s.refreshes, SingleFlights.Join(CATALOG_KEY, id)),
       phases := if CATALOG_KEY in s.refreshes.byKey then s.phases else s.phases[id := ForLock])
  }

  function Do(s: State, step: Step, discover: bool, configured: seq<string>): State
    requires Enabled(s, step)
  {
    match step
    case Wait(until) => s.(now := until)
    case List(id) =>
      if AnswerNow(s, discover, configured).None? then s.(phases := s.phases[id := ForLock])
      else if StartsRefresh(s, discover) then Joined(s, id)
      else s
    case TakeLock(id) =>
      if Fresh(s.cache, s.now).Some? || PendingFailure(s.cache, s.now).Some? then Over(s, id)
      else s.(lock := Some(id), phases := s.phases[id := Fetching])
    case Ends(id, outcome) => Over(Landed(s, outcome, configured), id)
    case GivesUp(id) => Over(s, id)
    case Rejection => s.(authFailed := true)
    case Callback(id) => s.(refreshes := SingleFlights.Do(s.refreshes, SingleFlights.Forget(id)))
    case CancelAll => s.(refreshes := SingleFlights.Do(s.refreshes, SingleFlights.CancelAll))
    case Clear => s.(refreshes := SingleFlights.Do(s.refreshes, SingleFlights.Clear))
  }

  function Landed(s: State, outcome: Outcome, configured: seq<string>): State {
    match outcome
    case Rejected => s.(authFailed := true)
    case Errored(e) => s.(cache := Noted(s.cache, e, s.now))
    case Cancelled => s
    case Got(t) =>
      if t.entries == [] then s.(cache := Noted(s.cache, OtherError("no models"), s.now))
      else s.(routes := t.routes, cache := Stored(s.cache, Listed(t, configured), None, s.now), published := s.published + [t])
  }

  function Boot(ttl: real, cooldown: real, now: real): State {
    State.State(Empty(ttl, cooldown), map[], false, now, None, map[], SingleFlights.EMPTY, [])
  }

  class FalBackend {
    const configured: seq<string>
    const catalog: AsyncTTLCache<seq<string>>
    var routes: map<string, string>
    var authFailed: bool

    constructor (configured: seq<string>, ttl: real, cooldown: real)
      ensures fresh(catalog) && this.configured == configured
      ensures View(0.0) == Boot(ttl, cooldown, 0.0)
    {
      this.configured := configured;
      catalog := new AsyncTTLCache(ttl, cooldown);
      routes := map[];
      authFailed := false;
    }

    ghost function View(now: real): State
      reads this, catalog
    {
      State.State(catalog.View(), routes, authFailed, now, None, map[], SingleFlights.EMPTY, [])
    }

    /** `list_models` up to its first wait: what it answers at once, `None` when it has to fetch,
        and whether it joins or starts a background refresh. */
    method ListModels(discover: bool, now: real) returns (answer: Option<seq<string>>, refreshes: bool)
      ensures answer == AnswerNow(View(now), discover, configured)
      ensures refreshes <==> StartsRefresh(View(now), discover)
    {
      if !discover || authFailed {
        return Some(configured), false;
      }
      var cached := catalog.IsFresh(now);
      if cached.Some? {
        return cached, false;
      }
      var previous := catalog.IsStale();
      if previous.Some? {
        var pending := catalog.Pending(now);
        return previous, pending.None?;
      }
      return None, false;
    }

    /** `_fetch_catalog_entries` from the lock's acquisition at `now` to its release at `later`.
        `None` stands for a cancellation, which propagates. */
    method FetchCatalogEntries(now: real, outcome: Outcome, later: real) returns (served: Option<seq<string>>)
      modifies this, catalog
      ensures var asks := Fresh(old(catalog.View()), now).None? && PendingFailure(old(catalog.View()), now).None?;
              && (asks ==> View(later) == Landed(old(View(later)), outcome, configured).(published := []))
              && (!asks ==> View(later) == old(View(later)))
              && served == (if Fresh(old(catalog.View()), now).Some? then Fresh(old(catalog.View()), now)
                            else if asks && outcome.Cancelled? then None
                            else if asks && outcome.Got? && outcome.t.entries != [] then Some(Listed(outcome.t, configured))
                            else Some(configured))
    {
      var cached := catalog.IsFresh(now);
      if cached.Some? {
        return cached;
      }
      var pending := catalog.Pending(now);
      if pending.Some? {
        return Some(configured);
      }
      match outcome {
        case Rejected =>
          authFailed := true;
          served := Some(configured);
        case Errored(e) =>
          catalog.NoteFailure(e, later);
          served := Some(configured);
        case Cancelled =>
          served := None;
        case Got(t) =>
          if t.entries == [] {
            catalog.NoteFailure(OtherError("no models"), later);
            served := Some(configured);
          } else {
            var entries := AddConfigured(t);
            routes := t.routes;
            catalog.Store(entries, None, later);
            served := Some(entries);
          }
      }
    }

    method AddConfigured(t: Translation) returns (entries: seq<string>)
      ensures entries == Listed(t, configured)
    {
      var listed, folded := IdsOf(t.entries), t.routes.Values;
      var added: seq<string> := [];
      for i := 0 to |configured|
        invariant added == Absent(configured[..i], listed, folded)
      {
        assert configured[..i + 1][..i] == configured[..i];
        if configured[i] !in listed && configured[i] !in folded {
          added := added + [configured[i]];
        }
      }
      assert configured[..|configured|] == configured;
      entries := t.entries + added;
    }
  }

  // ----- Invariants -----

  /** The listing and the routing map are those of the last successful, non-empty fetch. */
  predicate Paired(s: State, configured: seq<string>) {
    if s.published == [] then s.cache.value.None? && s.routes == map[]
    else
      var last := s.published[|s.published| - 1];
      last.entries != [] && s.cache.value == Some(Listed(last, configured)) && s.routes == last.routes
  }

  ghost predicate Locked(s: State) {
    forall id :: id in s.phases && s.phases[id].Fetching? <==> s.lock == Some(id)
  }

  ghost predicate Tracked(s: State) {
    && SingleFlights.Inv(s.refreshes)
    && (forall id :: id in s.refreshes.keyOf ==>
          id in s.phases && s.refreshes.keyOf[id] == CATALOG_KEY && (SingleFlights.Alive(s.refreshes, id) <==> IsBusy(s, id)))
  }

  ghost predicate Inv(s: State, configured: seq<string>) {
    Paired(s, configured) && Locked(s) && Tracked(s)
  }

  lemma PairedKeeps(s: State, step: Step, discover: bool, configured: seq<string>)
    requires Paired(s, configured) && Enabled(s, step)
    ensures Paired(Do(s, step, discover, configured), configured)
  {
    hide Fresh, PendingFailure, Stale, SingleFlights.Do, SingleFlights.Enabled, Listed;
  }

  lemma LockedKeeps(s: State, step: Step, discover: bool, configured: seq<string>)
    requires Locked(s) && Enabled(s, step)
    ensures Locked(Do(s, step, discover, configured))
  {
    hide Fresh, PendingFailure, Stale, SingleFlights.Do, SingleFlights.Enabled, Listed, Stored, Noted;
  }

  lemma OverTracks(s: State, id: Id)
    requires Tracked(s) && id in s.phases
    ensures Tracked(Over(s, id))
  {
    if SingleFlights.Alive(s.refreshes, id) {
      SingleFlights.StepKeeps(s.refreshes, SingleFlights.Finish(id));
    }
    hide SingleFlights.Inv;
  }

  lemma ListTracks(s: State, id: Id, discover: bool, configured: seq<string>)
    requires Tracked(s) && Enabled(s, List(id))
    ensures Tracked(Do(s, List(id), discover, configured))
  {
    assert id !in s.refreshes.done;
    hide Fresh, PendingFailure, Stale, SingleFlights.Inv;
    if StartsRefresh(s, discover) {
      SingleFlights.StepKeeps(s.refreshes, SingleFlights.Join(CATALOG_KEY, id));
    }
  }

  lemma FlightTracks(s: State, step: Step, discover: bool, configured: seq<string>)
    requires Tracked(s) && Enabled(s, step) && (step.Callback? || step.CancelAll? || step.Clear?)
    ensures Tracked(Do(s, step, discover, configured))
  {
    hide Fresh, PendingFailure, Stale, SingleFlights.Inv;
    SingleFlights.StepKeeps(s.refreshes,
                            match step
                            case Callback(id) => SingleFlights.Forget(id)
                            case CancelAll => SingleFlights.CancelAll
                            case _ => SingleFlights.Clear);
  }

  lemma LandedTracks(s: State, outcome: Outcome, configured: seq<string>)
    requires Tracked(s)
    ensures Tracked(Landed(s, outcome, configured)) && Landed(s, outcome, configured).phases == s.phases
  {
    hide SingleFlights.Inv, SingleFlights.Alive, Listed, Stored, Noted;
  }

  lemma TrackedKeeps(s: State, step: Step, discover: bool, configured: seq<string>)
    requires Tracked(s) && Enabled(s, step)
    ensures Tracked(Do(s, step, discover, configured))
  {
    match step
    case List(id) => ListTracks(s, id, discover, configured);
    case TakeLock(id) =>
      hide Fresh, PendingFailure, SingleFlights.Inv, Over;
      OverTracks(s, id);
    case Ends(id, outcome) =>
      hide Tracked, Over;
      LandedTracks(s, outcome, configured);
      OverTracks(Landed(s, outcome, configured), id);
    case GivesUp(id) =>
      hide Tracked, Over;
      OverTracks(s, id);
    case Callback(_) => FlightTracks(s, step, discover, configured);
    case CancelAll => FlightTracks(s, step, discover, configured);
    case Clear => FlightTracks(s, step, discover, configured);
    case _ =>
  }

  ghost predicate Runs(steps: seq<Step>, from: State, to: State, discover: bool, configured: seq<string>)
    decreases |steps|
  {
    if steps == [] then to == from
    else Enabled(from, steps[0]) && Runs(steps[1..], Do(from, steps[0], discover, configured), to, discover, configured)
  }

  lemma {:induction false} RunKeeps(steps: seq<Step>, from: State, to: State, discover: bool, configured: seq<string>)
    requires Runs(steps, from, to, discover, configured) && Inv(from, configured)
    ensures Inv(to, configured)
    decreases |steps|
  {
    hide Paired, Locked, Tracked, Do, Enabled;
    if steps != [] {
      PairedKeeps(from, steps[0], discover, configured);
      LockedKeeps(from, steps[0], discover, configured);
      TrackedKeeps(from, steps[0], discover, configured);
      RunKeeps(steps[1..], Do(from, steps[0], discover, configured), to, discover, configured);
    }
  }

  /** Over every interleaving of listings, inline fetches, refreshes, rejections and shutdown:
      the stored catalogue and the routing map come from the same fetch, the last one that
      succeeded and was not empty; before the first there is neither. */
  lemma PublishedTogether(steps: seq<Step>, s: State, ttl: real, cooldown: real, now: real, discover: bool, configured: seq<string>)
    requires Runs(steps, Boot(ttl, cooldown, now), s, discover, configured)
    ensures s.published == [] ==> s.cache.value.None? && s.routes == map[]
    ensures s.published != [] ==>
              var last := s.published[|s.published| - 1];
              last.entries != [] && s.cache.value == Some(Listed(last, configured)) && s.routes == last.routes
  {
    RunKeeps(steps, Boot(ttl, cooldown, now), s, discover, configured);
  }

  /** Only a successful fetch with something in it changes what is published; a refresh that
      fails, finds nothing, finds the key rejected or is cancelled leaves listing, age and
      routes alone. */
  lemma OnlySuccessPublishes(s: State, step: Step, discover: bool, configured: seq<string>)
    requires Enabled(s, step)
    requires !(step.Ends? && step.outcome.Got? && step.outcome.t.entries != [])
    ensures var s' := Do(s, step, discover, configured);
            && s'.cache.value == s.cache.value && s'.cache.storedAt == s.cache.storedAt && s'.routes == s.routes
            && s'.published == s.published
  {
    hide Fresh, PendingFailure, Stale, SingleFlights.Do, SingleFlights.Enabled, Listed;
  }

  // ----- Background refreshes -----

  /** What a step does to the refreshes, as a step of their own. */
  function Flight(s: State, step: Step, discover: bool, configured: seq<string>): Option<SingleFlights.Step> {
    match step
    case List(id) =>
      if AnswerNow(s, discover, configured).Some? && StartsRefresh(s, discover) then Some(SingleFlights.Join(CATALOG_KEY, id)) else None
    case TakeLock(id) =>
      if (Fresh(s.cache, s.now).Some? || PendingFailure(s.cache, s.now).Some?) && SingleFlights.Alive(s.refreshes, id)
      then Some(SingleFlights.Finish(id)) else None
    case Ends(id, _) => if SingleFlights.Alive(s.refreshes, id) then Some(SingleFlights.Finish(id)) else None
    case GivesUp(id) => if SingleFlights.Alive(s.refreshes, id) then Some(SingleFlights.Finish(id)) else None
    case Callback(id) => Some(SingleFlights.Forget(id))
    case CancelAll => Some(SingleFlights.CancelAll)
    case Clear => Some(SingleFlights.Clear)
    case _ => None
  }

  lemma StepFlies(s: State, step: Step, discover: bool, configured: seq<string>)
    requires Enabled(s, step)
    ensures var flight := Flight(s, step, discover, configured);
            var s' := Do(s, step, discover, configured);
            && (flight.None? ==> s'.refreshes == s.refreshes)
            && (flight.Some? ==>
                  SingleFlights.Enabled(s.refreshes, flight.value) && s'.refreshes == SingleFlights.Do(s.refreshes, flight.value))
            && (step.Clear? <==> flight == Some(SingleFlights.Clear))
  {
    hide Fresh, PendingFailure, Stale, Listed, Stored, Noted;
  }

  /** At some step of the run a `cancel_all` ended while the refresh was alive. */
  ghost predicate OutlivesClear(steps: seq<Step>, from: State, id: Id, discover: bool, configured: seq<string>)
    decreases |steps|
  {
    && steps != [] && Enabled(from, steps[0])
    && ((steps[0].Clear? && SingleFlights.Alive(from.refreshes, id))
        || OutlivesClear(steps[1..], Do(from, steps[0], discover, configured), id, discover, configured))
  }

  /** The refreshes of a run are a run of their own. */
  lemma {:induction false} RunFlies(steps: seq<Step>, from: State, to: State, discover: bool, configured: seq<string>, a: Id, b: Id)
    returns (flights: seq<SingleFlights.Step>)
    requires Runs(steps, from, to, discover, configured)
    ensures SingleFlights.Runs(flights, from.refreshes, to.refreshes)
    ensures SingleFlights.OutlivesClear(flights, from.refreshes, a) <==> OutlivesClear(steps, from, a, discover, configured)
    ensures SingleFlights.OutlivesClear(flights, from.refreshes, b) <==> OutlivesClear(steps, from, b, discover, configured)
    decreases |steps|
  {
    hide Enabled, Do, Flight, SingleFlights.Do, SingleFlights.Enabled, SingleFlights.Alive;
    if steps == [] {
      flights := [];
    } else {
      StepFlies(from, steps[0], discover, configured);
      var flight := Flight(from, steps[0], discover, configured);
      flights := RunFlies(steps[1..], Do(from, steps[0], discover, configured), to, discover, configured, a, b);
      if flight.Some? {
        var rest := flights;
        flights := [flight.value] + rest;
        assert flights[1..] == rest;
      }
    }
  }

  /** Over every interleaving a live refresh is the one that listings join exactly when no
      `cancel_all` has ended while it was alive; of several live ones all but one have outlived
      one; and at most one fetch of any kind asks upstream at a time. */
  lemma OneRefreshAtATime(steps: seq<Step>, s: State, ttl: real, cooldown: real, now: real, discover: bool, configured: seq<string>, a: Id, b: Id)
    requires Runs(steps, Boot(ttl, cooldown, now), s, discover, configured)
    ensures SingleFlights.Alive(s.refreshes, a) ==>
              (SingleFlights.Found(s.refreshes, a) <==> !OutlivesClear(steps, Boot(ttl, cooldown, now), a, discover, configured))
    ensures SingleFlights.Alive(s.refreshes, a) && SingleFlights.Alive(s.refreshes, b) && a != b ==>
              OutlivesClear(steps, Boot(ttl, cooldown, now), a, discover, configured)
              || OutlivesClear(steps, Boot(ttl, cooldown, now), b, discover, configured)
    ensures a in s.phases && s.phases[a].Fetching? && b in s.phases && s.phases[b].Fetching? ==> a == b
  {
    var boot := Boot(ttl, cooldown, now);
    RunKeeps(steps, boot, s, discover, configured);
    var flights := RunFlies(steps, boot, s, discover, configured, a, b);
    hide Runs, OutlivesClear, SingleFlights.Runs, SingleFlights.OutlivesClear, SingleFlights.Inv;
    if SingleFlights.Alive(s.refreshes, a) {
      SingleFlights.FoundExactlyWhen(flights, s.refreshes, a, a);
      if SingleFlights.Alive(s.refreshes, b) && a != b {
        SingleFlights.OneLiveTaskPerKey(flights, s.refreshes, a, b);
      }
    }
  }

  lemma {:induction false} AbsentMeans(configured: seq<string>, listed: set<string>, folded: set<string>, id: string)
    ensures id in Absent(configured, listed, folded) <==> id in configured && id !in listed && id !in folded
    decreases |configured|
  {
    if configured != [] {
      AbsentMeans(configured[..|configured| - 1], listed, folded, id);
    }
  }

  lemma {:induction false} AbsentApp(a: seq<string>, b: seq<string>, listed: set<string>, folded: set<string>)
    ensures Absent(a + b, listed, folded) == Absent(a, listed, folded) + Absent(b, listed, folded)
    decreases |b|
  {
    if b == [] {
      assert a + b == a;
    } else {
      assert (a + b)[..|a + b| - 1] == a + b[..|b| - 1];
      AbsentApp(a, b[..|b| - 1], listed, folded);
    }
  }

  /** The listing holds every translated entry, every configured model that was not folded into
      its text-driven half, and nothing else. */
  lemma ListingIsUnion(t: Translation, configured: seq<string>, id: string)
    ensures id in Listed(t, configured) <==> id in t.entries || (id in configured && id !in t.routes.Values)
    ensures t.entries <= Listed(t, configured)
  {
    AbsentMeans(configured, IdsOf(t.entries), t.routes.Values, id);
  }

  /** The models added back stand behind the entries in their configured order: those of the front
      of the list before those of its back. */
  lemma AddedInOrder(t: Translation, a: seq<string>, b: seq<string>)
    ensures Listed(t, a + b) == Listed(t, a) + Listed(t, b)[|t.entries|..]
  {
    AbsentApp(a, b, IdsOf(t.entries), t.routes.Values);
  }

  /** What a listing answers without waiting: the configured models while the key is rejected,
      else what was published last, however old, as long as caching is on. */
  lemma ListingAnswers(steps: seq<Step>, s: State, ttl: real, cooldown: real, now: real, discover: bool, configured: seq<string>)
    requires Runs(steps, Boot(ttl, cooldown, now), s, discover, configured)
    ensures var a := AnswerNow(s, discover, configured);
            && (!discover || s.authFailed ==> a == Some(configured))
            && (discover && !s.authFailed && ttl > 0.0 && s.published != [] ==>
                  a == Some(Listed(s.published[|s.published| - 1], configured)))
            && (discover && !s.authFailed && (ttl <= 0.0 || s.published == []) ==> a.None?)
  {
    RunKeeps(steps, Boot(ttl, cooldown, now), s, discover, configured);
    TtlRun(steps, Boot(ttl, cooldown, now), s, discover, configured);
  }

  predicate FullTtl(s: State) {
    s.cache.storedTtl == s.cache.ttl
  }

  lemma {:induction false} TtlRun(steps: seq<Step>, from: State, to: State, discover: bool, configured: seq<string>)
    requires Runs(steps, from, to, discover, configured) && FullTtl(from)
    ensures FullTtl(to) && to.cache.ttl == from.cache.ttl
    decreases |steps|
  {
    hide Fresh, PendingFailure, Stale, SingleFlights.Do, SingleFlights.Enabled, Listed;
    if steps != [] {
      TtlRun(steps[1..], Do(from, steps[0], discover, configured), to, discover, configured);
    }
  }

  // ----- When a refresh starts -----

  /** What the clock shows after some steps. */
  function Clock(steps: seq<Step>, start: real): real {
    if steps == [] then start
    else if steps[|steps| - 1].Wait? then steps[|steps| - 1].until
    else Clock(steps[..|steps| - 1], start)
  }

  predicate Stores(step: Step) {
    step.Ends? && step.outcome.Got? && step.outcome.t.entries != []
  }

  /** Upstream failed, or listed nothing that can be served. A rejected key is no such failure. */
  predicate Fails(step: Step) {
    step.Ends? && (step.outcome.Errored? || (step.outcome.Got? && step.outcome.t.entries == []))
  }

  /** When a listing was last stored. */
  function StoredAt(steps: seq<Step>, start: real): Option<real> {
    if steps == [] then None
    else if Stores(steps[|steps| - 1]) then Some(Clock(steps, start))
    else StoredAt(steps[..|steps| - 1], start)
  }

  /** When a fetch last failed since, and whether with a credential error. */
  function FailedAt(steps: seq<Step>, start: real): Option<(real, bool)> {
    if steps == [] || Stores(steps[|steps| - 1]) then None
    else if Fails(steps[|steps| - 1]) then
      var outcome := steps[|steps| - 1].outcome;
      Some((Clock(steps, start), outcome.Errored? && outcome.error.AuthError?))
    else FailedAt(steps[..|steps| - 1], start)
  }

  /** The key was found rejected, by a fetch or by another request. */
  predicate WasRejected(steps: seq<Step>) {
    exists step :: step in steps && (step.Rejection? || (step.Ends? && step.outcome.Rejected?))
  }

  ghost predicate Recalls(s: State, steps: seq<Step>, start: real) {
    && s.now == Clock(steps, start)
    && (s.authFailed <==> WasRejected(steps))
    && (s.cache.value.Some? <==> StoredAt(steps, start).Some?)
    && s.cache.storedAt == StoredAt(steps, start)
    && (match FailedAt(steps, start)
        case None => s.cache.failure.None? && s.cache.failedAt.None?
        case Some((at, auth)) => s.cache.failedAt == Some(at) && s.cache.failure.Some? && s.cache.failure.value.AuthError? == auth)
  }

  lemma RejectedSnoc(steps: seq<Step>, step: Step)
    ensures WasRejected(steps + [step]) <==> WasRejected(steps) || step.Rejection? || (step.Ends? && step.outcome.Rejected?)
  {
    var all := steps + [step];
    assert forall x :: x in all <==> x in steps || x == step;
  }

  /** What a step adds to the history. */
  lemma HistorySnoc(done: seq<Step>, step: Step, start: real)
    ensures Clock(done + [step], start) == if step.Wait? then step.until else Clock(done, start)
    ensures StoredAt(done + [step], start) == if Stores(step) then Some(Clock(done, start)) else StoredAt(done, start)
    ensures FailedAt(done + [step], start) ==
            if Stores(step) then None
            else if Fails(step) then Some((Clock(done, start), step.outcome.Errored? && step.outcome.error.AuthError?))
            else FailedAt(done, start)
  {
    assert (done + [step])[..|done|] == done;
  }

  /** What it does to the cache, the clock and the verdict on the key. */
  lemma StepRecalls(s: State, step: Step, discover: bool, configured: seq<string>)
    requires Enabled(s, step)
    ensures var s' := Do(s, step, discover, configured);
            && s'.now == (if step.Wait? then step.until else s.now)
            && s'.authFailed == (s.authFailed || step.Rejection? || (step.Ends? && step.outcome.Rejected?))
            && (Stores(step) ==> s'.cache.value.Some? && s'.cache.storedAt == Some(s.now) && s'.cache.failure.None? && s'.cache.failedAt.None?)
            && (Fails(step) ==>
                  && s'.cache.value == s.cache.value && s'.cache.storedAt == s.cache.storedAt && s'.cache.failedAt == Some(s.now)
                  && s'.cache.failure.Some?
                  && s'.cache.failure.value.AuthError? == (step.outcome.Errored? && step.outcome.error.AuthError?))
            && (!Stores(step) && !Fails(step) ==> s'.cache == s.cache)
  {
    hide Fresh, PendingFailure, Stale, SingleFlights.Do, SingleFlights.Enabled, SingleFlights.Alive, Listed;
  }

  lemma RecallsKeeps(s: State, step: Step, done: seq<Step>, start: real, discover: bool, configured: seq<string>)
    requires Recalls(s, done, start) && Enabled(s, step)
    ensures Recalls(Do(s, step, discover, configured), done + [step], start)
  {
    hide Do, Enabled, Clock, StoredAt, FailedAt, WasRejected, Stores, Fails;
    HistorySnoc(done, step, start);
    RejectedSnoc(done, step);
    StepRecalls(s, step, discover, configured);
  }

  lemma {:induction false} RunRecalls(steps: seq<Step>, from: State, to: State, done: seq<Step>, start: real, discover: bool, configured: seq<string>)
    requires Runs(steps, from, to, discover, configured) && Recalls(from, done, start)
    ensures Recalls(to, done + steps, start)
    ensures to.cache.cooldown == from.cache.cooldown
    decreases |steps|
  {
    hide Recalls, Fresh, PendingFailure, Stale, SingleFlights.Do, SingleFlights.Enabled, Listed;
    if steps == [] {
      assert done + steps == done;
    } else {
      assert done + steps == done + [steps[0]] + steps[1..];
      RecallsKeeps(from, steps[0], done, start, discover, configured);
      RunRecalls(steps[1..], Do(from, steps[0], discover, configured), to, done + [steps[0]], start, discover, configured);
    }
  }

  lemma BootRecalls(steps: seq<Step>, s: State, ttl: real, cooldown: real, now: real, discover: bool, configured: seq<string>)
    requires Runs(steps, Boot(ttl, cooldown, now), s, discover, configured)
    ensures Recalls(s, steps, now) && s.cache.ttl == s.cache.storedTtl == ttl && s.cache.cooldown == cooldown
    ensures s.published == [] <==> StoredAt(steps, now).None?
  {
    var boot := Boot(ttl, cooldown, now);
    assert Recalls(boot, [], now);
    assert [] + steps == steps;
    RunRecalls(steps, boot, s, [], now, discover, configured);
    TtlRun(steps, boot, s, discover, configured);
    RunKeeps(steps, boot, s, discover, configured);
    hide Runs, Clock, StoredAt, FailedAt, WasRejected, Listed;
  }

  /** How long a failure keeps fetches away. */
  function RetryAfter(failed: (real, bool), cooldown: real): real {
    if failed.1 && cooldown < 300.0 then 300.0 else cooldown
  }

  /** A failure that is still held against a fetch. */
  predicate Barred(failed: Option<(real, bool)>, cooldown: real, now: real) {
    failed.Some? && cooldown > 0.0 && now < failed.value.0 + RetryAfter(failed.value, cooldown)
  }

  /** What a listing sets off, after any run. While the key is rejected, nothing. With nothing
      stored, or caching off, a fetch that its caller waits for. Else a background refresh,
      exactly when none is under way, the last listing was stored at least the TTL ago and no
      failure since then is held against it. */
  lemma ListingRefreshesExactlyWhen(steps: seq<Step>, s: State, ttl: real, cooldown: real, now: real, discover: bool,
                                    configured: seq<string>, id: Id)
    requires Runs(steps, Boot(ttl, cooldown, now), s, discover, configured) && Enabled(s, List(id))
    ensures var s' := Do(s, List(id), discover, configured);
            var stored, failed, clock := StoredAt(steps, now), FailedAt(steps, now), Clock(steps, now);
            if !discover || WasRejected(steps) then s' == s
            else if stored.None? || ttl <= 0.0 then s' == s.(phases := s.phases[id := ForLock])
            else if CATALOG_KEY !in s.refreshes.byKey && clock >= stored.value + ttl && !Barred(failed, cooldown, clock) then
              && s'.refreshes.byKey == s.refreshes.byKey[CATALOG_KEY := id] && SingleFlights.Alive(s'.refreshes, id)
              && s'.phases == s.phases[id := ForLock]
            else s'.refreshes == s.refreshes && s'.phases == s.phases
  {
    BootRecalls(steps, s, ttl, cooldown, now, discover, configured);
    RunKeeps(steps, Boot(ttl, cooldown, now), s, discover, configured);
    hide Runs, Clock, StoredAt, FailedAt, WasRejected, Listed;
  }

  /** Whether a fetch that has the lock asks upstream: exactly when no listing younger than the
      TTL is stored and no failure since is held against it. */
  lemma AsksExactlyWhen(steps: seq<Step>, s: State, ttl: real, cooldown: real, now: real, discover: bool, configured: seq<string>, id: Id)
    requires Runs(steps, Boot(ttl, cooldown, now), s, discover, configured) && Enabled(s, TakeLock(id))
    ensures var s' := Do(s, TakeLock(id), discover, configured);
            var stored, failed, clock := StoredAt(steps, now), FailedAt(steps, now), Clock(steps, now);
            var young := stored.Some? && clock < stored.value + ttl;
            && id in s'.phases
            && s'.phases[id] == (if young || Barred(failed, cooldown, clock) then Phase.Over else Fetching)
            && s'.lock == if young || Barred(failed, cooldown, clock) then None else Some(id)
  {
    BootRecalls(steps, s, ttl, cooldown, now, discover, configured);
    ClockMoves(steps, Boot(ttl, cooldown, now), s, discover, configured);
    hide Runs, Clock, StoredAt, FailedAt, WasRejected, Listed;
  }

  /** Nothing is stored in the future. */
  lemma {:induction false} ClockMoves(steps: seq<Step>, from: State, to: State, discover: bool, configured: seq<string>)
    requires Runs(steps, from, to, discover, configured) && (from.cache.storedAt.Some? ==> from.cache.storedAt.value <= from.now)
    ensures to.cache.storedAt.Some? ==> to.cache.storedAt.value <= to.now
    decreases |steps|
  {
    hide Fresh, PendingFailure, Stale, SingleFlights.Do, SingleFlights.Enabled, Listed;
    if steps != [] {
      ClockMoves(steps[1..], Do(from, steps[0], discover, configured), to, discover, configured);
    }
  }
}
