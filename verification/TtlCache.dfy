/** The single-value cache in front of every upstream catalogue (`util/cache.py`). Times are
    readings of one non-decreasing clock, in seconds. */
module TtlCache {
  import opened Durations
  import opened Options

  /** `UpstreamAuthError`, and every other exception. */
  datatype Error = AuthError(message: string) | OtherError(message: string)

  const AUTH_FAILURE_COOLDOWN := 300.0

  datatype Cache<T> = Cache(
    ttl: real,
    cooldown: real,
    value: Option<T>,
    storedAt: Option<real>,
    storedTtl: real,
    failure: Option<Error>,
    failedAt: Option<real>)

  function Max(a: real, b: real): real {
    if a < b then b else a
  }

  function Empty<T>(ttl: real, cooldown: real): Cache<T> {
    Cache(ttl, cooldown, None, None, ttl, None, None)
  }

  function Fresh<T>(c: Cache<T>, now: real): Option<T> {
    if c.value.None? || c.storedAt.None? || c.storedTtl <= 0.0 || now - c.storedAt.value >= c.storedTtl then None else c.value
  }

  function Stale<T>(c: Cache<T>): Option<T> {
    if c.storedTtl <= 0.0 then None else c.value
  }

  function Stored<T>(c: Cache<T>, v: T, override: Option<real>, now: real): Cache<T> {
    Cache(c.ttl, c.cooldown, Some(v), Some(now), Min(if override.None? then c.ttl else override.value, c.ttl), None, None)
  }

  function Noted<T>(c: Cache<T>, e: Error, now: real): Cache<T> {
    c.(failure := Some(e), failedAt := Some(now))
  }

  function CooldownFor<T>(c: Cache<T>, e: Error): real {
    if e.AuthError? then Max(c.cooldown, AUTH_FAILURE_COOLDOWN) else c.cooldown
  }

  function PendingFailure<T>(c: Cache<T>, now: real): Option<Error> {
    if c.failure.None? || c.failedAt.None? || c.cooldown <= 0.0 || now - c.failedAt.value >= CooldownFor(c, c.failure.value)
    then None else c.failure
  }

  /** How a fetch ends. `Dropped` is a cancellation, or an error of `ttl_for`. */
  datatype Fetch<T> = Fetched(value: T, override: Option<real>) | Failed(error: Error) | Dropped

  datatype Answer<T> = Cached(value: T) | Remembered(error: Error) | Asked(fetch: Fetch<T>)

  function Settled<T>(c: Cache<T>, f: Fetch<T>, now: real): Cache<T> {
    match f
    case Fetched(v, override) => Stored(c, v, override, now)
    case Failed(e) => Noted(c, e, now)
    case Dropped => c
  }

  class AsyncTTLCache<T> {
    const ttl: real
    const cooldown: real
    var value: Option<T>
    var storedAt: Option<real>
    var storedTtl: real
    var failure: Option<Error>
    var failedAt: Option<real>

    ghost function View(): Cache<T>
      reads this
    {
      Cache(ttl, cooldown, value, storedAt, storedTtl, failure, failedAt)
    }

    constructor (ttl: real, cooldown: real)
      ensures View() == Empty(ttl, cooldown)
    {
      this.ttl, this.cooldown := ttl, cooldown;
      value, storedAt, storedTtl, failure, failedAt := None, None, ttl, None, None;
    }

    method Store(v: T, override: Option<real>, now: real)
      modifies this
      ensures View() == Stored(old(View()), v, override, now)
    {
      var requested := if override.None? then ttl else override.value;
      value := Some(v);
      storedAt := Some(now);
      storedTtl := Min(requested, ttl);
      failure := None;
      failedAt := None;
    }

    method NoteFailure(e: Error, now: real)
      modifies this
      ensures View() == Noted(old(View()), e, now)
    {
      failure := Some(e);
      failedAt := Some(now);
    }

    method IsFresh(now: real) returns (r: Option<T>)
      ensures r == Fresh(View(), now)
    {
      if value.None? || storedAt.None? {
        return None;
      }
      if storedTtl <= 0.0 || now - storedAt.value >= storedTtl {
        return None;
      }
      r := value;
    }

    method IsStale() returns (r: Option<T>)
      ensures r == Stale(View())
    {
      if storedTtl <= 0.0 {
        return None;
      }
      r := value;
    }

    method Pending(now: real) returns (r: Option<Error>)
      ensures r == PendingFailure(View(), now)
    {
      if failure.None? || failedAt.None? || cooldown <= 0.0 {
        return None;
      }
      var window := if failure.value.AuthError? then Max(cooldown, AUTH_FAILURE_COOLDOWN) else cooldown;
      if now - failedAt.value >= window {
        return None;
      }
      r := failure;
    }

    /** `get`, from the lock's acquisition to its release: it asks upstream only when there is
        neither a fresh value nor a failure to remember, and `fetch` is what that would bring. */
    method Get(now: real, fetch: Fetch<T>, later: real) returns (a: Answer<T>)
      modifies this
      ensures a.Asked? <==> Fresh(old(View()), now).None? && PendingFailure(old(View()), now).None?
      ensures a.Cached? ==> Fresh(old(View()), now) == Some(a.value)
      ensures a.Remembered? ==> PendingFailure(old(View()), now) == Some(a.error)
      ensures View() == if a.Asked? then Settled(old(View()), fetch, later) else old(View())
      ensures a.Asked? ==> a.fetch == fetch
    {
      var cached := IsFresh(now);
      if cached.Some? {
        return Cached(cached.value);
      }
      var recent := Pending(now);
      if recent.Some? {
        return Remembered(recent.value);
      }
      match fetch {
        case Fetched(v, override) => Store(v, override, later);
        case Failed(e) => NoteFailure(e, later);
        case Dropped =>
      }
      a := Asked(fetch);
    }
  }

  // ----- Any number of `get` calls at once -----

  datatype Event<T> =
    | Started(at: real)
    | Kept(at: real, ttl: real, value: T)
    | Noticed(at: real, error: Error)
    | GivenUp(at: real)
    | Served(at: real, value: T)
    | Reraised(at: real, error: Error)

  /** `busy` while a fetch runs under the lock. */
  datatype State<T> = State(cache: Cache<T>, now: real, busy: bool, events: seq<Event<T>>)

  datatype Step<T> =
    | Wait(until: real)
    | Enter                        // a caller takes the lock
    | Ends(fetch: Fetch<T>)        // the caller that holds it hears from upstream, or is cancelled

  predicate Enabled<T>(s: State<T>, step: Step<T>) {
    match step
    case Wait(until) => until >= s.now
    case Enter => !s.busy
    case Ends(_) => s.busy
  }

  function EventOf<T>(c: Cache<T>, f: Fetch<T>, now: real): Event<T> {
    match f
    case Fetched(v, override) => Kept(now, Stored(c, v, override, now).storedTtl, v)
    case Failed(e) => Noticed(now, e)
    case Dropped => GivenUp(now)
  }

  function Do<T>(s: State<T>, step: Step<T>): State<T>
    requires Enabled(s, step)
  {
    match step
    case Wait(until) => s.(now := until)
    case Enter =>
      if Fresh(s.cache, s.now).Some? then s.(events := s.events + [Served(s.now, Fresh(s.cache, s.now).value)])
      else if PendingFailure(s.cache, s.now).Some? then s.(events := s.events + [Reraised(s.now, PendingFailure(s.cache, s.now).value)])
      else s.(busy := true, events := s.events + [Started(s.now)])
    case Ends(f) =>
      s.(cache := Settled(s.cache, f, s.now), busy := false, events := s.events + [EventOf(s.cache, f, s.now)])
  }

  function Start<T>(ttl: real, cooldown: real, now: real): State<T> {
    State(Empty(ttl, cooldown), now, false, [])
  }

  /** The time before which an event forbids a fetch to start, if it forbids any. */
  predicate Forbids<T>(c: Cache<T>, e: Event<T>, until: real) {
    || (e.Kept? && e.ttl > 0.0 && until == e.at + e.ttl)
    || (e.Noticed? && c.cooldown > 0.0 && until == e.at + CooldownFor(c, e.error))
  }

  /** No fetch may start at `t`, going by what the cache remembers. */
  predicate Held<T>(c: Cache<T>, t: real) {
    Fresh(c, t).Some? || PendingFailure(c, t).Some?
  }

  /** A bound still to come is one the cache remembers. */
  ghost predicate Remembers<T(!new)>(s: State<T>) {
    forall i, until :: RemembersAt(s, i, until)
  }

  predicate RemembersAt<T>(s: State<T>, i: int, until: real) {
    0 <= i < |s.events| && Forbids(s.cache, s.events[i], until) ==> until <= s.now || (!s.busy && Covers(s.cache, until))
  }

  /** Until `until`, the cache holds every fetch back. */
  predicate Covers<T>(c: Cache<T>, until: real) {
    || (c.value.Some? && c.storedAt.Some? && c.storedTtl > 0.0 && c.storedAt.value + c.storedTtl >= until)
    || (c.failure.Some? && c.failedAt.Some? && c.cooldown > 0.0 && c.failedAt.value + CooldownFor(c, c.failure.value) >= until)
  }

  ghost predicate Spaced<T(!new)>(s: State<T>) {
    forall i, j, until :: 0 <= i < j < |s.events| && s.events[j].Started? && Forbids(s.cache, s.events[i], until) ==>
      s.events[j].at >= until
  }

  /** The last value kept, which is what the cache holds. */
  predicate LastKept<T(==)>(events: seq<Event<T>>, i: nat, v: T, at: real, ttl: real) {
    && i < |events| && events[i].Kept? && events[i].value == v && events[i].at == at && events[i].ttl == ttl
    && forall k :: i < k < |events| ==> !events[k].Kept?
  }

  ghost predicate HoldsLast<T(!new)>(s: State<T>) {
    && (s.cache.value.Some? <==> s.cache.storedAt.Some?)
    && (s.cache.value.Some? ==>
          exists i: nat :: LastKept(s.events, i, s.cache.value.value, s.cache.storedAt.value, s.cache.storedTtl))
    && s.cache.storedTtl <= s.cache.ttl
  }

  /** A served value was kept earlier, and less than its window before. */
  ghost predicate ServedFresh<T(!new)>(events: seq<Event<T>>, j: nat, ttl: real)
    requires j < |events| && events[j].Served?
  {
    exists i: nat, at, window :: LastKept(events[..j], i, events[j].value, at, window) && events[j].at < at + window && window <= ttl
  }

  ghost predicate AllServedFresh<T(!new)>(s: State<T>) {
    forall j :: 0 <= j < |s.events| && s.events[j].Served? ==> ServedFresh(s.events, j, s.cache.ttl)
  }

  predicate SetUp<T>(s: State<T>, ttl: real, cooldown: real) {
    s.cache.ttl == ttl && s.cache.cooldown == cooldown
  }

  ghost predicate Inv<T(!new)>(s: State<T>, ttl: real, cooldown: real) {
    SetUp(s, ttl, cooldown) && Remembers(s) && Spaced(s) && HoldsLast(s) && AllServedFresh(s)
  }

  lemma CoveredIsHeld<T(!new)>(c: Cache<T>, now: real, until: real)
    requires Covers(c, until) && now < until
    ensures Held(c, now)
  {
  }

  lemma RemembersKeeps<T(!new)>(s: State<T>, step: Step<T>)
    requires Remembers(s) && Enabled(s, step)
    ensures Remembers(Do(s, step))
  {
    var s' := Do(s, step);
    forall i, until ensures RemembersAt(s', i, until) {
      assert RemembersAt(s, i, until);
      if 0 <= i < |s.events| && Forbids(s.cache, s.events[i], until) && s.now < until && Covers(s.cache, until) {
        CoveredIsHeld(s.cache, s.now, until);
      }
    }
  }

  lemma SpacedKeeps<T(!new)>(s: State<T>, step: Step<T>)
    requires Remembers(s) && Spaced(s) && Enabled(s, step)
    ensures Spaced(Do(s, step))
  {
    var s' := Do(s, step);
    forall i, j, until | 0 <= i < j < |s'.events| && s'.events[j].Started? && Forbids(s'.cache, s'.events[i], until)
      ensures s'.events[j].at >= until
    {
      assert s'.events[i] == s.events[i] && Forbids(s.cache, s.events[i], until) && RemembersAt(s, i, until);
      if j == |s.events| && s.now < until {
        CoveredIsHeld(s.cache, s.now, until);
      }
    }
  }

  lemma HoldsLastKeeps<T(!new)>(s: State<T>, step: Step<T>)
    requires HoldsLast(s) && Enabled(s, step)
    ensures HoldsLast(Do(s, step))
  {
    var s' := Do(s, step);
    hide Fresh, PendingFailure, CooldownFor;
    if step.Ends? && step.fetch.Fetched? {
      assert LastKept(s'.events, |s.events|, s'.cache.value.value, s'.cache.storedAt.value, s'.cache.storedTtl);
    } else if s.cache.value.Some? {
      var i: nat :| LastKept(s.events, i, s.cache.value.value, s.cache.storedAt.value, s.cache.storedTtl);
      assert LastKept(s'.events, i, s'.cache.value.value, s'.cache.storedAt.value, s'.cache.storedTtl);
    }
  }

  lemma ServedKeeps<T(!new)>(s: State<T>, step: Step<T>)
    requires AllServedFresh(s) && HoldsLast(s) && Enabled(s, step)
    ensures AllServedFresh(Do(s, step))
  {
    var s' := Do(s, step);
    forall j | 0 <= j < |s'.events| && s'.events[j].Served? ensures ServedFresh(s'.events, j, s'.cache.ttl) {
      assert s'.events[..j] == s.events[..j];
      if j < |s.events| {
        assert s'.events[j] == s.events[j] && ServedFresh(s.events, j, s.cache.ttl);
      } else {
        assert s.events[..j] == s.events;
        var i: nat :| LastKept(s.events, i, s.cache.value.value, s.cache.storedAt.value, s.cache.storedTtl);
        assert LastKept(s'.events[..j], i, s'.events[j].value, s.cache.storedAt.value, s.cache.storedTtl);
      }
    }
  }

  lemma StepKeeps<T(!new)>(s: State<T>, step: Step<T>, ttl: real, cooldown: real)
    requires Inv(s, ttl, cooldown) && Enabled(s, step)
    ensures Inv(Do(s, step), ttl, cooldown)
  {
    hide Remembers, Spaced, HoldsLast, AllServedFresh, Fresh, PendingFailure;
    RemembersKeeps(s, step);
    SpacedKeeps(s, step);
    HoldsLastKeeps(s, step);
    ServedKeeps(s, step);
  }

  ghost predicate Runs<T(!new)>(steps: seq<Step<T>>, from: State<T>, to: State<T>)
    decreases |steps|
  {
    if steps == [] then to == from
    else Enabled(from, steps[0]) && Runs(steps[1..], Do(from, steps[0]), to)
  }

  lemma {:induction false} RunKeeps<T(!new)>(steps: seq<Step<T>>, from: State<T>, to: State<T>, ttl: real, cooldown: real)
    requires Runs(steps, from, to) && Inv(from, ttl, cooldown)
    ensures Inv(to, ttl, cooldown)
    decreases |steps|
  {
    hide Inv, Do, Enabled;
    if steps != [] {
      StepKeeps(from, steps[0], ttl, cooldown);
      RunKeeps(steps[1..], Do(from, steps[0]), to, ttl, cooldown);
    }
  }

  /** In any run of concurrent `get` calls, a fetch that starts after a success starts at least
      the stored window later, and one that starts after a remembered failure at least its
      cooldown later: 300 seconds or more when a credential was rejected. */
  lemma FetchesAreSpaced<T(!new)>(steps: seq<Step<T>>, ttl: real, cooldown: real, now: real, s: State<T>, i: nat, j: nat)
    requires Runs(steps, Start(ttl, cooldown, now), s) && i < j < |s.events| && s.events[j].Started?
    ensures s.events[i].Kept? && s.events[i].ttl > 0.0 ==> s.events[j].at >= s.events[i].at + s.events[i].ttl
    ensures s.events[i].Noticed? && cooldown > 0.0 ==> s.events[j].at >= s.events[i].at + cooldown
    ensures s.events[i].Noticed? && s.events[i].error.AuthError? && cooldown > 0.0 ==>
              s.events[j].at >= s.events[i].at + AUTH_FAILURE_COOLDOWN
  {
    RunKeeps(steps, Start(ttl, cooldown, now), s, ttl, cooldown);
    if s.events[i].Kept? && s.events[i].ttl > 0.0 {
      assert Forbids(s.cache, s.events[i], s.events[i].at + s.events[i].ttl);
    }
    if s.events[i].Noticed? && cooldown > 0.0 {
      assert Forbids(s.cache, s.events[i], s.events[i].at + CooldownFor(s.cache, s.events[i].error));
    }
  }

  /** A value served from the cache is the one kept last, and is younger than both the window it
      was kept for and the configured one, whatever overrides were asked for; with caching turned
      off none is ever served. */
  lemma ServedIsYoung<T(!new)>(steps: seq<Step<T>>, ttl: real, cooldown: real, now: real, s: State<T>, j: nat)
    requires Runs(steps, Start(ttl, cooldown, now), s) && j < |s.events| && s.events[j].Served?
    ensures exists i: nat, at, window ::
              && LastKept(s.events[..j], i, s.events[j].value, at, window)
              && at <= s.events[j].at < at + window && window <= ttl
    ensures ttl > 0.0
  {
    RunKeeps(steps, Start(ttl, cooldown, now), s, ttl, cooldown);
    assert ServedFresh(s.events, j, ttl);
    var i: nat, at, window :| LastKept(s.events[..j], i, s.events[j].value, at, window)
      && s.events[j].at < at + window && window <= ttl;
    OrderedRun(steps, Start(ttl, cooldown, now), s);
    assert s.events[i].at == at;
  }

  ghost predicate Ordered<T(!new)>(s: State<T>) {
    && (forall i :: 0 <= i < |s.events| ==> s.events[i].at <= s.now)
    && (forall i, j :: 0 <= i < j < |s.events| ==> s.events[i].at <= s.events[j].at)
  }

  lemma {:induction false} OrderedRun<T(!new)>(steps: seq<Step<T>>, from: State<T>, to: State<T>)
    requires Runs(steps, from, to) && Ordered(from)
    ensures Ordered(to)
    decreases |steps|
  {
    hide Fresh, PendingFailure;
    if steps != [] {
      OrderedRun(steps[1..], Do(from, steps[0]), to);
    }
  }

  /** A fetch under way is the only one: every other caller waits for it to end. */
  ghost predicate OneAtATime<T(!new)>(s: State<T>) {
    && (forall i, j :: 0 <= i < j < |s.events| && s.events[i].Started? && s.events[j].Started? ==>
          exists k :: i < k < j && EndsFetch(s.events[k]))
    && (forall i :: 0 <= i < |s.events| && s.events[i].Started? && !s.busy ==>
          exists k :: i < k < |s.events| && EndsFetch(s.events[k]))
  }

  predicate EndsFetch<T>(e: Event<T>) {
    e.Kept? || e.Noticed? || e.GivenUp?
  }

  lemma OneStep<T(!new)>(s: State<T>, step: Step<T>)
    requires OneAtATime(s) && Enabled(s, step)
    ensures OneAtATime(Do(s, step))
  {
    var s' := Do(s, step);
    hide Fresh, PendingFailure, Stored, Settled;
    forall i, j | 0 <= i < j < |s'.events| && s'.events[i].Started? && s'.events[j].Started?
      ensures exists k :: i < k < j && EndsFetch(s'.events[k])
    {
      assert s'.events[i] == s.events[i];
      if j < |s.events| {
        assert s'.events[j] == s.events[j];
        var k :| i < k < j && EndsFetch(s.events[k]);
        assert EndsFetch(s'.events[k]);
      } else {
        var k :| i < k < |s.events| && EndsFetch(s.events[k]);
        assert EndsFetch(s'.events[k]);
      }
    }
    forall i | 0 <= i < |s'.events| && s'.events[i].Started? && !s'.busy
      ensures exists k :: i < k < |s'.events| && EndsFetch(s'.events[k])
    {
      assert s'.events[i] == s.events[i];
      if s.busy {
        assert EndsFetch(s'.events[|s.events|]);
      } else {
        var k :| i < k < |s.events| && EndsFetch(s.events[k]);
        assert EndsFetch(s'.events[k]);
      }
    }
  }

  /** Between two fetches the first has ended: callers never ask upstream side by side. */
  lemma {:induction false} FetchesNeverOverlap<T(!new)>(steps: seq<Step<T>>, from: State<T>, to: State<T>)
    requires Runs(steps, from, to) && OneAtATime(from)
    ensures OneAtATime(to)
    decreases |steps|
  {
    hide Do, Enabled, OneAtATime;
    if steps != [] {
      OneStep(from, steps[0]);
      FetchesNeverOverlap(steps[1..], Do(from, steps[0]), to);
    }
  }

  /** A cancelled fetch arms neither window: the very next caller fetches again. */
  lemma CancelledArmsNothing<T(!new)>(s: State<T>)
    requires Enabled(s, Enter) && !Held(s.cache, s.now)
    ensures var asked := Do(s, Enter);
            && Enabled(asked, Ends(Dropped))
            && var dropped := Do(asked, Ends(Dropped));
            && dropped.cache == s.cache && Enabled(dropped, Enter)
            && Do(dropped, Enter).events == s.events + [Started(s.now), GivenUp(s.now), Started(s.now)]
  {
  }

  // ----- When a call fetches -----

  /** The last value that was kept, and the last failure since. */
  function LastKeep<T>(events: seq<Event<T>>): (k: Option<Event<T>>)
    ensures k.Some? ==> k.value.Kept?
  {
    if events == [] then None
    else if events[|events| - 1].Kept? then Some(events[|events| - 1])
    else LastKeep(events[..|events| - 1])
  }

  function LastFailure<T>(events: seq<Event<T>>): (f: Option<Event<T>>)
    ensures f.Some? ==> f.value.Noticed?
  {
    if events == [] || events[|events| - 1].Kept? then None
    else if events[|events| - 1].Noticed? then Some(events[|events| - 1])
    else LastFailure(events[..|events| - 1])
  }

  predicate Recalls<T(==)>(c: Cache<T>, events: seq<Event<T>>) {
    && (match LastKeep(events)
        case None => c.value.None? && c.storedAt.None?
        case Some(k) => c.value == Some(k.value) && c.storedAt == Some(k.at) && c.storedTtl == k.ttl)
    && (match LastFailure(events)
        case None => c.failure.None? && c.failedAt.None?
        case Some(f) => c.failure == Some(f.error) && c.failedAt == Some(f.at))
  }

  lemma RecallsKeeps<T(!new)>(s: State<T>, step: Step<T>)
    requires Recalls(s.cache, s.events) && Enabled(s, step)
    ensures Recalls(Do(s, step).cache, Do(s, step).events)
  {
    var s' := Do(s, step);
    if !step.Wait? {
      assert s'.events[..|s.events|] == s.events;
    }
    hide Fresh, PendingFailure;
  }

  lemma {:induction false} RunRecalls<T(!new)>(steps: seq<Step<T>>, from: State<T>, to: State<T>)
    requires Runs(steps, from, to) && Recalls(from.cache, from.events)
    ensures Recalls(to.cache, to.events) && to.cache.ttl == from.cache.ttl && to.cache.cooldown == from.cache.cooldown
    decreases |steps|
  {
    hide Recalls, Fresh, PendingFailure;
    if steps != [] {
      RecallsKeeps(from, steps[0]);
      RunRecalls(steps[1..], Do(from, steps[0]), to);
    }
  }

  /** What a call of `get` comes to, after any run: the last value while its window is open, else
      the last failure since, while its cooldown is, and else a fetch. Nothing else holds a fetch
      back, and no window outlasts the configured time or the override, whichever is less. */
  lemma FetchesExactlyWhen<T(!new)>(steps: seq<Step<T>>, ttl: real, cooldown: real, now: real, s: State<T>)
    requires Runs(steps, Start(ttl, cooldown, now), s) && !s.busy
    ensures var kept, failed := LastKeep(s.events), LastFailure(s.events);
            var young := kept.Some? && kept.value.ttl > 0.0 && s.now < kept.value.at + kept.value.ttl;
            var barred := && failed.Some? && cooldown > 0.0
                          && s.now < failed.value.at + if failed.value.error.AuthError? && cooldown < 300.0 then 300.0 else cooldown;
            Do(s, Enter).events == s.events + [if young then Served(s.now, kept.value.value)
                                               else if barred then Reraised(s.now, failed.value.error)
                                               else Started(s.now)]
  {
    hide LastKeep, LastFailure;
    assert Recalls(Start<T>(ttl, cooldown, now).cache, []) by {
      NothingRecalled<T>();
    }
    RunRecalls(steps, Start(ttl, cooldown, now), s);
  }

  /** The value that may be served however old is, after any run, the last one kept, unless it was
      not to be cached. */
  lemma StaleIsLastKept<T(!new)>(steps: seq<Step<T>>, ttl: real, cooldown: real, now: real, s: State<T>)
    requires Runs(steps, Start(ttl, cooldown, now), s)
    ensures var kept := LastKeep(s.events);
            Stale(s.cache) == if kept.Some? && kept.value.ttl > 0.0 then Some(kept.value.value) else None
  {
    hide LastKeep, LastFailure;
    assert Recalls(Start<T>(ttl, cooldown, now).cache, []) by {
      NothingRecalled<T>();
    }
    RunRecalls(steps, Start(ttl, cooldown, now), s);
  }

  lemma NothingRecalled<T(!new)>()
    ensures LastKeep<T>([]) == None && LastFailure<T>([]) == None
  {
  }

  lemma KeptForTheLesser<T(!new)>(steps: seq<Step<T>>, ttl: real, cooldown: real, now: real, s: State<T>, v: T, override: Option<real>)
    requires Runs(steps, Start(ttl, cooldown, now), s) && s.busy
    ensures Do(s, Ends(Fetched(v, override))).events
            == s.events + [Kept(s.now, if override.Some? && override.value < ttl then override.value else ttl, v)]
  {
    hide LastKeep, LastFailure;
    assert Recalls(Start<T>(ttl, cooldown, now).cache, []) by {
      NothingRecalled<T>();
    }
    RunRecalls(steps, Start(ttl, cooldown, now), s);
  }
}
