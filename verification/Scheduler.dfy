/** The bounded pool of video jobs (`infra/tasks.py`, `TaskScheduler` and `Reservation`) and the
    way `POST /v1/videos` claims a slot of it (`api/videos.py`).

    A request reserves a slot, waits at any number of suspension points while it holds the
    reservation, and either hands the slot to a submitted task or gives it back. A task stays
    counted until its done-callback runs. */
module Scheduler {
  import opened Options

  /** A request, and the one task it may submit. */
  type Id = nat

  datatype TaskStage = Waiting | Holding | Over      // for a permit; with one; done, callback pending

  datatype Info = Info(name: Option<string>, stage: TaskStage)

  /** `_reserved`, `_tasks`, `_tasks_by_name` and the semaphore's free permits. */
  datatype Pool = Pool(reserved: int, tasks: map<Id, Info>, byName: map<string, Id>, free: int)

  function InFlight(p: Pool): int {
    |p.tasks| + p.reserved
  }

  predicate HasRoom(p: Pool, capacity: int) {
    InFlight(p) < capacity
  }

  function Reserved(p: Pool): Pool {
    p.(reserved := p.reserved + 1)
  }

  function Released(p: Pool): Pool {
    p.(reserved := p.reserved - 1)
  }

  function Submitted(p: Pool, t: Id, name: Option<string>): Pool {
    p.(tasks := p.tasks[t := Info(name, Waiting)], byName := if name.Some? then p.byName[name.value := t] else p.byName)
  }

  function Permitted(p: Pool, t: Id): Pool
    requires t in p.tasks
  {
    p.(tasks := p.tasks[t := p.tasks[t].(stage := Holding)], free := p.free - 1)
  }

  /** The end of `_runner`, however it ends: the permit goes back if there was one. */
  function Finished(p: Pool, t: Id): Pool
    requires t in p.tasks
  {
    p.(tasks := p.tasks[t := p.tasks[t].(stage := Over)], free := if p.tasks[t].stage.Holding? then p.free + 1 else p.free)
  }

  /** `_cleanup`: the name goes only if it still stands for this task. */
  function Cleaned(p: Pool, t: Id): Pool
    requires t in p.tasks
  {
    var name := p.tasks[t].name;
    p.(tasks := p.tasks - {t},
       byName := if name.Some? && name.value in p.byName && p.byName[name.value] == t then p.byName - {name.value} else p.byName)
  }

  predicate Cancellable(p: Pool, name: string) {
    name in p.byName && p.byName[name] in p.tasks && !p.tasks[p.byName[name]].stage.Over?
  }

  class TaskScheduler {
    const maxConcurrent: int
    var reserved: int
    var tasks: map<Id, Info>
    var byName: map<string, Id>
    var free: int

    ghost function View(): Pool
      reads this
    {
      Pool(reserved, tasks, byName, free)
    }

    constructor (maxConcurrent: int)
      requires maxConcurrent >= 1
      ensures this.maxConcurrent == maxConcurrent && View() == Pool(0, map[], map[], maxConcurrent)
    {
      this.maxConcurrent := maxConcurrent;
      reserved, tasks, byName, free := 0, map[], map[], maxConcurrent;
    }

    /** `None` stands for `SchedulerFull`. */
    method Reserve(capacity: int) returns (slot: Option<Reservation>)
      modifies this
      ensures slot.Some? <==> HasRoom(old(View()), capacity)
      ensures slot.Some? ==> fresh(slot.value) && slot.value.scheduler == this && View() == Reserved(old(View()))
      ensures slot.None? ==> View() == old(View())
    {
      if |tasks| + reserved >= capacity {
        return None;
      }
      reserved := reserved + 1;
      var r := new Reservation(this);
      slot := Some(r);
    }

    method ReleaseReservation()
      modifies this
      ensures View() == Released(old(View()))
    {
      reserved := reserved - 1;
    }

    method Submit(t: Id, name: Option<string>)
      modifies this
      ensures View() == Submitted(old(View()), t, name)
    {
      tasks := tasks[t := Info(name, Waiting)];
      if name.Some? {
        byName := byName[name.value := t];
      }
    }

    /** `await self._sem.acquire()`, once there is a permit. */
    method AcquirePermit(t: Id)
      requires t in tasks && free > 0
      modifies this
      ensures View() == Permitted(old(View()), t)
    {
      free := free - 1;
      tasks := tasks[t := tasks[t].(stage := Holding)];
    }

    /** `_runner` is over; its `finally` releases the permit if it was acquired. */
    method Finish(t: Id)
      requires t in tasks
      modifies this
      ensures View() == Finished(old(View()), t)
    {
      if tasks[t].stage.Holding? {
        free := free + 1;
      }
      tasks := tasks[t := tasks[t].(stage := Over)];
    }

    /** `_cleanup`, the done-callback. */
    method Cleanup(t: Id)
      requires t in tasks
      modifies this
      ensures View() == Cleaned(old(View()), t)
    {
      var name := tasks[t].name;
      tasks := tasks - {t};
      if name.Some? && name.value in byName && byName[name.value] == t {
        byName := byName - {name.value};
      }
    }

    method Cancel(name: string) returns (asked: Option<Id>)
      ensures asked.Some? <==> Cancellable(View(), name)
      ensures asked.Some? ==> asked.value in tasks && asked == Some(byName[name])
    {
      if name !in byName || byName[name] !in tasks || tasks[byName[name]].stage.Over? {
        return None;
      }
      asked := Some(byName[name]);
    }
  }

  class Reservation {
    var scheduler: TaskScheduler?

    constructor (scheduler: TaskScheduler)
      ensures this.scheduler == scheduler
    {
      this.scheduler := scheduler;
    }

    /** `__exit__` gives the slot back once, however often it is left. */
    method Exit()
      modifies this, scheduler
      ensures scheduler == null
      ensures old(scheduler) != null ==> old(scheduler).View() == Released(old(scheduler.View()))
    {
      if scheduler != null {
        scheduler.ReleaseReservation();
        scheduler := null;
      }
    }
  }

  // ----- Requests -----

  datatype Phase = Inside | Handed | Refused | Left

  /** `latest` remembers the last task submitted under each name. */
  datatype State = State(pool: Pool, requests: map<Id, Phase>, latest: map<string, Id>)

  datatype Step =
    | Arrive(r: Id)
    | Abort(r: Id)                               // an error or a cancellation before the submit
    | HandOver(r: Id, name: Option<string>)      // submit, and the way out of `with slot`
    | GetPermit(r: Id)
    | Finish(r: Id)                              // returned, raised, timed out or cancelled
    | Cleanup(r: Id)

  predicate Enabled(s: State, step: Step) {
    match step
    case Arrive(r) => r !in s.requests
    case Abort(r) => r in s.requests && s.requests[r].Inside?
    case HandOver(r, _) => r in s.requests && s.requests[r].Inside?
    case GetPermit(r) => r in s.pool.tasks && s.pool.tasks[r].stage.Waiting? && s.pool.free > 0
    case Finish(r) => r in s.pool.tasks && !s.pool.tasks[r].stage.Over?
    case Cleanup(r) => r in s.pool.tasks && s.pool.tasks[r].stage.Over?
  }

  function Do(s: State, step: Step, capacity: int): State
    requires Enabled(s, step)
  {
    match step
    case Arrive(r) =>
      if HasRoom(s.pool, capacity) then s.(pool := Reserved(s.pool), requests := s.requests[r := Inside])
      else s.(requests := s.requests[r := Refused])
    case Abort(r) => s.(pool := Released(s.pool), requests := s.requests[r := Left])
    case HandOver(r, name) =>
      State(Released(Submitted(s.pool, r, name)), s.requests[r := Handed],
            if name.Some? then s.latest[name.value := r] else s.latest)
    case GetPermit(r) => s.(pool := Permitted(s.pool, r))
    case Finish(r) => s.(pool := Finished(s.pool, r))
    case Cleanup(r) => s.(pool := Cleaned(s.pool, r))
  }

  function Start(maxConcurrent: int): State {
    State(Pool(0, map[], map[], maxConcurrent), map[], map[])
  }

  function Claims(s: State): set<Id> {
    set r | r in s.requests && s.requests[r].Inside?
  }

  function WithPermit(p: Pool): set<Id> {
    set t | t in p.tasks && p.tasks[t].stage.Holding?
  }

  /** Who holds a slot: a reservation, or a tracked task. */
  function Holders(s: State): set<Id> {
    Claims(s) + s.pool.tasks.Keys
  }

  predicate Holds(s: State, r: Id) {
    (r in s.requests && s.requests[r].Inside?) || r in s.pool.tasks
  }

  ghost predicate Counted(s: State, maxConcurrent: int, maxQueued: nat) {
    && s.pool.reserved == |Claims(s)|
    && Claims(s) !! s.pool.tasks.Keys
    && InFlight(s.pool) <= maxConcurrent + maxQueued
    && s.pool.free >= 0 && s.pool.free + |WithPermit(s.pool)| == maxConcurrent
  }

  /** Tasks, and the tasks names were last given to, were handed over by their requests. */
  ghost predicate HandedOver(s: State) {
    && (forall t :: t in s.pool.tasks ==> t in s.requests && s.requests[t].Handed?)
    && (forall n :: n in s.latest ==> s.latest[n] in s.requests && s.requests[s.latest[n]].Handed?)
    && (forall t :: t in s.pool.tasks && s.pool.tasks[t].name.Some? ==> s.pool.tasks[t].name.value in s.latest)
  }

  /** A name points at the last task given it, while that is tracked. */
  ghost predicate Pointed(s: State) {
    && (forall n :: n in s.pool.byName <==> n in s.latest && s.latest[n] in s.pool.tasks)
    && (forall n :: n in s.pool.byName ==> s.pool.byName[n] == s.latest[n] && s.pool.tasks[s.latest[n]].name == Some(n))
  }

  ghost predicate Named(s: State) {
    HandedOver(s) && Pointed(s)
  }

  ghost predicate Inv(s: State, maxConcurrent: int, maxQueued: nat) {
    Counted(s, maxConcurrent, maxQueued) && Named(s)
  }

  lemma HandedOverKeeps(s: State, step: Step, capacity: int)
    requires HandedOver(s) && Enabled(s, step)
    ensures HandedOver(Do(s, step, capacity))
  {
    hide HasRoom;
  }

  lemma HandOverPoints(s: State, r: Id, name: Option<string>, capacity: int)
    requires HandedOver(s) && Pointed(s) && Enabled(s, HandOver(r, name))
    ensures Pointed(Do(s, HandOver(r, name), capacity))
  {
    assert r !in s.pool.tasks;
    assert forall n :: n in s.latest ==> s.latest[n] != r;
    hide HandedOver, HasRoom;
  }

  lemma CleanupPoints(s: State, r: Id, capacity: int)
    requires HandedOver(s) && Pointed(s) && Enabled(s, Cleanup(r))
    ensures Pointed(Do(s, Cleanup(r), capacity))
  {
    hide HandedOver, HasRoom;
  }

  lemma NamedKeeps(s: State, step: Step, capacity: int)
    requires Named(s) && Enabled(s, step)
    ensures Named(Do(s, step, capacity))
  {
    HandedOverKeeps(s, step, capacity);
    if step.HandOver? {
      HandOverPoints(s, step.r, step.name, capacity);
      hide HandedOver, Pointed, Do, Enabled;
    } else if step.Cleanup? {
      CleanupPoints(s, step.r, capacity);
      hide HandedOver, Pointed, Do, Enabled;
    } else {
      hide HandedOver, HasRoom;
    }
  }

  lemma OneOut(a: set<Id>, b: set<Id>, x: Id)
    requires x in a && b == a - {x}
    ensures |b| == |a| - 1
  {
  }

  lemma OneIn(a: set<Id>, b: set<Id>, x: Id)
    requires x !in a && b == a + {x}
    ensures |b| == |a| + 1
  {
  }

  lemma ReserveSets(s: State, r: Id, capacity: int)
    requires Named(s) && Enabled(s, Arrive(r))
    ensures var s' := Do(s, Arrive(r), capacity);
            && r !in Claims(s) && r !in s.pool.tasks.Keys
            && Claims(s') == (if HasRoom(s.pool, capacity) then Claims(s) + {r} else Claims(s))
  {
    hide HasRoom, InFlight;
  }

  lemma ReserveKeeps(s: State, r: Id, maxConcurrent: int, maxQueued: nat)
    requires Inv(s, maxConcurrent, maxQueued) && Enabled(s, Arrive(r))
    ensures Counted(Do(s, Arrive(r), maxConcurrent + maxQueued), maxConcurrent, maxQueued)
  {
    ReserveSets(s, r, maxConcurrent + maxQueued);
    hide Named, WithPermit, Claims;
    if HasRoom(s.pool, maxConcurrent + maxQueued) {
      OneIn(Claims(s), Claims(Do(s, Arrive(r), maxConcurrent + maxQueued)), r);
    }
  }

  lemma ClaimSets(s: State, step: Step, capacity: int)
    requires Enabled(s, step) && (step.Abort? || step.HandOver?) && Claims(s) !! s.pool.tasks.Keys
    ensures var s' := Do(s, step, capacity);
            && step.r in Claims(s) && Claims(s') == Claims(s) - {step.r} && WithPermit(s'.pool) == WithPermit(s.pool)
            && (step.HandOver? ==> step.r !in s.pool.tasks && s'.pool.tasks.Keys == s.pool.tasks.Keys + {step.r})
            && (step.Abort? ==> s'.pool.tasks == s.pool.tasks)
  {
    assert step.r in Claims(s);
  }

  lemma ClaimEnds(s: State, step: Step, maxConcurrent: int, maxQueued: nat)
    requires Counted(s, maxConcurrent, maxQueued) && Enabled(s, step) && (step.Abort? || step.HandOver?)
    ensures Counted(Do(s, step, maxConcurrent + maxQueued), maxConcurrent, maxQueued)
  {
    ClaimSets(s, step, maxConcurrent + maxQueued);
    hide WithPermit, Claims;
    var s' := Do(s, step, maxConcurrent + maxQueued);
    OneOut(Claims(s), Claims(s'), step.r);
    assert |s'.pool.tasks| == |s'.pool.tasks.Keys| && |s.pool.tasks| == |s.pool.tasks.Keys|;
  }

  lemma PermitSets(s: State, step: Step, capacity: int)
    requires Enabled(s, step) && (step.GetPermit? || step.Finish?)
    ensures var s' := Do(s, step, capacity);
            && Claims(s') == Claims(s) && s'.pool.tasks.Keys == s.pool.tasks.Keys
            && (step.GetPermit? ==> step.r !in WithPermit(s.pool) && WithPermit(s'.pool) == WithPermit(s.pool) + {step.r})
            && (step.Finish? && s.pool.tasks[step.r].stage.Holding? ==>
                  step.r in WithPermit(s.pool) && WithPermit(s'.pool) == WithPermit(s.pool) - {step.r})
            && (step.Finish? && !s.pool.tasks[step.r].stage.Holding? ==> WithPermit(s'.pool) == WithPermit(s.pool))
  {
  }

  lemma PermitKeeps(s: State, step: Step, maxConcurrent: int, maxQueued: nat)
    requires Counted(s, maxConcurrent, maxQueued) && Enabled(s, step) && (step.GetPermit? || step.Finish?)
    ensures Counted(Do(s, step, maxConcurrent + maxQueued), maxConcurrent, maxQueued)
  {
    PermitSets(s, step, maxConcurrent + maxQueued);
    hide WithPermit, Claims;
    var s' := Do(s, step, maxConcurrent + maxQueued);
    assert |s'.pool.tasks| == |s'.pool.tasks.Keys| && |s.pool.tasks| == |s.pool.tasks.Keys|;
    if step.Finish? && s.pool.tasks[step.r].stage.Holding? {
      OneOut(WithPermit(s.pool), WithPermit(s'.pool), step.r);
    }
  }

  lemma CleanupKeeps(s: State, r: Id, maxConcurrent: int, maxQueued: nat)
    requires Inv(s, maxConcurrent, maxQueued) && Enabled(s, Cleanup(r))
    ensures Counted(Do(s, Cleanup(r), maxConcurrent + maxQueued), maxConcurrent, maxQueued)
  {
    var s' := Do(s, Cleanup(r), maxConcurrent + maxQueued);
    assert Claims(s') == Claims(s);
    assert s'.pool.tasks.Keys == s.pool.tasks.Keys - {r};
    OneOut(s.pool.tasks.Keys, s'.pool.tasks.Keys, r);
    assert WithPermit(s'.pool) == WithPermit(s.pool);
  }

  lemma StepKeeps(s: State, step: Step, maxConcurrent: int, maxQueued: nat)
    requires Inv(s, maxConcurrent, maxQueued) && Enabled(s, step)
    ensures Inv(Do(s, step, maxConcurrent + maxQueued), maxConcurrent, maxQueued)
  {
    NamedKeeps(s, step, maxConcurrent + maxQueued);
    hide Counted, Named, Do, Enabled;
    match step
    case Arrive(r) => ReserveKeeps(s, r, maxConcurrent, maxQueued);
    case Abort(_) => ClaimEnds(s, step, maxConcurrent, maxQueued);
    case HandOver(_, _) => ClaimEnds(s, step, maxConcurrent, maxQueued);
    case GetPermit(_) => PermitKeeps(s, step, maxConcurrent, maxQueued);
    case Finish(_) => PermitKeeps(s, step, maxConcurrent, maxQueued);
    case Cleanup(r) => CleanupKeeps(s, r, maxConcurrent, maxQueued);
  }
}
