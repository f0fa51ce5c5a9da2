/** What the columns of a committed row tell, by the steps of the run that led to it. */
module VideoJobColumns {
  import opened Options
  import opened Tables
  import opened VideoJobs
  import opened VideoJobCommits
  import opened VideoJobRows
  import opened VideoJobRuns
  import opened VideoJobSteps

  import Database

  // ----- The steps behind a row -----

  /** What a step asks of a task: nothing, or to stop. A DELETE that comes back asks the job's
      runner, unless that has ended. */
  function Asks(s: State, step: Step, x: TaskId): Cancel {
    match step
    case RequestCancel(t) => if t == x then ByOthers else Uncancelled
    case DeadlineFires(t, message) => if t == x then ByDeadline(message) else Uncancelled
    case Return(t) =>
      if t in s.tasks && s.tasks[t].point.Deleting? && Runs(s, x, s.tasks[t].job) && x in s.tasks && !s.tasks[x].point.Ended?
      then ByOthers else Uncancelled
    case _ => Uncancelled
  }

  /** The scheduler knows the task by the job's name. */
  predicate Runs(s: State, x: TaskId, job: JobId) {
    job in s.runners && s.runners[job] == x
  }

  /** The last request to stop that was made of the task in the first `n` steps. */
  function LastAsked(states: seq<State>, steps: seq<Step>, n: nat, x: TaskId): Cancel
    requires n <= |steps| && n <= |states|
  {
    if n == 0 then Uncancelled
    else if Asks(states[n - 1], steps[n - 1], x) != Uncancelled then Asks(states[n - 1], steps[n - 1], x)
    else LastAsked(states, steps, n - 1, x)
  }

  /** The render, or a statement of the runner's own, failed with this message. */
  ghost predicate Broke(states: seq<State>, steps: seq<Step>, n: nat, x: TaskId, message: string)
    requires n <= |steps| && n <= |states|
  {
    || RenderFails(x, message) in steps[..n]
    || exists i :: 0 <= i < n && steps[i] == Leave(x, message) && LeftRaising(states[i], x)
  }

  predicate LeftRaising(s: State, x: TaskId) {
    x in s.tasks && s.tasks[x].stage == Undoing(Raised) && !s.tasks[x].point.NotingUpstream?
  }

  /** Step `q` queues the commit of a statement of the task. */
  predicate Commits(steps: seq<Step>, q: nat, x: TaskId) {
    q < |steps| && steps[q] == QueueCommit(x, true)
  }

  /** Why a row failed as it says. Either a DELETE of the job wrote it, or the job's runner, and
      then its message goes by whoever last asked the runner to stop before the write: the
      deadline, somebody else, or nobody. */
  ghost predicate WhyFailed(states: seq<State>, steps: seq<Step>, n: nat, job: JobId, message: string)
    requires n <= |steps| && n <= |states|
  {
    exists q: nat, x: TaskId :: q < n && Commits(steps, q, x) && FailedBy(states, steps, q, x, job, message)
  }

  ghost predicate FailedBy(states: seq<State>, steps: seq<Step>, q: nat, x: TaskId, job: JobId, message: string)
    requires q <= |steps| && q < |states|
  {
    || (DeleteArrives(x, job) in steps[..q] && message == "Cancelled by user")
    || (Runs(states[q], x, job)
        && match LastAsked(states, steps, q, x)
           case ByDeadline(timedOut) => message == timedOut
           case ByOthers => message == "Job cancelled"
           case Uncancelled => Broke(states, steps, q, x, message))
  }

  /** The row was put in progress. */
  ghost predicate WasStarted(log: seq<Statement>, job: JobId) {
    exists now :: UpdateJob(job, NO_PATCH.(status := Some(InProgress)), now) in log
  }

  /** The job's runner, whom nobody asked to stop, put the row in progress, was handed an asset,
      stored it and then queued the commit that says so. */
  ghost predicate CompletedBy(states: seq<State>, steps: seq<Step>, n: nat, job: JobId, f: FileId, rendered: Option<string>)
    requires n <= |steps| && n <= |states|
  {
    exists q: nat, x: TaskId, row: FileRow :: q < n && Commits(steps, q, x) && Finished(states, steps, q, x, job, f, row, rendered)
  }

  ghost predicate Finished(states: seq<State>, steps: seq<Step>, q: nat, x: TaskId, job: JobId, f: FileId, row: FileRow,
                           rendered: Option<string>)
    requires q <= |steps| && q < |states|
  {
    && Runs(states[q], x, job) && LastAsked(states, steps, q, x) == Uncancelled && WasStarted(states[q].log, job)
    && AssetReady(x, f, row, rendered) in steps[..q] && InsertFile(f, row) in states[q].log
  }

  /** A POST drew the job's id and asked for this ratio. */
  ghost predicate Asked(steps: seq<Step>, n: nat, job: JobId, ratio: Option<string>)
    requires n <= |steps|
  {
    exists x :: PostArrives(x, job, ratio) in steps[..n]
  }

  /** The job's runner had its permit. */
  ghost predicate Began(states: seq<State>, steps: seq<Step>, n: nat, job: JobId)
    requires n <= |steps| && n < |states|
  {
    exists x :: Runs(states[n], x, job) && GetPermit(x) in steps[..n]
  }

  ghost predicate Noted(states: seq<State>, steps: seq<Step>, n: nat, job: JobId, upstreamId: string)
    requires n <= |steps| && n < |states|
  {
    exists x :: Runs(states[n], x, job) && NoteUpstream(x, upstreamId) in steps[..n]
  }

  /** All columns but the time stamp. */
  ghost predicate RowTells(states: seq<State>, steps: seq<Step>, n: nat, job: JobId, row: JobRow)
    requires n <= |steps| && n < |states|
  {
    && (row.status.InProgress? ==> Began(states, steps, n, job))
    && (row.status.Failed? ==> row.errorMessage.Some? && WhyFailed(states, steps, n, job, row.errorMessage.value))
    && (row.status.Completed? ==>
          && row.progressPct == Some(100) && row.fileId.Some?
          && CompletedBy(states, steps, n, job, row.fileId.value, row.aspectRatio))
    && (!row.status.Completed? ==> row.progressPct.None? && row.fileId.None? && Asked(steps, n, job, row.aspectRatio))
    && (row.upstreamId.Some? ==> Noted(states, steps, n, job, row.upstreamId.value))
  }

  // ----- What a task carries -----

  /** It has not been stopped, as far as it knows. */
  predicate Calm(a: Task) {
    a.cancel == Uncancelled && !(a.stage.Undoing? && a.stage.outcome.Cancelled?)
  }

  /** Whose request a runner is seeing to. */
  predicate HeardOf(a: Task, asked: Cancel) {
    && (a.cancel != Uncancelled ==> a.cancel == asked)
    && (a.stage.Undoing? && a.stage.outcome.Cancelled? ==> a.stage.outcome.cause != Uncancelled)
    && (a.cancel == Uncancelled && a.stage.Undoing? && a.stage.outcome.Cancelled? ==> a.stage.outcome.cause == asked)
    && (Calm(a) && IsRunner(a.point) ==>
          match a.point
          case MarkingTimedOut(message) => asked == ByDeadline(message)
          case MarkingCancelled => asked == ByOthers
          case _ => asked == Uncancelled)
  }

  ghost predicate Carries(states: seq<State>, steps: seq<Step>, n: nat, x: TaskId, a: Task)
    requires n <= |steps| && n < |states|
  {
    match a.point
    case Creating(ratio) => PostArrives(x, a.job, ratio) in steps[..n]
    case Deleting => DeleteArrives(x, a.job) in steps[..n]
    case Starting => GetPermit(x) in steps[..n] && (a.stage == Committing(true) ==> WasStarted(states[n].log, a.job))
    case Rendering => WasStarted(states[n].log, a.job)
    case NotingUpstream(u) => NoteUpstream(x, u) in steps[..n] && WasStarted(states[n].log, a.job)
    case Storing(f, row, rendered) =>
      && AssetReady(x, f, row, rendered) in steps[..n] && WasStarted(states[n].log, a.job)
      && (a.stage == Committing(true) ==> InsertFile(f, row) in states[n].log)
    case Completing(f, rendered) =>
      && WasStarted(states[n].log, a.job)
      && exists row :: AssetReady(x, f, row, rendered) in steps[..n] && InsertFile(f, row) in states[n].log
    case Failing(message) => Broke(states, steps, n, x, message)
    case _ => true
  }

  ghost predicate AllTold(states: seq<State>, steps: seq<Step>, n: nat)
    requires n <= |steps| && n < |states|
  {
    forall x :: if x in states[n].tasks then TaskTold(states, steps, n, x) else LastAsked(states, steps, n, x) == Uncancelled
  }

  ghost predicate TaskTold(states: seq<State>, steps: seq<Step>, n: nat, x: TaskId)
    requires n <= |steps| && n < |states| && x in states[n].tasks
  {
    HeardOf(states[n].tasks[x], LastAsked(states, steps, n, x)) && Carries(states, steps, n, x, states[n].tasks[x])
  }

  // ----- Requests to stop -----

  /** What a step makes of a task that it does not ask to stop. */
  predicate GoesOn(x: TaskId, a: Task, b: Task, step: Step) {
    b == a || (!step.WorkerTurn? && step.t == x && if a.cancel == Uncancelled then Proceeds(a, b, step) else Stops(a, b, step))
  }

  /** Any other step leaves the tasks but its own alone, and its own with no request open. */
  lemma NoRequest(s: State, step: Step, t0: Tables, x: TaskId)
    requires Enabled(s, step) && x in s.tasks && !step.RequestCancel? && !step.DeadlineFires? && !step.Return?
    requires step.Leave? ==> !s.tasks[step.t].stage.outcome.Returned?
    ensures var s' := Do(s, step, t0);
            && x in s'.tasks
            && (step.WorkerTurn? || step.t != x ==> s'.tasks[x] == s.tasks[x])
            && (!step.WorkerTurn? && step.t == x ==> s'.tasks[x].cancel == Uncancelled)
  {
    hide ApplyAll, StatementAt, IsChore, WritesAt, Next, InRender;
  }

  lemma Request(s: State, step: Step, t0: Tables, x: TaskId)
    requires Enabled(s, step) && x in s.tasks && (step.RequestCancel? || step.DeadlineFires?)
    ensures var s' := Do(s, step, t0);
            x in s'.tasks && s'.tasks[x] == if Asks(s, step, x) != Uncancelled then s.tasks[x].(cancel := Asks(s, step, x)) else s.tasks[x]
  {
  }

  lemma AskedOrGoesOn(s: State, step: Step, t0: Tables, before: set<FileId>, x: TaskId)
    requires Inv(s, t0, before) && Enabled(s, step) && x in s.tasks
    ensures var s' := Do(s, step, t0);
            && x in s'.tasks
            && if Asks(s, step, x) != Uncancelled then s'.tasks[x] == s.tasks[x].(cancel := Asks(s, step, x))
               else GoesOn(x, s.tasks[x], s'.tasks[x], step)
  {
    if step.Return? {
      ReturnAsks(s, step.t, t0, before, x);
    } else if step.RequestCancel? || step.DeadlineFires? {
      Request(s, step, t0, x);
    } else {
      TaskBecomes(s, step, t0, x);
      if step.Leave? {
        TaskOk(s, step.t, t0, before);
      }
      NoRequest(s, step, t0, x);
    }
    hide Do, Inv, Proceeds, Stops;
    assert step.Return? && step.t == x && Asks(s, step, x) == Uncancelled ==> GoesOn(x, s.tasks[x], Do(s, step, t0).tasks[x], step) by {
      ReturnProceeds(s, step, t0, x);
    }
  }

  lemma ReturnProceeds(s: State, step: Step, t0: Tables, x: TaskId)
    requires Enabled(s, step) && x in s.tasks
    ensures step.Return? && step.t == x && x in Do(s, step, t0).tasks
            && Do(s, step, t0).tasks[x] == At(s.tasks[x], Next(s.tasks[x].point, Returned, "")) ==>
              GoesOn(x, s.tasks[x], Do(s, step, t0).tasks[x], step)
  {
    hide Do, Next, WritesAt;
  }

  lemma ReturnAsks(s: State, t: TaskId, t0: Tables, before: set<FileId>, x: TaskId)
    requires Inv(s, t0, before) && Enabled(s, Return(t)) && x in s.tasks
    ensures var s' := Do(s, Return(t), t0);
            && x in s'.tasks
            && (Asks(s, Return(t), x) != Uncancelled ==> x != t && s'.tasks[x] == s.tasks[x].(cancel := ByOthers))
            && (Asks(s, Return(t), x) == Uncancelled && x != t ==> s'.tasks[x] == s.tasks[x])
            && (x == t ==> s'.tasks[x] == At(s.tasks[x], Next(s.tasks[x].point, Returned, "")))
  {
    TaskOk(s, t, t0, before);
    hide Inv, StageOk, RoleOk;
    if s.tasks[t].point.Deleting? {
      DeleteShape(s, Database.Release(s.db), t, "");
      assert Do(s, Return(t), t0) == Back(s.(db := Database.Release(s.db)), t, Returned, "");
      hide Back, Do, WritesAt;
    } else {
      hide WritesAt, Next;
    }
  }

  lemma HearsOn(x: TaskId, a: Task, b: Task, step: Step, asked: Cancel)
    requires GoesOn(x, a, b, step) && HeardOf(a, asked)
    requires (WritesAt(a.point) <==> a.stage != Outside) && (a.stage.Undoing? ==> !a.stage.outcome.Returned?)
    ensures HeardOf(b, asked)
  {
  }

  lemma HearsRequest(a: Task, c: Cancel, asked: Cancel)
    requires HeardOf(a, asked) && c != Uncancelled
    ensures HeardOf(a.(cancel := c), c)
  {
  }

  // ----- What was handed over -----

  lemma LongerHistory(steps: seq<Step>, n: nat)
    requires 0 < n <= |steps|
    ensures forall e :: e in steps[..n - 1] ==> e in steps[..n]
    ensures steps[n - 1] in steps[..n]
  {
    assert steps[..n] == steps[..n - 1] + [steps[n - 1]];
  }

  lemma StillBroke(states: seq<State>, steps: seq<Step>, n: nat, x: TaskId, message: string)
    requires 0 < n <= |steps| && n <= |states| && Broke(states, steps, n - 1, x, message)
    ensures Broke(states, steps, n, x, message)
  {
    LongerHistory(steps, n);
  }

  /** A task at the same point. */
  lemma CarriesStill(states: seq<State>, steps: seq<Step>, n: nat, x: TaskId, a: Task, b: Task)
    requires 0 < n <= |steps| && n < |states| && states[n - 1].log <= states[n].log
    requires Carries(states, steps, n - 1, x, a) && b.point == a.point && b.job == a.job
    requires b.stage == Committing(true) && a.stage != Committing(true) && a.point.Storing? ==>
               InsertFile(a.point.fileId, a.point.row) in states[n].log
    requires b.stage == Committing(true) && a.stage != Committing(true) && a.point.Starting? ==> WasStarted(states[n].log, a.job)
    ensures Carries(states, steps, n, x, b)
  {
    LongerHistory(steps, n);
    assert forall e :: e in states[n - 1].log ==> e in states[n].log;
    assert WasStarted(states[n - 1].log, a.job) ==> WasStarted(states[n].log, a.job);
    if a.point.Failing? {
      StillBroke(states, steps, n, x, a.point.message);
    }
    hide Broke, WasStarted;
  }

  /** A task at its next point. */
  lemma CarriesOver(states: seq<State>, steps: seq<Step>, n: nat, x: TaskId, a: Task, b: Task)
    requires 0 < n <= |steps| && n < |states| && states[n - 1].log <= states[n].log
    requires x in states[n - 1].tasks && states[n - 1].tasks[x] == a && Carries(states, steps, n - 1, x, a)
    requires GoesOn(x, a, b, steps[n - 1]) && b.point != a.point
    requires (WritesAt(a.point) <==> a.stage != Outside) && (a.stage.Undoing? ==> !a.stage.outcome.Returned?)
    ensures Carries(states, steps, n, x, b)
  {
    LongerHistory(steps, n);
    assert forall e :: e in states[n - 1].log ==> e in states[n].log;
    assert WasStarted(states[n - 1].log, a.job) ==> WasStarted(states[n].log, a.job);
    if b.point.Failing? {
      BreaksNow(states, steps, n, x, a, b);
    }
    NextPoint(x, a, b, steps[n - 1]);
    hide Broke, WasStarted, GoesOn;
  }

  /** Where a task's next point comes from. */
  lemma NextPoint(x: TaskId, a: Task, b: Task, step: Step)
    requires GoesOn(x, a, b, step) && b.point != a.point
    requires (WritesAt(a.point) <==> a.stage != Outside) && (a.stage.Undoing? ==> !a.stage.outcome.Returned?)
    ensures b.job == a.job && b.stage != Committing(true)
    ensures match b.point
            case Creating(_) => false
            case Deleting => false
            case Starting => step == GetPermit(x)
            case Rendering => (a.point.Starting? && a.stage == Committing(true)) || a.point.NotingUpstream?
            case NotingUpstream(u) => a.point.Rendering? && step == NoteUpstream(x, u)
            case Storing(f, row, rendered) => a.point.Rendering? && step == AssetReady(x, f, row, rendered)
            case Completing(f, rendered) =>
              a.point.Storing? && a.stage == Committing(true) && a.point.fileId == f && a.point.rendered == rendered
            case _ => true
  {
  }

  lemma CarriesOn(states: seq<State>, steps: seq<Step>, n: nat, x: TaskId, a: Task, b: Task)
    requires 0 < n <= |steps| && n < |states| && states[n - 1].log <= states[n].log
    requires x in states[n - 1].tasks && states[n - 1].tasks[x] == a && Carries(states, steps, n - 1, x, a)
    requires GoesOn(x, a, b, steps[n - 1]) || b == a.(cancel := b.cancel)
    requires steps[n - 1] == QueueCommit(x, true) && a.point.Storing? ==> InsertFile(a.point.fileId, a.point.row) in states[n].log
    requires steps[n - 1] == QueueCommit(x, true) && a.point.Starting? ==> WasStarted(states[n].log, a.job)
    requires (WritesAt(a.point) <==> a.stage != Outside) && (a.stage.Undoing? ==> !a.stage.outcome.Returned?)
    ensures Carries(states, steps, n, x, b)
  {
    SamePoint(x, a, b, steps[n - 1]);
    hide Carries, GoesOn, WasStarted;
    if b.point == a.point {
      CarriesStill(states, steps, n, x, a, b);
    } else {
      CarriesOver(states, steps, n, x, a, b);
    }
  }

  lemma SamePoint(x: TaskId, a: Task, b: Task, step: Step)
    requires GoesOn(x, a, b, step) || b == a.(cancel := b.cancel)
    requires (WritesAt(a.point) <==> a.stage != Outside) && (a.stage.Undoing? ==> !a.stage.outcome.Returned?)
    ensures b.job == a.job
    ensures b.point == a.point && b.stage == Committing(true) && a.stage != Committing(true) ==> step == QueueCommit(x, true)
    ensures b.point != a.point ==> GoesOn(x, a, b, step)
  {
  }

  lemma BreaksNow(states: seq<State>, steps: seq<Step>, n: nat, x: TaskId, a: Task, b: Task)
    requires 0 < n <= |steps| && n < |states| && x in states[n - 1].tasks && states[n - 1].tasks[x] == a
    requires GoesOn(x, a, b, steps[n - 1]) && b.point.Failing? && !a.point.Failing?
    requires (WritesAt(a.point) <==> a.stage != Outside) && (a.stage.Undoing? ==> !a.stage.outcome.Returned?)
    ensures Broke(states, steps, n, x, b.point.message)
  {
    LongerHistory(steps, n);
    var step := steps[n - 1];
    if step.Leave? {
      assert step == Leave(x, b.point.message) && LeftRaising(states[n - 1], x);
    }
  }

  // ----- Every task, over every run -----

  lemma NewcomerTold(states: seq<State>, steps: seq<Step>, n: nat, t0: Tables, x: TaskId)
    requires 0 < n <= |steps| && n < |states| && Enabled(states[n - 1], steps[n - 1])
    requires states[n] == Do(states[n - 1], steps[n - 1], t0)
    requires x in states[n].tasks && x !in states[n - 1].tasks && LastAsked(states, steps, n - 1, x) == Uncancelled
    ensures TaskTold(states, steps, n, x)
  {
    LongerHistory(steps, n);
    NobodyAsksNobody(states[n - 1], steps[n - 1], x);
    hide ApplyAll, StatementAt, IsChore, WritesAt, Next, InRender;
  }

  lemma NobodyAsksNobody(s: State, step: Step, x: TaskId)
    requires Enabled(s, step) && x !in s.tasks
    ensures Asks(s, step, x) == Uncancelled
  {
  }

  lemma TasksStay(s: State, step: Step, t0: Tables)
    requires Enabled(s, step)
    ensures s.tasks.Keys <= Do(s, step, t0).tasks.Keys
  {
    hide ApplyAll, StatementAt, IsChore, WritesAt, Next, InRender;
  }

  /** What a commit makes of a file that was handed over. */
  lemma StoresWhatItWasHanded(s: State, step: Step, t0: Tables, before: set<FileId>, x: TaskId)
    requires Inv(s, t0, before) && Enabled(s, step) && x in s.tasks && step == QueueCommit(x, true) && s.tasks[x].point.Storing?
    ensures InsertFile(s.tasks[x].point.fileId, s.tasks[x].point.row) in Do(s, step, t0).log
  {
    TaskOk(s, x, t0, before);
    hide ApplyAll, Inv, RoleOk;
    var log := Do(s, step, t0).log;
    assert log[|s.log|] == InsertFile(s.tasks[x].point.fileId, s.tasks[x].point.row);
  }

  lemma StartsTheRow(s: State, step: Step, t0: Tables, before: set<FileId>, x: TaskId)
    requires Inv(s, t0, before) && Enabled(s, step) && x in s.tasks && step == QueueCommit(x, true) && s.tasks[x].point.Starting?
    ensures WasStarted(Do(s, step, t0).log, s.tasks[x].job)
  {
    TaskOk(s, x, t0, before);
    hide ApplyAll, Inv, RoleOk;
    var log, stmt := Do(s, step, t0).log, s.tasks[x].stage.stmt;
    assert log[|s.log|] == stmt && stmt == UpdateJob(s.tasks[x].job, NO_PATCH.(status := Some(InProgress)), StampOf(stmt));
  }

  lemma OldTaskTold(states: seq<State>, steps: seq<Step>, t0: Tables, before: set<FileId>, n: nat, x: TaskId)
    requires IsRun(states, steps, t0) && Named(t0, [], before) && 0 < n < |states|
    requires x in states[n - 1].tasks && TaskTold(states, steps, n - 1, x)
    ensures x in states[n].tasks && TaskTold(states, steps, n, x)
  {
    var s, step := states[n - 1], steps[n - 1];
    LastStep(states, steps, t0, n);
    RunKeeps(states, steps, t0, before, n - 1);
    hide Inv, Linked, Do, Enabled, IsRun, GoesOn, HeardOf, Carries, Asks, WasStarted;
    AskedOrGoesOn(s, step, t0, before, x);
    TaskOk(s, x, t0, before);
    LandedGrows(s, step, t0, before);
    var a, b := s.tasks[x], states[n].tasks[x];
    if Asks(s, step, x) != Uncancelled {
      HearsRequest(a, Asks(s, step, x), LastAsked(states, steps, n - 1, x));
    } else {
      HearsOn(x, a, b, step, LastAsked(states, steps, n - 1, x));
    }
    if step == QueueCommit(x, true) && a.point.Storing? {
      StoresWhatItWasHanded(s, step, t0, before, x);
    }
    if step == QueueCommit(x, true) && a.point.Starting? {
      StartsTheRow(s, step, t0, before, x);
    }
    CarriesOn(states, steps, n, x, a, b);
  }

  lemma {:induction false} AllAreTold(states: seq<State>, steps: seq<Step>, t0: Tables, before: set<FileId>, n: nat)
    requires IsRun(states, steps, t0) && Named(t0, [], before) && n < |states|
    ensures AllTold(states, steps, n)
    decreases n
  {
    if n > 0 {
      AllAreTold(states, steps, t0, before, n - 1);
      LastStep(states, steps, t0, n);
      TasksStay(states[n - 1], steps[n - 1], t0);
      hide Do, Enabled, IsRun, TaskTold, Asks;
      forall x ensures if x in states[n].tasks then TaskTold(states, steps, n, x) else LastAsked(states, steps, n, x) == Uncancelled {
        if x in states[n - 1].tasks {
          OldTaskTold(states, steps, t0, before, n, x);
        } else if x in states[n].tasks {
          NewcomerTold(states, steps, n, t0, x);
        } else {
          NobodyAsksNobody(states[n - 1], steps[n - 1], x);
        }
      }
    }
  }

  // ----- Every statement of the log -----

  /** What is behind a statement that reaches the table of jobs. */
  ghost predicate StatementTells(states: seq<State>, steps: seq<Step>, n: nat, t0: Tables, stmt: Statement)
    requires n <= |steps| && n < |states|
  {
    match stmt
    case InsertJob(id, ratio, _) => id !in t0.jobs && Asked(steps, n, id, ratio)
    case UpdateJob(id, p, _) => id !in t0.jobs && PatchTells(states, steps, n, id, p)
    case FailIfActive(id, message, _) =>
      WhyFailed(states, steps, n, id, message) && (id in t0.jobs ==> message == "Cancelled by user" && UserAsked(steps, n, id))
    case _ => IsChore(stmt)
  }

  ghost predicate UserAsked(steps: seq<Step>, n: nat, job: JobId)
    requires n <= |steps|
  {
    exists x :: DeleteArrives(x, job) in steps[..n]
  }

  ghost predicate PatchTells(states: seq<State>, steps: seq<Step>, n: nat, id: JobId, p: Patch)
    requires n <= |steps| && n < |states|
  {
    || (p == NO_PATCH.(status := Some(InProgress)) && Began(states, steps, n, id))
    || (p.upstreamId.Some? && p == NO_PATCH.(upstreamId := p.upstreamId) && Noted(states, steps, n, id, p.upstreamId.value))
    || (p.fileId.Some? && p.aspectRatio.Write?
        && p == NO_PATCH.(status := Some(Completed), fileId := p.fileId, progressPct := Some(100), aspectRatio := p.aspectRatio)
        && CompletedBy(states, steps, n, id, p.fileId.value, p.aspectRatio.column))
    || (p.errorMessage.Some? && p == NO_PATCH.(status := Some(Failed), errorMessage := p.errorMessage)
        && WhyFailed(states, steps, n, id, p.errorMessage.value))
  }

  lemma StillWhyFailed(states: seq<State>, steps: seq<Step>, n: nat, job: JobId, message: string)
    requires 0 < n <= |steps| && n < |states| && WhyFailed(states, steps, n - 1, job, message)
    ensures WhyFailed(states, steps, n, job, message)
  {
    hide FailedBy;
  }

  lemma StillCompletedBy(states: seq<State>, steps: seq<Step>, n: nat, job: JobId, f: FileId, rendered: Option<string>)
    requires 0 < n <= |steps| && n < |states| && CompletedBy(states, steps, n - 1, job, f, rendered)
    ensures CompletedBy(states, steps, n, job, f, rendered)
  {
    hide Finished;
  }

  /** A runner keeps its name. */
  lemma StillRuns(s: State, step: Step, t0: Tables, before: set<FileId>, x: TaskId, job: JobId)
    requires Inv(s, t0, before) && Enabled(s, step) && Runs(s, x, job)
    ensures Runs(Do(s, step, t0), x, job)
  {
    InvParts(s, t0, before);
    hide Inv, Do, Enabled;
    RunnerNameKept(s, step, t0, before, job);
  }

  lemma AllStillRun(states: seq<State>, steps: seq<Step>, t0: Tables, before: set<FileId>, n: nat, job: JobId)
    requires IsRun(states, steps, t0) && Named(t0, [], before) && 0 < n < |states|
    ensures |states| == |steps| + 1 && forall x :: Runs(states[n - 1], x, job) ==> Runs(states[n], x, job)
  {
    hide *;
    LastStep(states, steps, t0, n);
    RunKeeps(states, steps, t0, before, n - 1);
    forall x | Runs(states[n - 1], x, job) ensures Runs(states[n], x, job) {
      StillRuns(states[n - 1], steps[n - 1], t0, before, x, job);
    }
  }

  lemma PatchStillTells(states: seq<State>, steps: seq<Step>, n: nat, id: JobId, p: Patch)
    requires 0 < n <= |steps| && n < |states| && PatchTells(states, steps, n - 1, id, p)
    requires forall x :: Runs(states[n - 1], x, id) ==> Runs(states[n], x, id)
    ensures PatchTells(states, steps, n, id, p)
  {
    LongerHistory(steps, n);
    if p.errorMessage.Some? && WhyFailed(states, steps, n - 1, id, p.errorMessage.value) {
      StillWhyFailed(states, steps, n, id, p.errorMessage.value);
    }
    if p.fileId.Some? && p.aspectRatio.Write? && CompletedBy(states, steps, n - 1, id, p.fileId.value, p.aspectRatio.column) {
      StillCompletedBy(states, steps, n, id, p.fileId.value, p.aspectRatio.column);
    }
    hide WhyFailed, CompletedBy, Runs;
  }

  lemma StillTells(states: seq<State>, steps: seq<Step>, t0: Tables, before: set<FileId>, n: nat, stmt: Statement)
    requires IsRun(states, steps, t0) && Named(t0, [], before) && 0 < n < |states|
    requires |states| == |steps| + 1 && StatementTells(states, steps, n - 1, t0, stmt)
    ensures StatementTells(states, steps, n, t0, stmt)
  {
    hide IsRun, WhyFailed, PatchTells, Named, IsChore, Runs;
    LongerHistory(steps, n);
    match stmt
    case UpdateJob(id, p, _) =>
      AllStillRun(states, steps, t0, before, n, id);
      PatchStillTells(states, steps, n, id, p);
    case FailIfActive(id, message, _) => StillWhyFailed(states, steps, n, id, message);
    case _ =>
  }

  /** A job of an earlier process has no runner in this one. */
  lemma {:induction false} EarlierJobsRest(states: seq<State>, steps: seq<Step>, t0: Tables, before: set<FileId>, n: nat, job: JobId)
    requires IsRun(states, steps, t0) && Named(t0, [], before) && n < |states| && job in t0.jobs
    ensures job in states[n].posts && states[n].posts[job] == 0 && job !in states[n].runners
    decreases n
  {
    if n > 0 {
      EarlierJobsRest(states, steps, t0, before, n - 1, job);
      LastStep(states, steps, t0, n);
      RunKeeps(states, steps, t0, before, n - 1);
      var s, step := states[n - 1], steps[n - 1];
      NamesStay(s, step, t0, job);
      if step.Submit? {
        TaskOk(s, step.t, t0, before);
      }
      hide Inv, Linked, Do, IsRun, ApplyAll;
    }
  }

  /** A task about to queue a commit. */
  ghost predicate AboutToCommit(states: seq<State>, steps: seq<Step>, q: nat, x: TaskId, t0: Tables)
    requires q < |steps| && q < |states|
  {
    && Commits(steps, q, x) && x in states[q].tasks && TaskTold(states, steps, q, x)
    && StageOk(states[q], x, t0) && RoleOk(states[q], x, t0)
    && Running(states[q], x) && states[q].tasks[x].stage.Executing?
  }

  lemma RunnerFails(states: seq<State>, steps: seq<Step>, q: nat, x: TaskId, t0: Tables, message: string)
    requires q < |steps| && q < |states| && AboutToCommit(states, steps, q, x, t0)
    requires var p := states[q].tasks[x].point;
             p == Failing(message) || p == MarkingTimedOut(message) || (p.MarkingCancelled? && message == "Job cancelled")
    ensures WhyFailed(states, steps, q + 1, states[q].tasks[x].job, message)
  {
    hide StageOk, Broke;
    assert FailedBy(states, steps, q, x, states[q].tasks[x].job, message);
  }

  lemma UserFails(states: seq<State>, steps: seq<Step>, q: nat, x: TaskId, t0: Tables)
    requires q < |steps| && q < |states| && AboutToCommit(states, steps, q, x, t0) && states[q].tasks[x].point.Deleting?
    ensures WhyFailed(states, steps, q + 1, states[q].tasks[x].job, "Cancelled by user")
    ensures UserAsked(steps, q + 1, states[q].tasks[x].job)
  {
    LongerHistory(steps, q + 1);
    hide StageOk, RoleOk, Broke;
    assert FailedBy(states, steps, q, x, states[q].tasks[x].job, "Cancelled by user");
  }

  lemma RunnerCompletes(states: seq<State>, steps: seq<Step>, q: nat, x: TaskId, t0: Tables, f: FileId, rendered: Option<string>)
    requires q < |steps| && q < |states| && AboutToCommit(states, steps, q, x, t0) && states[q].tasks[x].point == Completing(f, rendered)
    ensures CompletedBy(states, steps, q + 1, states[q].tasks[x].job, f, rendered)
  {
    hide StageOk, Broke;
    var row :| AssetReady(x, f, row, rendered) in steps[..q] && InsertFile(f, row) in states[q].log;
    assert Finished(states, steps, q, x, states[q].tasks[x].job, f, row, rendered);
  }

  /** What is behind the statement the task has run by step `n - 1`. */
  ghost predicate Backed(states: seq<State>, steps: seq<Step>, n: nat, x: TaskId)
    requires 0 < n <= |steps| && n < |states| && x in states[n - 1].tasks && states[n - 1].tasks[x].stage.Executing?
  {
    var a := states[n - 1].tasks[x];
    match a.stage.stmt
    case InsertJob(id, ratio, _) => id == a.job && IsPost(a.point) && Asked(steps, n, id, ratio)
    case UpdateJob(id, p, _) => id == a.job && Runs(states[n - 1], x, id) && PatchTells(states, steps, n, id, p)
    case FailIfActive(id, message, _) =>
      && id == a.job && WhyFailed(states, steps, n, id, message)
      && (Runs(states[n - 1], x, id) || (message == "Cancelled by user" && UserAsked(steps, n, id)))
    case stmt => IsChore(stmt)
  }

  lemma RunnerTells(states: seq<State>, steps: seq<Step>, q: nat, x: TaskId, t0: Tables)
    requires q < |steps| && q + 1 < |states| && AboutToCommit(states, steps, q, x, t0)
    requires Runs(states[q], x, states[q].tasks[x].job) ==> Runs(states[q + 1], x, states[q].tasks[x].job)
    ensures Backed(states, steps, q + 1, x)
  {
    LongerHistory(steps, q + 1);
    var a := states[q].tasks[x];
    match a.point
    case Failing(message) => RunnerFails(states, steps, q, x, t0, message);
    case MarkingTimedOut(message) => RunnerFails(states, steps, q, x, t0, message);
    case MarkingCancelled => RunnerFails(states, steps, q, x, t0, "Job cancelled");
    case Deleting => UserFails(states, steps, q, x, t0);
    case Completing(f, rendered) => RunnerCompletes(states, steps, q, x, t0, f, rendered);
    case _ =>
    hide WhyFailed, CompletedBy, Broke, Logical, Marked, ActiveIn, LastAsked;
  }

  lemma CommitsAbout(states: seq<State>, steps: seq<Step>, t0: Tables, before: set<FileId>, q: nat)
    requires q < |steps| && q + 1 < |states| && Inv(states[q], t0, before) && AllTold(states, steps, q)
    requires steps[q].QueueCommit? && steps[q].ok && Enabled(states[q], steps[q]) && states[q + 1] == Do(states[q], steps[q], t0)
    ensures var x := steps[q].t;
            && AboutToCommit(states, steps, q, x, t0)
            && states[q + 1].log == states[q].log + [states[q].tasks[x].stage.stmt]
            && (IsPost(states[q].tasks[x].point) ==> states[q].tasks[x].job in states[q].posts && states[q].posts[states[q].tasks[x].job] > 0)
  {
    var x := steps[q].t;
    TaskOk(states[q], x, t0, before);
    assert TaskTold(states, steps, q, x);
    hide Inv, TaskTold, ApplyAll, StatementAt, IsChore, Inserted, Unborn, Marked, ActiveIn, Database.CanIssue;
  }

  lemma CommitTells(states: seq<State>, steps: seq<Step>, t0: Tables, before: set<FileId>, n: nat)
    requires IsRun(states, steps, t0) && Named(t0, [], before) && 0 < n < |states|
    requires |states| == |steps| + 1 && steps[n - 1].QueueCommit? && steps[n - 1].ok
    ensures steps[n - 1].t in states[n - 1].tasks && states[n - 1].tasks[steps[n - 1].t].stage.Executing?
    ensures var stmt := states[n - 1].tasks[steps[n - 1].t].stage.stmt;
            states[n].log == states[n - 1].log + [stmt] && StatementTells(states, steps, n, t0, stmt)
  {
    hide *;
    var s, x := states[n - 1], steps[n - 1].t;
    LastStep(states, steps, t0, n);
    RunKeeps(states, steps, t0, before, n - 1);
    AllAreTold(states, steps, t0, before, n - 1);
    CommitsAbout(states, steps, t0, before, n - 1);
    CommitterWrites(states, steps, n - 1, x, t0);
    var job := s.tasks[x].job;
    AllStillRun(states, steps, t0, before, n, job);
    RunnerTells(states, steps, n - 1, x, t0);
    if job in t0.jobs {
      EarlierJobsRest(states, steps, t0, before, n - 1, job);
    }
    BackedTells(states, steps, n, t0, x);
  }

  lemma CommitterWrites(states: seq<State>, steps: seq<Step>, q: nat, x: TaskId, t0: Tables)
    requires q < |steps| && q < |states| && AboutToCommit(states, steps, q, x, t0)
    ensures x in states[q].tasks && states[q].tasks[x].stage.Executing?
  {
  }

  /** A statement of a job with a runner, or with a POST of this process, is none of an earlier
      process's job. */
  lemma BackedTells(states: seq<State>, steps: seq<Step>, n: nat, t0: Tables, x: TaskId)
    requires 0 < n <= |steps| && n < |states| && x in states[n - 1].tasks && states[n - 1].tasks[x].stage.Executing?
    requires var job := states[n - 1].tasks[x].job;
             && (job in t0.jobs ==> job in states[n - 1].posts && states[n - 1].posts[job] == 0 && job !in states[n - 1].runners)
             && (IsPost(states[n - 1].tasks[x].point) ==> job in states[n - 1].posts && states[n - 1].posts[job] > 0)
    requires Backed(states, steps, n, x)
    ensures StatementTells(states, steps, n, t0, states[n - 1].tasks[x].stage.stmt)
  {
    hide WhyFailed, PatchTells, IsPost, Asked, UserAsked, IsChore;
  }

  lemma {:induction false} LogTells(states: seq<State>, steps: seq<Step>, t0: Tables, before: set<FileId>, n: nat, k: nat)
    requires IsRun(states, steps, t0) && Named(t0, [], before) && n < |states| && k < |states[n].log|
    ensures |states| == |steps| + 1 && StatementTells(states, steps, n, t0, states[n].log[k])
    decreases n
  {
    hide *;
    if n == 0 {
      StartsEmpty(states, steps, t0);
    } else {
      LastStep(states, steps, t0, n);
      if steps[n - 1].QueueCommit? && steps[n - 1].ok {
        CommitTells(states, steps, t0, before, n);
      } else {
        OnlyCommitsCount(states[n - 1], steps[n - 1], t0);
      }
      if k < |states[n - 1].log| {
        LogTells(states, steps, t0, before, n - 1, k);
        StillTells(states, steps, t0, before, n, states[n - 1].log[k]);
      }
    }
  }

  lemma StartsEmpty(states: seq<State>, steps: seq<Step>, t0: Tables)
    requires IsRun(states, steps, t0)
    ensures |states| == |steps| + 1 && states[0].log == []
  {
  }

  // ----- Rows -----

  lemma FreshRowTells(states: seq<State>, steps: seq<Step>, n: nat, t0: Tables, stmt: Statement, t: Tables, job: JobId)
    requires n <= |steps| && n < |states| && StatementTells(states, steps, n, t0, stmt)
    requires job !in t.jobs && job in Apply(stmt, t).jobs
    ensures RowTells(states, steps, n, job, Apply(stmt, t).jobs[job])
  {
    hide WhyFailed, CompletedBy, Began, Noted, Asked, PatchTells;
  }

  lemma PatchedRowTells(states: seq<State>, steps: seq<Step>, n: nat, p: Patch, row: JobRow, now: int, job: JobId)
    requires n <= |steps| && n < |states| && PatchTells(states, steps, n, job, p) && RowTells(states, steps, n, job, row)
    requires !row.status.Completed?
    ensures RowTells(states, steps, n, job, Patched(row, p, now))
  {
    hide WhyFailed, CompletedBy, Began, Noted, Asked;
  }

  lemma OldRowTells(states: seq<State>, steps: seq<Step>, n: nat, t0: Tables, stmt: Statement, t: Tables, job: JobId)
    requires n <= |steps| && n < |states| && StatementTells(states, steps, n, t0, stmt)
    requires job in t.jobs && job in Apply(stmt, t).jobs && RowTells(states, steps, n, job, t.jobs[job])
    requires CompletedIn(t, job) ==> KeepsRow(t, Apply(stmt, t), job)
    ensures RowTells(states, steps, n, job, Apply(stmt, t).jobs[job])
  {
    RowAfter(stmt, t, job);
    hide Apply, WhyFailed, CompletedBy, Began, Noted, Asked, PatchTells, RowTells;
    var row, row' := t.jobs[job], Apply(stmt, t).jobs[job];
    if row.status.Completed? {
      SameRowTells(states, steps, n, job, row, row');
    } else if stmt.UpdateJob? && stmt.id == job {
      PatchedRowTells(states, steps, n, stmt.patch, row, stmt.now, job);
    } else if stmt.FailIfActive? && stmt.id == job && ActiveIn(t, job) {
      MarkedRowTells(states, steps, n, job, row, stmt.message, stmt.now);
    }
  }

  lemma SameRowTells(states: seq<State>, steps: seq<Step>, n: nat, job: JobId, row: JobRow, row': JobRow)
    requires n <= |steps| && n < |states| && RowTells(states, steps, n, job, row) && SameRow(row', row)
    ensures RowTells(states, steps, n, job, row')
  {
    assert row' == row.(updatedAt := row'.updatedAt);
    hide WhyFailed, CompletedBy, Began, Noted, Asked;
  }

  lemma MarkedRowTells(states: seq<State>, steps: seq<Step>, n: nat, job: JobId, row: JobRow, message: string, now: int)
    requires n <= |steps| && n < |states| && RowTells(states, steps, n, job, row) && !row.status.Completed?
    requires WhyFailed(states, steps, n, job, message)
    ensures RowTells(states, steps, n, job, MarkFailed(row, message, now))
  {
    hide WhyFailed, CompletedBy, Began, Noted, Asked;
  }

  lemma {:induction false} PrefixTells(states: seq<State>, steps: seq<Step>, t0: Tables, before: set<FileId>, n: nat, p: nat, job: JobId)
    requires IsRun(states, steps, t0) && Named(t0, [], before) && n < |states| && |states| == |steps| + 1 && p <= |states[n].log|
    requires job !in t0.jobs && job in ApplyAll(states[n].log[..p], t0).jobs
    ensures RowTells(states, steps, n, job, ApplyAll(states[n].log[..p], t0).jobs[job])
    decreases p
  {
    hide *;
    if p == 0 {
      NothingApplied(states[n].log, t0);
    } else {
      var log := states[n].log;
      var t := ApplyAll(log[..p - 1], t0);
      assert log[..p] == log[..p - 1] + [log[p - 1]];
      ApplySnoc(log[..p - 1], log[p - 1], t0);
      LogTells(states, steps, t0, before, n, p - 1);
      if job in t.jobs {
        PrefixTells(states, steps, t0, before, n, p - 1, job);
        RunKeepsDone(states, steps, t0, before, n, job);
        if CompletedIn(t, job) {
          KeptAt(log, t0, job, p - 1);
        }
        OldRowTells(states, steps, n, t0, log[p - 1], t, job);
      } else {
        FreshRowTells(states, steps, n, t0, log[p - 1], t, job);
      }
    }
  }

  lemma NothingApplied(log: seq<Statement>, t0: Tables)
    ensures ApplyAll(log[..0], t0) == t0
  {
  }

  lemma KeptAt(log: seq<Statement>, t0: Tables, job: JobId, p: nat)
    requires LogKeepsDone(log, t0, job) && p < |log| && CompletedIn(ApplyAll(log[..p], t0), job)
    ensures KeepsRow(ApplyAll(log[..p], t0), ApplyAll(log[..p + 1], t0), job)
  {
  }

  /** The main result, over every interleaving. A committed row of a job that this process drew:
      - is completed only by the job's runner, whom nobody had asked to stop, after it was put in
        progress, with the file that was stored for the asset the runner was handed, at 100
        percent and with the ratio that the backend rendered, which may be none;
      - is failed by a DELETE, with that message, or by the runner, with the deadline's message if
        it was the deadline that last asked it to stop, with "Job cancelled" if it was anybody
        else, and with what went wrong if nobody did;
      - until it is completed has no file and no progress, and the ratio that was asked for. */
  lemma ColumnsTell(states: seq<State>, steps: seq<Step>, t0: Tables, before: set<FileId>, n: nat, job: JobId)
    requires IsRun(states, steps, t0) && Named(t0, [], before) && n < |states|
    requires job in Committed(states[n]).jobs && job !in t0.jobs
    ensures |states| == |steps| + 1 && RowTells(states, steps, n, job, Committed(states[n]).jobs[job])
  {
    hide *;
    RunKeeps(states, steps, t0, before, n);
    CommittedIsLog(states[n], t0);
    StartsEmpty(states, steps, t0);
    PrefixTells(states, steps, t0, before, n, Landed(states[n]), job);
  }

  /** The row is what an earlier process left, or a DELETE has failed it. */
  ghost predicate EarlierRowTells(steps: seq<Step>, n: nat, job: JobId, left: JobRow, row: JobRow)
    requires n <= |steps|
  {
    || SameRow(row, left)
    || (IsActive(left) && UserAsked(steps, n, job) && SameRow(row, left.(status := Failed, errorMessage := Some("Cancelled by user"))))
  }

  lemma EarlierRowStep(states: seq<State>, steps: seq<Step>, n: nat, t0: Tables, stmt: Statement, t: Tables, job: JobId)
    requires n <= |steps| && n < |states| && StatementTells(states, steps, n, t0, stmt)
    requires job in t0.jobs && job in Apply(stmt, t).jobs
    requires job in t.jobs ==> EarlierRowTells(steps, n, job, t0.jobs[job], t.jobs[job])
    ensures job in t.jobs && EarlierRowTells(steps, n, job, t0.jobs[job], Apply(stmt, t).jobs[job])
  {
    RowAfter(stmt, t, job);
    hide UserAsked, WhyFailed, PatchTells;
  }

  lemma {:induction false} EarlierPrefixTells(states: seq<State>, steps: seq<Step>, t0: Tables, before: set<FileId>, n: nat, p: nat, job: JobId)
    requires IsRun(states, steps, t0) && Named(t0, [], before) && n < |states| && |states| == |steps| + 1 && p <= |states[n].log|
    requires job in t0.jobs
    ensures var t := ApplyAll(states[n].log[..p], t0);
            job in t.jobs ==> EarlierRowTells(steps, n, job, t0.jobs[job], t.jobs[job])
    decreases p
  {
    if p == 0 {
      NothingApplied(states[n].log, t0);
    } else {
      hide *;
      var log := states[n].log;
      var t := ApplyAll(log[..p - 1], t0);
      assert log[..p] == log[..p - 1] + [log[p - 1]];
      ApplySnoc(log[..p - 1], log[p - 1], t0);
      LogTells(states, steps, t0, before, n, p - 1);
      EarlierPrefixTells(states, steps, t0, before, n, p - 1, job);
      if job in Apply(log[p - 1], t).jobs {
        EarlierRowStep(states, steps, n, t0, log[p - 1], t, job);
      }
    }
  }

  /** A committed row that an earlier process left behind is as it was left, unless it was active
      and a DELETE has failed it. */
  lemma EarlierRowsTell(states: seq<State>, steps: seq<Step>, t0: Tables, before: set<FileId>, n: nat, job: JobId)
    requires IsRun(states, steps, t0) && Named(t0, [], before) && n < |states|
    requires job in Committed(states[n]).jobs && job in t0.jobs
    ensures |states| == |steps| + 1 && EarlierRowTells(steps, n, job, t0.jobs[job], Committed(states[n]).jobs[job])
  {
    hide *;
    RunKeeps(states, steps, t0, before, n);
    CommittedIsLog(states[n], t0);
    StartsEmpty(states, steps, t0);
    EarlierPrefixTells(states, steps, t0, before, n, Landed(states[n]), job);
  }
}
