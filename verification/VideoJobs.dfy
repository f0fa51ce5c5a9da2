/** The life of a video job's row (`api/videos.py`, `api/_videos_runner.py`, `infra/jobstore.py`).

    POST inserts the row and submits a runner; the runner writes the row as it goes; DELETE
    marks the row failed if it is still active and then cancels the runner; a deadline, the
    scheduler's hard cap and shutdown cancel it too. All of them write through the shared
    database, one block of one statement each, and every wait between two steps is a place
    where any other task may run.

    `log` is the list of statements whose commit was queued and will succeed, in lock order;
    the committed tables are always a prefix of it applied to the tables at start. */
module VideoJobs {
  import opened Options
  import opened Tables
  import Database

  type TaskId = nat

  /** Who asked a task to stop. The deadline is the runner's own, and so is the message that says
      how long it was. */
  datatype Cancel = Uncancelled | ByDeadline(message: string) | ByOthers

  /** How a writer block ended for the task that ran it. */
  datatype Outcome = Returned | Raised | Cancelled(cause: Cancel)

  datatype Stage =
    | Outside
    | Waiting                                   // for the write lock
    | Executing(stmt: Statement, ok: bool)
    | Committing(ok: bool)
    | Undoing(outcome: Outcome)

  datatype Point =
    // POST
    | Creating(ratio: Option<string>)
    | Created
    // the runner
    | Queueing                                  // submitted, no permit yet
    | Starting
    | Rendering
    | NotingUpstream(upstreamId: string)
    | Storing(fileId: FileId, row: FileRow, rendered: Option<string>)
    | Completing(fileId: FileId, rendered: Option<string>)
    | Failing(message: string)
    | MarkingCancelled
    | MarkingTimedOut(message: string)
    // DELETE
    | Deleting
    // eviction, downloads, image routes
    | Chore(chore: Statement)
    | Ended

  /** `changed` is what `fail_if_active` saw in `rowcount`. */
  datatype Task = Task(job: JobId, point: Point, stage: Stage, cancel: Cancel, changed: bool)

  datatype State = State(
    db: Database.State,
    log: seq<Statement>,
    tasks: map<TaskId, Task>,
    holder: Option<TaskId>,
    posts: map<JobId, TaskId>,      // every job id ever drawn, and the POST that drew it
    runners: map<JobId, TaskId>,    // the scheduler's tasks by name
    files: set<FileId>)             // every file id ever drawn

  // ----- Points -----

  predicate IsPost(p: Point) {
    p.Creating? || p.Created?
  }

  predicate IsRunner(p: Point) {
    !IsPost(p) && !p.Deleting? && !p.Chore? && !p.Ended?
  }

  /** Inside `async with deadline`. */
  predicate InRender(p: Point) {
    p.Starting? || p.Rendering? || p.NotingUpstream? || p.Storing? || p.Completing?
  }

  predicate WritesAt(p: Point) {
    !(p.Created? || p.Queueing? || p.Rendering? || p.Ended?)
  }

  predicate InBlock(g: Stage) {
    g.Executing? || g.Committing? || g.Undoing?
  }

  const CANCELLED_BY_USER := "Cancelled by user"

  function StatementAt(task: Task, now: int): Statement
    requires WritesAt(task.point)
  {
    match task.point
    case Creating(ratio) => InsertJob(task.job, ratio, now)
    case Starting => UpdateJob(task.job, NO_PATCH.(status := Some(InProgress)), now)
    case NotingUpstream(u) => UpdateJob(task.job, NO_PATCH.(upstreamId := Some(u)), now)
    case Storing(f, row, _) => InsertFile(f, row)
    case Completing(f, rendered) =>
      UpdateJob(task.job, NO_PATCH.(status := Some(Completed), fileId := Some(f), progressPct := Some(100),
                                    aspectRatio := Write(rendered)), now)
    case Failing(message) => UpdateJob(task.job, NO_PATCH.(status := Some(Failed), errorMessage := Some(message)), now)
    case MarkingCancelled => FailIfActive(task.job, "Job cancelled", now)
    case MarkingTimedOut(message) => FailIfActive(task.job, message, now)
    case Deleting => FailIfActive(task.job, CANCELLED_BY_USER, now)
    case Chore(chore) => chore
  }

  function StampOf(s: Statement): int {
    match s
    case InsertJob(_, _, now) => now
    case UpdateJob(_, _, now) => now
    case FailIfActive(_, _, now) => now
    case _ => 0
  }

  /** What the other routes and the sweeper may run: nothing that writes a job's row. */
  predicate IsChore(s: Statement) {
    s.PruneTerminal? || s.InsertFile? || s.DeleteFiles? || s.TouchFile? || s.SetPinned?
  }

  // ----- Where a task goes when its block is over -----

  function Next(p: Point, o: Outcome, message: string): Point {
    match p
    case Creating(_) => if o.Returned? then Created else Ended
    case Starting => if o.Returned? then Rendering else AfterRender(o, message)
    case NotingUpstream(_) => if o.Cancelled? then AfterRender(o, message) else Rendering
    case Storing(f, _, rendered) => if o.Returned? then Completing(f, rendered) else AfterRender(o, message)
    case Completing(_, _) => if o.Returned? then Ended else AfterRender(o, message)
    case Rendering => AfterRender(o, message)
    case _ => Ended
  }

  /** The handlers of `run_video_job` for what left the render. */
  function AfterRender(o: Outcome, message: string): Point {
    match o
    case Cancelled(cause) => if cause.ByDeadline? then MarkingTimedOut(cause.message) else MarkingCancelled
    case _ => Failing(message)
  }

  function At(task: Task, p: Point): Task {
    task.(point := p, stage := if WritesAt(p) then Waiting else Outside, cancel := Uncancelled)
  }

  function Put(s: State, t: TaskId, task: Task): State {
    s.(tasks := s.tasks[t := task])
  }

  // ----- Steps -----

  datatype Step =
    | WorkerTurn
    | PostArrives(t: TaskId, job: JobId, ratio: Option<string>)
    | Submit(t: TaskId, runner: TaskId)
    | DeleteArrives(t: TaskId, job: JobId)
    | ChoreArrives(t: TaskId, chore: Statement)
    | GetPermit(t: TaskId)
    | NoteUpstream(t: TaskId, upstreamId: string)
    | AssetReady(t: TaskId, fileId: FileId, row: FileRow, rendered: Option<string>)
    | RenderFails(t: TaskId, message: string)
    | Enter(t: TaskId, now: int, ok: bool)
    | QueueCommit(t: TaskId, ok: bool)
    | Return(t: TaskId)
    | Fault(t: TaskId)
    | Leave(t: TaskId, message: string)
    | Interrupt(t: TaskId)
    | RequestCancel(t: TaskId)      // hard cap, shutdown, a client that hung up
    | DeadlineFires(t: TaskId, message: string)

  predicate Running(s: State, t: TaskId) {
    t in s.tasks && s.tasks[t].cancel == Uncancelled
  }

  predicate Enabled(s: State, step: Step) {
    match step
    case WorkerTurn => Database.CanWork(s.db)
    case PostArrives(t, job, _) => t > 0 && t !in s.tasks && job !in s.posts
    case Submit(t, runner) => Running(s, t) && s.tasks[t].point.Created? && runner > 0 && runner !in s.tasks
    case DeleteArrives(t, _) => t > 0 && t !in s.tasks
    case ChoreArrives(t, chore) => t > 0 && t !in s.tasks && IsChore(chore) && (chore.InsertFile? ==> chore.fileId !in s.files)
    case GetPermit(t) => Running(s, t) && s.tasks[t].point.Queueing?
    case NoteUpstream(t, _) => Running(s, t) && s.tasks[t].point.Rendering?
    case AssetReady(t, fileId, _, _) => Running(s, t) && s.tasks[t].point.Rendering? && fileId !in s.files
    case RenderFails(t, _) => Running(s, t) && s.tasks[t].point.Rendering?
    case Enter(t, _, _) =>
      Running(s, t) && WritesAt(s.tasks[t].point) && s.tasks[t].stage.Waiting? && Database.CanAcquire(s.db)
    case QueueCommit(t, _) =>
      Running(s, t) && s.tasks[t].stage.Executing? && s.tasks[t].stage.ok && s.db.conn.queue == []
      && Database.CanIssue(s.db)
    case Return(t) =>
      Running(s, t) && s.tasks[t].stage == Committing(true) && Database.CanRelease(s.db)
    case Fault(t) =>
      Running(s, t) && s.db.conn.queue == [] && Database.CanUndo(s.db)
      && ((s.tasks[t].stage.Executing? && !s.tasks[t].stage.ok) || s.tasks[t].stage == Committing(false))
    case Leave(t, _) =>
      Running(s, t) && s.tasks[t].stage.Undoing? && s.db.conn.queue == [] && Database.CanRelease(s.db)
    case Interrupt(t) =>
      t in s.tasks && s.tasks[t].cancel != Uncancelled && !s.tasks[t].point.Ended?
      && (s.tasks[t].stage.Executing? || s.tasks[t].stage.Committing? ==> Database.CanUndo(s.db))
      && (s.tasks[t].stage.Undoing? ==> Database.CanRelease(s.db))
    case RequestCancel(t) => t in s.tasks && !s.tasks[t].point.Ended?
    case DeadlineFires(t, _) => Running(s, t) && InRender(s.tasks[t].point)
  }

  /** The tables all queued commits lead to. */
  function Logical(s: State, t0: Tables): Tables {
    ApplyAll(s.log, t0)
  }

  predicate ActiveIn(t: Tables, job: JobId) {
    job in t.jobs && IsActive(t.jobs[job])
  }

  predicate TerminalIn(t: Tables, job: JobId) {
    job in t.jobs && IsTerminal(t.jobs[job])
  }

  /** `scheduler.cancel`, which DELETE runs in the same breath as the release of the lock. */
  function CancelRunner(s: State, job: JobId): State {
    if job in s.runners && s.runners[job] in s.tasks && !s.tasks[s.runners[job]].point.Ended?
    then Put(s, s.runners[job], s.tasks[s.runners[job]].(cancel := ByOthers))
    else s
  }

  /** A block that came back to its task. */
  function Back(s: State, t: TaskId, o: Outcome, message: string): State
    requires t in s.tasks
  {
    var task := s.tasks[t];
    var moved := Put(s.(holder := if s.holder == Some(t) then None else s.holder), t, At(task, Next(task.point, o, message)));
    if task.point.Deleting? && o.Returned? then CancelRunner(moved, task.job) else moved
  }

  function Do(s: State, step: Step, t0: Tables): State
    requires Enabled(s, step)
  {
    match step
    case WorkerTurn => s.(db := Database.Work(s.db))
    case PostArrives(t, job, ratio) =>
      Put(s, t, Task(job, Creating(ratio), Waiting, Uncancelled, false)).(posts := s.posts[job := t])
    case Submit(t, runner) =>
      var task := s.tasks[t];
      Put(Put(s, t, At(task, Ended)), runner, Task(task.job, Queueing, Outside, Uncancelled, false))
        .(runners := s.runners[task.job := runner])
    case DeleteArrives(t, job) => Put(s, t, Task(job, Deleting, Waiting, Uncancelled, false))
    case ChoreArrives(t, chore) =>
      Put(s, t, Task("", Chore(chore), Waiting, Uncancelled, false))
        .(files := if chore.InsertFile? then s.files + {chore.fileId} else s.files)
    case GetPermit(t) => Put(s, t, At(s.tasks[t], Starting))
    case NoteUpstream(t, u) => Put(s, t, At(s.tasks[t], NotingUpstream(u)))
    case AssetReady(t, f, row, rendered) => Put(s, t, At(s.tasks[t], Storing(f, row, rendered))).(files := s.files + {f})
    case RenderFails(t, message) => Put(s, t, At(s.tasks[t], Failing(message)))
    case Enter(t, now, ok) =>
      var task := s.tasks[t];
      var stmt := StatementAt(task, now);
      Put(s, t, task.(stage := Executing(stmt, ok), changed := ActiveIn(Logical(s, t0), task.job)))
        .(db := Database.Issue(Database.Acquire(s.db), stmt, ok), holder := Some(t))
    case QueueCommit(t, ok) =>
      Put(s, t, s.tasks[t].(stage := Committing(ok)))
        .(db := Database.QueueCommit(s.db, ok), log := if ok then s.log + [s.tasks[t].stage.stmt] else s.log)
    case Return(t) => Back(s.(db := Database.Release(s.db)), t, Returned, "")
    case Fault(t) => Put(s, t, s.tasks[t].(stage := Undoing(Raised))).(db := Database.QueueRollback(s.db))
    case Leave(t, message) => Back(s.(db := Database.Release(s.db)), t, s.tasks[t].stage.outcome, message)
    case Interrupt(t) =>
      var task := s.tasks[t];
      if task.stage.Executing? || task.stage.Committing? then
        Put(s, t, task.(stage := Undoing(Cancelled(task.cancel)), cancel := Uncancelled)).(db := Database.QueueRollback(s.db))
      else
        Back(if task.stage.Undoing? then s.(db := Database.Release(s.db)) else s, t, Cancelled(task.cancel), "")
    case RequestCancel(t) => Put(s, t, s.tasks[t].(cancel := ByOthers))
    case DeadlineFires(t, message) => Put(s, t, s.tasks[t].(cancel := ByDeadline(message)))
  }

  function Start(t0: Tables): State {
    State(Database.Start(t0), [], map[], None, map id | id in t0.jobs :: 0, map[], {})
  }

  // ----- The invariant -----

  /** No statement of the log before `n` has brought the job into being. */
  ghost predicate Unborn(log: seq<Statement>, t0: Tables, job: JobId) {
    forall p :: 0 <= p <= |log| ==> job !in ApplyAll(log[..p], t0).jobs
  }

  predicate Inserts(s: Statement, f: FileId) {
    s.InsertFile? && s.fileId == f
  }

  ghost predicate Inserted(log: seq<Statement>, f: FileId) {
    exists q :: 0 <= q < |log| && Inserts(log[q], f)
  }

  /** The row says what a DELETE writes into it. */
  predicate Marked(t: Tables, job: JobId) {
    job in t.jobs && t.jobs[job].status.Failed? && t.jobs[job].errorMessage == Some(CANCELLED_BY_USER)
  }

  /** What a task's stage and the lock say of each other. */
  ghost predicate StageOk(s: State, t: TaskId, t0: Tables)
    requires t in s.tasks
  {
    var task := s.tasks[t];
    && t > 0
    && (InBlock(task.stage) <==> s.holder == Some(t))
    && (WritesAt(task.point) <==> task.stage != Outside)
    && (task.stage.Executing? ==>
          && WritesAt(task.point) && task.stage.stmt == StatementAt(task, StampOf(task.stage.stmt))
          && (task.point.Deleting? ==> task.changed == ActiveIn(Logical(s, t0), task.job)))
    && (task.point.Deleting? && task.stage == Committing(true) && task.changed ==> Marked(Logical(s, t0), task.job))
    && (task.stage.Undoing? ==> !task.stage.outcome.Returned?)
    && (task.point.Chore? ==> IsChore(task.point.chore))
  }

  ghost predicate RoleOk(s: State, t: TaskId, t0: Tables)
    requires t in s.tasks
  {
    var task := s.tasks[t];
    && (IsPost(task.point) ==>
          && task.job in s.posts && s.posts[task.job] == t && task.job !in s.runners
          && (task.stage.Waiting? || task.stage.Executing? || task.stage == Committing(false) ==> Unborn(s.log, t0, task.job) || task.point.Created?))
    && (IsRunner(task.point) ==> task.job in s.runners && s.runners[task.job] == t)
    && (task.point.Storing? && task.stage == Committing(true) ==> Inserted(s.log, task.point.fileId))
    && (task.point.Completing? ==> Inserted(s.log, task.point.fileId))
  }

  /** A row that was there and is gone does not come back: job ids are drawn once. */
  ghost predicate StaysGone(log: seq<Statement>, t0: Tables, job: JobId) {
    forall m, p :: 0 <= m <= p < |log| && job in ApplyAll(log[..m], t0).jobs && job !in ApplyAll(log[..p], t0).jobs ==>
                     job !in ApplyAll(log[..p + 1], t0).jobs
  }

  /** Every finished job of these tables names a file that was inserted. */
  ghost predicate Named(t: Tables, log: seq<Statement>, before: set<FileId>) {
    forall job :: job in t.jobs && t.jobs[job].status.Completed? ==>
      t.jobs[job].fileId.Some? && (t.jobs[job].fileId.value in before || Inserted(log, t.jobs[job].fileId.value))
  }

  ghost predicate LogOk(log: seq<Statement>, drawn: set<JobId>, t0: Tables, before: set<FileId>) {
    && (forall p :: 0 <= p <= |log| ==> ApplyAll(log[..p], t0).jobs.Keys <= drawn)
    && (forall job :: StaysGone(log, t0, job))
    && (forall p :: 0 <= p <= |log| ==> Named(ApplyAll(log[..p], t0), log[..p], before))
  }

  ghost predicate RunnersOk(s: State) {
    && (forall job :: job in s.posts && s.posts[job] != 0 ==>
          && s.posts[job] in s.tasks && s.tasks[s.posts[job]].job == job
          && (IsPost(s.tasks[s.posts[job]].point) || s.tasks[s.posts[job]].point.Ended?))
    && (forall job :: job in s.runners ==>
          && s.runners[job] in s.tasks && s.tasks[s.runners[job]].job == job
          && (IsRunner(s.tasks[s.runners[job]].point) || s.tasks[s.runners[job]].point.Ended?)
          && job in s.posts
          && (s.posts[job] in s.tasks ==> !IsPost(s.tasks[s.posts[job]].point)))
  }

  ghost predicate Inv(s: State, t0: Tables, before: set<FileId>) {
    && (forall t :: t in s.tasks ==> StageOk(s, t, t0))
    && (forall t :: t in s.tasks ==> RoleOk(s, t, t0))
    && (s.holder.Some? ==> s.holder.value in s.tasks)
    && RunnersOk(s)
    && Logical(s, t0).jobs.Keys <= s.posts.Keys
    && LogOk(s.log, s.posts.Keys, t0, before)
  }

  /** The database side: who holds the lock, what it asked for, and which blocks landed. */
  ghost predicate Linked(s: State, t0: Tables) {
    && Database.Inv(s.db, t0)
    && |s.db.landed| == |s.log|
    && (forall p :: 0 <= p < |s.log| ==> s.db.landed[p].stmts == [s.log[p]])
    && (s.holder.None? <==> s.db.holder.None?)
    && (s.holder.Some? ==>
          && s.holder.value in s.tasks
          && match s.tasks[s.holder.value].stage
             case Executing(stmt, ok) => s.db.holder == Some(if ok then Database.Open else Database.Doomed) && s.db.asked == [stmt]
             case Committing(ok) => s.db.holder == Some(Database.Committing(ok))
             case Undoing(_) => s.db.holder == Some(Database.Undoing)
             case _ => false)
  }
}
