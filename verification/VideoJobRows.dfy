/** What can still change the outcome of a finished job's row. */
module VideoJobRows {
  import opened Options
  import opened Tables
  import opened VideoJobs
  import opened VideoJobCommits
  import opened VideoJobSteps

  import Database

  /** The rows differ at most in when they were last written. */
  predicate SameRow(a: JobRow, b: JobRow) {
    a.(updatedAt := 0) == b.(updatedAt := 0)
  }

  /** A finished row stays as it is, or goes. */
  predicate KeepsRow(before: Tables, after: Tables, job: JobId) {
    TerminalIn(before, job) && job in after.jobs ==> SameRow(after.jobs[job], before.jobs[job])
  }

  /** It keeps at least its outcome: the status, the file and the message. */
  predicate KeepsOutcome(before: Tables, after: Tables, job: JobId) {
    TerminalIn(before, job) && job in after.jobs ==>
      && after.jobs[job].status == before.jobs[job].status
      && after.jobs[job].fileId == before.jobs[job].fileId
      && after.jobs[job].errorMessage == before.jobs[job].errorMessage
  }

  lemma RowHasOutcome(before: Tables, after: Tables, job: JobId)
    requires KeepsRow(before, after, job)
    ensures KeepsOutcome(before, after, job)
  {
  }

  // ----- Who is left to write a row -----

  /** What a row failed with, if it did. */
  function FailedWith(t: Tables, job: JobId): Option<string> {
    if job in t.jobs && t.jobs[job].status.Failed? then t.jobs[job].errorMessage else None
  }

  /** The runner's last write will fail, or is queued already. */
  predicate WroteItsLast(task: Task) {
    || (task.point.Completing? && task.stage == Committing(true))
    || (task.point.Failing? && (task.stage.Committing? || task.stage.Undoing? || (task.stage.Executing? && !task.stage.ok)))
  }

  /** The runner writes the row no more, except to fail it if it is still active, or to say once
      more that it failed with the message `stored`. */
  predicate Spent(task: Task, stored: Option<string>) {
    || task.point.Ended? || task.point.MarkingCancelled? || task.point.MarkingTimedOut?
    || task.cancel != Uncancelled
    || (task.stage.Undoing? && task.stage.outcome.Cancelled?)
    || WroteItsLast(task)
    || (task.point.Failing? && stored == Some(task.point.message))
  }

  /** A POST whose row is there and that will start a runner unless it is cancelled. */
  predicate AboutToSubmit(task: Task) {
    task.cancel == Uncancelled && (task.point.Created? || (task.point.Creating? && task.stage == Committing(true)))
  }

  /** Somebody is left who can change the outcome of the job's finished row. */
  predicate Exposed(s: State, job: JobId, stored: Option<string>) {
    if job in s.runners then s.runners[job] in s.tasks && !Spent(s.tasks[s.runners[job]], stored)
    else job in s.posts && s.posts[job] in s.tasks && AboutToSubmit(s.tasks[s.posts[job]])
  }

  /** A DELETE that failed the row holds the lock and is about to cancel the runner. */
  predicate Marks(task: Task, job: JobId) {
    task.point.Deleting? && task.job == job && task.stage == Committing(true) && task.changed
  }

  predicate BeingCancelled(s: State, job: JobId) {
    s.holder.Some? && s.holder.value in s.tasks && Marks(s.tasks[s.holder.value], job)
  }

  // ----- One task under one step -----

  /** What a step makes of a task that is there: nothing, a request to stop, or its own next stage. */
  predicate Becomes(x: TaskId, a: Task, b: Task, step: Step) {
    || b == a
    || (b == a.(cancel := b.cancel) && b.cancel != Uncancelled && !a.point.Ended?)
    || (!step.WorkerTurn? && step.t == x && if a.cancel == Uncancelled then Proceeds(a, b, step) else Stops(a, b, step))
  }

  predicate Proceeds(a: Task, b: Task, step: Step) {
    match step
    case Submit(_, _) => a.point.Created? && b == At(a, Ended)
    case GetPermit(_) => a.point.Queueing? && b == At(a, Starting)
    case NoteUpstream(_, u) => a.point.Rendering? && b == At(a, NotingUpstream(u))
    case AssetReady(_, f, row, rendered) => a.point.Rendering? && b == At(a, Storing(f, row, rendered))
    case RenderFails(_, message) => a.point.Rendering? && b == At(a, Failing(message))
    case Enter(_, _, _) => a.stage.Waiting? && b == a.(stage := b.stage, changed := b.changed) && b.stage.Executing?
    case QueueCommit(_, ok) => a.stage.Executing? && a.stage.ok && b == a.(stage := Committing(ok))
    case Return(_) => a.stage == Committing(true) && b == At(a, Next(a.point, Returned, ""))
    case Fault(_) =>
      ((a.stage.Executing? && !a.stage.ok) || a.stage == Committing(false)) && b == a.(stage := Undoing(Raised))
    case Leave(_, message) => a.stage.Undoing? && b == At(a, Next(a.point, a.stage.outcome, message))
    case _ => false
  }

  predicate Stops(a: Task, b: Task, step: Step) {
    && step.Interrupt? && !a.point.Ended?
    && if a.stage.Executing? || a.stage.Committing?
       then b == a.(stage := Undoing(Cancelled(a.cancel)), cancel := Uncancelled)
       else b == At(a, Next(a.point, Cancelled(a.cancel), ""))
  }

  lemma TaskBecomes(s: State, step: Step, t0: Tables, x: TaskId)
    requires Enabled(s, step) && x in s.tasks
    ensures x in Do(s, step, t0).tasks && Becomes(x, s.tasks[x], Do(s, step, t0).tasks[x], step)
  {
    assert forall o, message {:trigger Next(Deleting, o, message)} :: Next(Deleting, o, message) == Ended;
    hide ApplyAll, StatementAt, IsChore, WritesAt, Next, InRender;
  }

  lemma StaysSpent(x: TaskId, a: Task, b: Task, step: Step, stored: Option<string>)
    requires Becomes(x, a, b, step) && (IsRunner(a.point) || a.point.Ended?) && Spent(a, stored)
    requires (WritesAt(a.point) <==> a.stage != Outside) && (a.stage.Undoing? ==> !a.stage.outcome.Returned?)
    ensures Spent(b, stored)
  {
  }

  /** The POST submits no runner any more. */
  predicate PostOver(task: Task) {
    !IsPost(task.point) || task.cancel != Uncancelled || (task.point.Creating? && task.stage.Undoing?)
  }

  lemma StaysOver(x: TaskId, a: Task, b: Task, step: Step)
    requires Becomes(x, a, b, step) && (IsPost(a.point) || a.point.Ended?) && PostOver(a)
    requires (WritesAt(a.point) <==> a.stage != Outside) && (a.stage.Undoing? ==> !a.stage.outcome.Returned?)
    ensures PostOver(b)
  {
  }

  /** The POST of a job whose row is there is over, or about to submit. */
  lemma PostOfRow(s: State, t0: Tables, before: set<FileId>, job: JobId)
    requires Inv(s, t0, before) && job in Logical(s, t0).jobs
    ensures job in s.posts && (s.posts[job] in s.tasks ==> PostOver(s.tasks[s.posts[job]]) || AboutToSubmit(s.tasks[s.posts[job]]))
  {
    assert Logical(s, t0).jobs.Keys <= s.posts.Keys;
    var x := s.posts[job];
    if x in s.tasks && IsPost(s.tasks[x].point) {
      TaskOk(s, x, t0, before);
      assert s.log[..|s.log|] == s.log;
      assert !Unborn(s.log, t0, job);
    }
    hide ApplyAll, LogOk, StatementAt;
  }

  /** Who has what name does not change, but for a submit. */
  lemma NamesStay(s: State, step: Step, t0: Tables, job: JobId)
    requires Enabled(s, step) && job in s.posts
    ensures var s' := Do(s, step, t0);
            && job in s'.posts && s'.posts[job] == s.posts[job]
            && (!(step.Submit? && s.tasks[step.t].job == job) ==>
                  (job in s'.runners <==> job in s.runners) && (job in s.runners ==> s'.runners[job] == s.runners[job]))
            && (0 !in s.tasks ==> 0 !in s'.tasks)
  {
    hide ApplyAll, StatementAt, IsChore, WritesAt, Next;
  }

  lemma TasksCountFromOne(s: State, t0: Tables, before: set<FileId>)
    requires Inv(s, t0, before)
    ensures forall t :: t in s.tasks ==> t > 0
  {
    forall t | t in s.tasks ensures t > 0 {
      TaskOk(s, t, t0, before);
    }
  }

  lemma RunnerStaysSpent(s: State, step: Step, t0: Tables, before: set<FileId>, x: TaskId, stored: Option<string>)
    requires Inv(s, t0, before) && Enabled(s, step) && x in s.tasks && Spent(s.tasks[x], stored)
    requires IsRunner(s.tasks[x].point) || s.tasks[x].point.Ended?
    ensures x in Do(s, step, t0).tasks && Spent(Do(s, step, t0).tasks[x], stored)
  {
    TaskOk(s, x, t0, before);
    hide Do, Inv, Spent, Becomes, RoleOk, Marked, ApplyAll;
    TaskBecomes(s, step, t0, x);
    StaysSpent(x, s.tasks[x], Do(s, step, t0).tasks[x], step, stored);
  }

  lemma PostStaysOver(s: State, step: Step, t0: Tables, before: set<FileId>, x: TaskId)
    requires Inv(s, t0, before) && Enabled(s, step) && x in s.tasks && PostOver(s.tasks[x])
    requires IsPost(s.tasks[x].point) || s.tasks[x].point.Ended?
    ensures x in Do(s, step, t0).tasks && PostOver(Do(s, step, t0).tasks[x])
  {
    TaskOk(s, x, t0, before);
    hide Do, Enabled, Inv, PostOver, Becomes, RoleOk, Marked, ApplyAll;
    TaskBecomes(s, step, t0, x);
    StaysOver(x, s.tasks[x], Do(s, step, t0).tasks[x], step);
  }

  lemma RunnerNameKept(s: State, step: Step, t0: Tables, before: set<FileId>, job: JobId)
    requires Inv(s, t0, before) && Enabled(s, step) && job in s.posts && job in s.runners
    ensures job in Do(s, step, t0).runners && Do(s, step, t0).runners[job] == s.runners[job]
  {
    NamesStay(s, step, t0, job);
    if step.Submit? {
      TaskOk(s, step.t, t0, before);
    }
    hide Do, Inv, ApplyAll, LogOk, StatementAt;
  }

  lemma PostNameKept(s: State, step: Step, t0: Tables, before: set<FileId>, job: JobId)
    requires Inv(s, t0, before) && Enabled(s, step) && job in s.posts && job !in s.runners
    requires s.posts[job] in s.tasks ==> PostOver(s.tasks[s.posts[job]])
    ensures var s' := Do(s, step, t0);
            job !in s'.runners && job in s'.posts && s'.posts[job] == s.posts[job] && (s.posts[job] in s'.tasks ==> s.posts[job] in s.tasks)
  {
    NamesStay(s, step, t0, job);
    InvParts(s, t0, before);
    TasksCountFromOne(s, t0, before);
    if step.Submit? {
      TaskOk(s, step.t, t0, before);
    }
    hide Do, Inv, ApplyAll, LogOk, StatementAt;
  }

  /** Once nobody is left to write the row, nobody ever is again. */
  lemma StaysUnexposed(s: State, step: Step, t0: Tables, before: set<FileId>, job: JobId, stored: Option<string>)
    requires Inv(s, t0, before) && Enabled(s, step) && job in Logical(s, t0).jobs && !Exposed(s, job, stored)
    ensures !Exposed(Do(s, step, t0), job, stored)
  {
    PostOfRow(s, t0, before, job);
    InvParts(s, t0, before);
    hide Do, Enabled, Inv, ApplyAll, Spent, Becomes, LogOk;
    if job in s.runners {
      RunnerNameKept(s, step, t0, before, job);
      RunnerStaysSpent(s, step, t0, before, s.runners[job], stored);
    } else {
      PostNameKept(s, step, t0, before, job);
      if s.posts[job] in s.tasks {
        PostStaysOver(s, step, t0, before, s.posts[job]);
      }
    }
  }

  // ----- What a commit does to a finished row -----

  /** The patch that says once more what a row failed with. */
  function FailingAgain(stored: Option<string>): Patch {
    NO_PATCH.(status := Some(Failed), errorMessage := stored)
  }

  lemma RowKept(stmt: Statement, now: Tables, job: JobId)
    requires !stmt.MarkStaleFailed?
    requires stmt.UpdateJob? && stmt.id == job && TerminalIn(now, job) ==>
               now.jobs[job].status.Failed? && stmt.patch == FailingAgain(now.jobs[job].errorMessage)
    ensures KeepsRow(now, Apply(stmt, now), job)
    ensures TerminalIn(now, job) && job in Apply(stmt, now).jobs ==> TerminalIn(Apply(stmt, now), job)
    ensures TerminalIn(Apply(stmt, now), job) ==>
              || TerminalIn(now, job)
              || (stmt.UpdateJob? && stmt.id == job && (stmt.patch.status == Some(Completed) || stmt.patch.status == Some(Failed)))
              || (stmt.FailIfActive? && stmt.id == job && ActiveIn(now, job))
  {
    RowAfter(stmt, now, job);
    hide Apply;
  }

  lemma WriterIsRunner(s: State, t: TaskId, t0: Tables)
    requires t in s.tasks && StageOk(s, t, t0) && RoleOk(s, t, t0) && Running(s, t)
    requires s.tasks[t].stage.Executing? && s.tasks[t].stage.ok
    ensures !s.tasks[t].stage.stmt.MarkStaleFailed?
    ensures var stmt := s.tasks[t].stage.stmt;
            stmt.UpdateJob? ==>
              && stmt.id in s.runners && s.runners[stmt.id] == t
              && forall stored :: Spent(s.tasks[t], stored) ==>
                   stored.Some? && stmt.patch == FailingAgain(stored)
  {
    hide ApplyAll, Unborn, Inserted, Marked, ActiveIn;
  }

  /** An unconditional write about to commit finds the row unfinished, unless its writer was
      left behind, or only says again what the row says. */
  lemma WriterFindsActive(s: State, t: TaskId, t0: Tables, before: set<FileId>, job: JobId)
    requires Inv(s, t0, before) && Enabled(s, QueueCommit(t, true)) && TerminalIn(Logical(s, t0), job)
    requires !Exposed(s, job, FailedWith(Logical(s, t0), job))
    ensures var stmt := s.tasks[t].stage.stmt;
            && !stmt.MarkStaleFailed?
            && (stmt.UpdateJob? && stmt.id == job ==>
                  Logical(s, t0).jobs[job].status.Failed? && stmt.patch == FailingAgain(Logical(s, t0).jobs[job].errorMessage))
  {
    TaskOk(s, t, t0, before);
    WriterIsRunner(s, t, t0);
    hide Logical, Inv, StageOk, RoleOk, StatementAt;
  }

  lemma CommitFinds(s: State, t: TaskId, t0: Tables, before: set<FileId>)
    requires Inv(s, t0, before) && Enabled(s, QueueCommit(t, true))
    ensures !s.tasks[t].stage.stmt.MarkStaleFailed?
    ensures Logical(Do(s, QueueCommit(t, true), t0), t0) == Apply(s.tasks[t].stage.stmt, Logical(s, t0))
  {
    TaskOk(s, t, t0, before);
    LogSnoc(s.log, s.tasks[t].stage.stmt, t0);
    hide ApplyAll, Apply;
  }

  /** Only a queued commit changes what all queued commits lead to. */
  lemma OnlyCommitsCount(s: State, step: Step, t0: Tables)
    requires Enabled(s, step) && !(step.QueueCommit? && step.ok)
    ensures Do(s, step, t0).log == s.log && Logical(Do(s, step, t0), t0) == Logical(s, t0)
  {
    hide ApplyAll, StatementAt, WritesAt, Next, At;
  }

  /** Nobody in a block but the lock's holder. */
  lemma MarkerCommitsAlone(s: State, t: TaskId, t0: Tables, before: set<FileId>, job: JobId)
    requires Inv(s, t0, before) && BeingCancelled(s, job) && t in s.tasks && InBlock(s.tasks[t].stage)
    ensures s.holder == Some(t) && s.tasks[t].stage == Committing(true) && Marked(Logical(s, t0), job)
  {
    TaskOk(s, t, t0, before);
    TaskOk(s, s.holder.value, t0, before);
    hide ApplyAll, Inv, RoleOk, Marked;
  }

  /** A finished row that nobody is left to write, or whose DELETE is just about to see to it,
      is kept by every step. */
  lemma StepKeepsRow(s: State, step: Step, t0: Tables, before: set<FileId>, job: JobId)
    requires Inv(s, t0, before) && Enabled(s, step) && TerminalIn(Logical(s, t0), job)
    requires !Exposed(s, job, FailedWith(Logical(s, t0), job)) || BeingCancelled(s, job)
    ensures var s' := Do(s, step, t0);
            && KeepsRow(Logical(s, t0), Logical(s', t0), job)
            && (job in Logical(s', t0).jobs ==> TerminalIn(Logical(s', t0), job))
            && (!Exposed(s, job, FailedWith(Logical(s, t0), job)) && job in Logical(s', t0).jobs ==>
                  !Exposed(s', job, FailedWith(Logical(s', t0), job)))
  {
    if step.QueueCommit? && step.ok {
      if BeingCancelled(s, job) {
        MarkerCommitsAlone(s, step.t, t0, before, job);
      }
      CommitFinds(s, step.t, t0, before);
      WriterFindsActive(s, step.t, t0, before, job);
      hide Do, Inv, ApplyAll, Apply, Exposed;
      RowKept(s.tasks[step.t].stage.stmt, Logical(s, t0), job);
    } else {
      OnlyCommitsCount(s, step, t0);
    }
    hide Do, Enabled, Inv, ApplyAll;
    if !Exposed(s, job, FailedWith(Logical(s, t0), job)) {
      StaysUnexposed(s, step, t0, before, job, FailedWith(Logical(s, t0), job));
    }
  }

  /** Whose statement finishes a row, and how that task stands once it is queued for commit. */
  lemma FinisherStands(s: State, t: TaskId, t0: Tables)
    requires t in s.tasks && StageOk(s, t, t0) && RoleOk(s, t, t0) && s.tasks[t].stage.Executing?
    ensures var stmt, after := s.tasks[t].stage.stmt, s.tasks[t].(stage := Committing(true));
            && (stmt.UpdateJob? ==> stmt.id == s.tasks[t].job && stmt.id in s.runners && s.runners[stmt.id] == t)
            && (stmt.UpdateJob? && (stmt.patch.status == Some(Completed) || stmt.patch.status == Some(Failed)) ==>
                  forall stored :: Spent(after, stored))
            && (stmt.FailIfActive? && !s.tasks[t].point.Deleting? ==>
                  stmt.id in s.runners && s.runners[stmt.id] == t && forall stored :: Spent(after, stored))
            && (stmt.FailIfActive? && s.tasks[t].point.Deleting? ==>
                  stmt.id == s.tasks[t].job && s.tasks[t].changed == ActiveIn(Logical(s, t0), stmt.id))
  {
    hide ApplyAll, Unborn, Inserted, Marked, ActiveIn;
  }

  /** A row becomes finished with nobody left to write it, or by a DELETE that is about to cancel
      whoever is. */
  lemma FinishesQuietly(s: State, step: Step, t0: Tables, before: set<FileId>, job: JobId)
    requires Inv(s, t0, before) && Enabled(s, step) && !TerminalIn(Logical(s, t0), job)
    requires TerminalIn(Logical(Do(s, step, t0), t0), job)
    ensures BeingCancelled(Do(s, step, t0), job) || !Exposed(Do(s, step, t0), job, FailedWith(Logical(Do(s, step, t0), t0), job))
  {
    if !(step.QueueCommit? && step.ok) {
      OnlyCommitsCount(s, step, t0);
    } else {
      var t := step.t;
      TaskOk(s, t, t0, before);
      CommitFinds(s, t, t0, before);
      RowKept(s.tasks[t].stage.stmt, Logical(s, t0), job);
      FinisherStands(s, t, t0);
      assert s.holder == Some(t);
      hide Logical, Apply, Inv, StageOk, RoleOk, KeepsRow, TerminalIn, StatementAt, Spent;
    }
  }

  // ----- How a DELETE leaves somebody behind -----

  /** A DELETE that failed the row ends with somebody left who can change what it wrote. Either it
      comes back before the POST has submitted the runner, and finds no task to cancel, or its own
      request is cancelled between its commit and its return, and it cancels nobody. */
  predicate LeavesBehind(s: State, step: Step, job: JobId) {
    && (step.Return? || step.Interrupt?) && step.t in s.tasks && Marks(s.tasks[step.t], job)
    && (step.Return? ==> job !in s.runners)
    && Exposed(s, job, Some(CANCELLED_BY_USER))
  }

  predicate EndsMark(s: State, step: Step, job: JobId) {
    (step.Return? || step.Interrupt?) && step.t in s.tasks && Marks(s.tasks[step.t], job)
  }

  lemma ReturnExposes(s: State, t: TaskId, t0: Tables, before: set<FileId>, job: JobId)
    requires Inv(s, t0, before) && Enabled(s, Return(t)) && Marks(s.tasks[t], job)
    ensures Exposed(Do(s, Return(t), t0), job, Some(CANCELLED_BY_USER)) <==> LeavesBehind(s, Return(t), job)
  {
    TaskOk(s, t, t0, before);
    InvParts(s, t0, before);
    DeleteShape(s, Database.Release(s.db), t, "");
    var s' := Do(s, Return(t), t0);
    assert s' == Back(s.(db := Database.Release(s.db)), t, Returned, "");
    hide ApplyAll, Inv, StatementAt, LogOk, Marked, WroteItsLast, Back, Do;
    if job in s.runners {
      var runner := s.runners[job];
      assert runner != t && s'.tasks[runner] == CancelRunner(s, job).tasks[runner];
      assert Spent(s'.tasks[runner], Some(CANCELLED_BY_USER));
    } else if job in s.posts && s.posts[job] in s.tasks {
      assert s.posts[job] != t && s'.tasks[s.posts[job]] == s.tasks[s.posts[job]];
    }
  }

  lemma InterruptExposes(s: State, t: TaskId, t0: Tables, before: set<FileId>, job: JobId)
    requires Inv(s, t0, before) && Enabled(s, Interrupt(t)) && Marks(s.tasks[t], job)
    ensures Exposed(Do(s, Interrupt(t), t0), job, Some(CANCELLED_BY_USER)) <==> LeavesBehind(s, Interrupt(t), job)
  {
    TaskOk(s, t, t0, before);
    InvParts(s, t0, before);
    var s' := Do(s, Interrupt(t), t0);
    assert s'.tasks == s.tasks[t := s'.tasks[t]] && s'.runners == s.runners && s'.posts == s.posts;
    hide ApplyAll, Inv, StatementAt, LogOk, Marked, Do, WroteItsLast;
    if job in s.runners {
      assert s.runners[job] != t;
    } else if job in s.posts && s.posts[job] in s.tasks {
      assert s.posts[job] != t;
    }
  }

  /** How a DELETE that failed the row ends: with the row failed as it says, and with somebody
      left behind exactly when `LeavesBehind` says so. */
  lemma MarkEnds(s: State, step: Step, t0: Tables, before: set<FileId>, job: JobId)
    requires Inv(s, t0, before) && Enabled(s, step) && EndsMark(s, step, job)
    ensures var s' := Do(s, step, t0);
            && Marked(Logical(s', t0), job)
            && (Exposed(s', job, FailedWith(Logical(s', t0), job)) <==> LeavesBehind(s, step, job))
  {
    TaskOk(s, step.t, t0, before);
    OnlyCommitsCount(s, step, t0);
    hide Do, Enabled, Inv, ApplyAll, LeavesBehind;
    if step.Return? {
      ReturnExposes(s, step.t, t0, before, job);
    } else {
      InterruptExposes(s, step.t, t0, before, job);
    }
  }

  lemma LockStays(s: State, step: Step, t0: Tables)
    requires Enabled(s, step) && s.holder.Some? && s.db.holder.Some?
    ensures Do(s, step, t0).holder == s.holder || (!step.WorkerTurn? && s.holder == Some(step.t) && (step.Return? || step.Leave? || step.Interrupt?))
  {
    hide ApplyAll, StatementAt, IsChore, WritesAt, Next, InRender, At;
  }

  /** Until then the DELETE holds on. */
  lemma MarkHolds(s: State, step: Step, t0: Tables, before: set<FileId>, job: JobId)
    requires Inv(s, t0, before) && Linked(s, t0) && Enabled(s, step) && BeingCancelled(s, job) && !EndsMark(s, step, job)
    ensures BeingCancelled(Do(s, step, t0), job)
  {
    var x := s.holder.value;
    TaskOk(s, x, t0, before);
    assert s.db.holder.Some?;
    TaskBecomes(s, step, t0, x);
    LockStays(s, step, t0);
    hide Inv, Linked, Do;
  }
}
