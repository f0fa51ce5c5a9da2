/** No job sits in progress once its runner has ended, unless the runner's last resort failed it. */
module VideoJobEnds {
  import opened Options
  import opened Tables
  import opened VideoJobs
  import opened VideoJobColumns
  import opened VideoJobCommits
  import opened VideoJobRows
  import opened VideoJobRuns
  import opened VideoJobSteps

  /** The runner is stopped before it has its permit, or its write of last resort fails or is cut
      short. */
  predicate GivesUp(s: State, step: Step, x: TaskId) {
    && x in s.tasks && ((step.Leave? && step.t == x) || step == Interrupt(x))
    && var p := s.tasks[x].point;
    p.Queueing? || p.Failing? || p.MarkingCancelled? || p.MarkingTimedOut?
  }

  ghost predicate GaveUp(states: seq<State>, steps: seq<Step>, n: nat, x: TaskId)
    requires n <= |steps| && n <= |states|
  {
    exists i :: 0 <= i < n && GivesUp(states[i], steps[i], x)
  }

  /** The write that finishes the row is queued, or the runner is no more. */
  predicate IsThrough(a: Task) {
    || a.point.Ended?
    || (a.stage == Committing(true)
        && (a.point.Completing? || a.point.Failing? || a.point.MarkingCancelled? || a.point.MarkingTimedOut?))
  }

  ghost predicate EndsWell(states: seq<State>, steps: seq<Step>, n: nat, t0: Tables, x: TaskId, job: JobId)
    requires n <= |steps| && n < |states|
  {
    Runs(states[n], x, job) && x in states[n].tasks && IsThrough(states[n].tasks[x]) ==>
      !ActiveIn(Logical(states[n], t0), job) || GaveUp(states, steps, n, x)
  }

  lemma StillGaveUp(states: seq<State>, steps: seq<Step>, n: nat, x: TaskId)
    requires 0 < n <= |steps| && n <= |states|
    ensures GaveUp(states, steps, n - 1, x) ==> GaveUp(states, steps, n, x)
    ensures GivesUp(states[n - 1], steps[n - 1], x) ==> GaveUp(states, steps, n, x)
  {
    hide GivesUp;
  }

  /** A row that is finished or gone does not become active under a runner that is through. */
  lemma StaysFinished(s: State, step: Step, t0: Tables, before: set<FileId>, x: TaskId, job: JobId)
    requires Inv(s, t0, before) && Enabled(s, step) && Runs(s, x, job) && x in s.tasks && IsThrough(s.tasks[x])
    requires !ActiveIn(Logical(s, t0), job)
    ensures !ActiveIn(Logical(Do(s, step, t0), t0), job)
  {
    assert step.QueueCommit? ==> step.t in s.tasks;
    hide Inv, Do, Enabled, ApplyAll;
    if job in Logical(s, t0).jobs {
      StepKeepsRow(s, step, t0, before, job);
    } else if step.QueueCommit? && step.ok {
      CommitFinds(s, step.t, t0, before);
      if job in Logical(Do(s, step, t0), t0).jobs {
        CommitBirth(s, step.t, t0, before, job);
        TaskOk(s, step.t, t0, before);
      }
    } else {
      OnlyCommitsCount(s, step, t0);
    }
  }

  /** What the last statements of a runner do to its row. */
  lemma LastStatement(s: State, x: TaskId, t0: Tables, job: JobId)
    requires x in s.tasks && StageOk(s, x, t0) && s.tasks[x].stage.Executing? && s.tasks[x].job == job
    requires var p := s.tasks[x].point; p.Completing? || p.Failing? || p.MarkingCancelled? || p.MarkingTimedOut?
    ensures var stmt := s.tasks[x].stage.stmt;
            || (stmt.UpdateJob? && stmt.id == job && (stmt.patch.status == Some(Completed) || stmt.patch.status == Some(Failed)))
            || (stmt.FailIfActive? && stmt.id == job)
  {
    hide ApplyAll, Marked, ActiveIn, IsChore;
  }

  lemma StatementFinishes(stmt: Statement, t: Tables, job: JobId)
    requires || (stmt.UpdateJob? && stmt.id == job && (stmt.patch.status == Some(Completed) || stmt.patch.status == Some(Failed)))
             || (stmt.FailIfActive? && stmt.id == job)
    ensures !ActiveIn(Apply(stmt, t), job)
  {
    RowAfter(stmt, t, job);
    hide Apply;
  }

  /** The commit that gets the runner through leaves the row finished. */
  lemma CommitFinishes(s: State, x: TaskId, t0: Tables, before: set<FileId>, job: JobId)
    requires Inv(s, t0, before) && Enabled(s, QueueCommit(x, true)) && Runs(s, x, job)
    requires var p := s.tasks[x].point; p.Completing? || p.Failing? || p.MarkingCancelled? || p.MarkingTimedOut?
    ensures !ActiveIn(Logical(Do(s, QueueCommit(x, true), t0), t0), job)
  {
    assert s.tasks[x].stage.Executing?;
    hide Inv, Do, Enabled, Logical, ActiveIn, Apply, StageOk, RoleOk;
    InvParts(s, t0, before);
    TaskOk(s, x, t0, before);
    CommitFinds(s, x, t0, before);
    LastStatement(s, x, t0, job);
    StatementFinishes(s.tasks[x].stage.stmt, Logical(s, t0), job);
  }

  /** How a runner gets through. */
  lemma GetsThrough(x: TaskId, a: Task, b: Task, step: Step)
    requires GoesOn(x, a, b, step) && IsRunner(a.point) && !IsThrough(a) && IsThrough(b)
    requires (WritesAt(a.point) <==> a.stage != Outside) && (a.stage.Undoing? ==> !a.stage.outcome.Returned?)
    ensures || (step == QueueCommit(x, true)
                && (a.point.Completing? || a.point.Failing? || a.point.MarkingCancelled? || a.point.MarkingTimedOut?))
            || (((step.Leave? && step.t == x) || step == Interrupt(x))
                && (a.point.Queueing? || a.point.Failing? || a.point.MarkingCancelled? || a.point.MarkingTimedOut?))
  {
  }

  lemma StepEndsWell(states: seq<State>, steps: seq<Step>, n: nat, t0: Tables, before: set<FileId>, x: TaskId, job: JobId)
    requires 0 < n <= |steps| && n < |states| && Inv(states[n - 1], t0, before) && Enabled(states[n - 1], steps[n - 1])
    requires states[n] == Do(states[n - 1], steps[n - 1], t0) && EndsWell(states, steps, n - 1, t0, x, job)
    requires Runs(states[n - 1], x, job) && x in states[n - 1].tasks
    ensures EndsWell(states, steps, n, t0, x, job)
  {
    var s, step := states[n - 1], steps[n - 1];
    var a := s.tasks[x];
    TaskOk(s, x, t0, before);
    InvParts(s, t0, before);
    AskedOrGoesOn(s, step, t0, before, x);
    hide Inv, Do, Enabled, GaveUp, ActiveIn, Logical, GoesOn, RoleOk, Asks;
    StillGaveUp(states, steps, n, x);
    var b := states[n].tasks[x];
    if IsThrough(b) {
      if IsThrough(a) {
        if !ActiveIn(Logical(s, t0), job) {
          StaysFinished(s, step, t0, before, x, job);
        }
      } else {
        GetsThrough(x, a, b, step);
        if step == QueueCommit(x, true) {
          CommitFinishes(s, x, t0, before, job);
        }
      }
    }
  }

  lemma {:induction false} AllEndWell(states: seq<State>, steps: seq<Step>, t0: Tables, before: set<FileId>, n: nat, x: TaskId, job: JobId)
    requires IsRun(states, steps, t0) && Named(t0, [], before) && n < |states|
    ensures |states| == |steps| + 1 && EndsWell(states, steps, n, t0, x, job)
    decreases n
  {
    hide *;
    if n == 0 {
      NobodyRuns(states, steps, t0, x, job);
    } else {
      AllEndWell(states, steps, t0, before, n - 1, x, job);
      LastStep(states, steps, t0, n);
      RunKeeps(states, steps, t0, before, n - 1);
      var s, step := states[n - 1], steps[n - 1];
      if Runs(s, x, job) {
        RunnerIsThere(s, t0, before, x, job);
        StepEndsWell(states, steps, n, t0, before, x, job);
      } else {
        NewRunner(s, step, t0, before, x, job);
        NotThroughYet(states, steps, n, t0, x, job);
      }
    }
  }

  lemma NobodyRuns(states: seq<State>, steps: seq<Step>, t0: Tables, x: TaskId, job: JobId)
    requires IsRun(states, steps, t0)
    ensures |states| == |steps| + 1 && EndsWell(states, steps, 0, t0, x, job)
  {
  }

  lemma NotThroughYet(states: seq<State>, steps: seq<Step>, n: nat, t0: Tables, x: TaskId, job: JobId)
    requires n <= |steps| && n < |states|
    requires Runs(states[n], x, job) && x in states[n].tasks ==> states[n].tasks[x].point.Queueing?
    ensures EndsWell(states, steps, n, t0, x, job)
  {
  }

  lemma RunnerIsThere(s: State, t0: Tables, before: set<FileId>, x: TaskId, job: JobId)
    requires Inv(s, t0, before) && Runs(s, x, job)
    ensures x in s.tasks
  {
    InvParts(s, t0, before);
    hide Inv;
  }

  /** A task under a new name has just been submitted. */
  lemma NewRunner(s: State, step: Step, t0: Tables, before: set<FileId>, x: TaskId, job: JobId)
    requires Inv(s, t0, before) && Enabled(s, step) && !Runs(s, x, job)
    ensures Runs(Do(s, step, t0), x, job) && x in Do(s, step, t0).tasks ==> Do(s, step, t0).tasks[x].point.Queueing?
  {
    if step.Submit? {
      hide Inv, ApplyAll;
    } else {
      hide ApplyAll, StatementAt, IsChore, WritesAt, Next, InRender, At, Inv;
    }
  }

  /** Once its runner has ended, a job is queued or in progress no more, unless the runner was
      stopped before it began or its own last write failed or was cut short. */
  lemma NoJobIsForgotten(states: seq<State>, steps: seq<Step>, t0: Tables, before: set<FileId>, n: nat, x: TaskId, job: JobId)
    requires IsRun(states, steps, t0) && Named(t0, [], before) && n < |states|
    requires Runs(states[n], x, job) && x in states[n].tasks && states[n].tasks[x].point.Ended?
    requires ActiveIn(Logical(states[n], t0), job)
    ensures |states| == |steps| + 1 && exists i :: 0 <= i < n && GivesUp(states[i], steps[i], x)
  {
    hide IsRun, Logical, ActiveIn, GivesUp;
    AllEndWell(states, steps, t0, before, n, x, job);
  }
}
