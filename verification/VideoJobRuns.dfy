/** What holds of a video job over every run. */
module VideoJobRuns {
  import opened Options
  import opened Tables
  import opened VideoJobs
  import opened VideoJobCommits
  import opened VideoJobLink
  import opened VideoJobRows
  import opened VideoJobSteps

  import Database

  lemma StartInv(t0: Tables, before: set<FileId>)
    requires Named(t0, [], before)
    ensures Inv(Start(t0), t0, before) && Linked(Start(t0), t0)
  {
    Database.StartInv(t0);
  }

  lemma StepKeeps(s: State, step: Step, t0: Tables, before: set<FileId>)
    requires Inv(s, t0, before) && Linked(s, t0) && Enabled(s, step)
    ensures Inv(Do(s, step, t0), t0, before) && Linked(Do(s, step, t0), t0)
  {
    LinkKeeps(s, step, t0, before);
    if step.WorkerTurn? {
      WorkerKeeps(s, t0, before);
    } else if step.PostArrives? || step.DeleteArrives? || step.ChoreArrives? {
      ArriveKeeps(s, step, t0, before);
    } else {
      OldTaskStep(s, step, t0, before);
    }
  }

  lemma WorkerKeeps(s: State, t0: Tables, before: set<FileId>)
    requires Inv(s, t0, before) && Enabled(s, WorkerTurn)
    ensures Inv(Do(s, WorkerTurn, t0), t0, before)
  {
    var s' := Do(s, WorkerTurn, t0);
    LogFrame(s, s', t0, before);
    hide ApplyAll, StatementAt, LogOk, Unborn, IsChore, Inserted;
    forall x | x in s'.tasks ensures StageOk(s', x, t0) && RoleOk(s', x, t0) {
      assert StageOk(s, x, t0) && RoleOk(s, x, t0);
    }
    assert RunnersOk(s');
  }

  lemma CommitFailsOk(s: State, s': State, t: TaskId, t0: Tables)
    requires t in s.tasks && StageOk(s, t, t0) && RoleOk(s, t, t0) && Running(s, t)
    requires s.tasks[t].job in s.runners && s.runners[s.tasks[t].job] == t ==>
              IsRunner(s.tasks[t].point) || s.tasks[t].point.Ended?
    requires s.tasks[t].stage.Executing? && s' == Put(s, t, s.tasks[t].(stage := Committing(false))).(db := s'.db)
    ensures OneTask(s, s', t) && StageOk(s', t, t0) && RoleOk(s', t, t0)
  {
    hide ApplyAll, StatementAt, Unborn, IsChore, Inserted;
  }

  lemma CommitFails(s: State, t: TaskId, t0: Tables, before: set<FileId>)
    requires Inv(s, t0, before) && Enabled(s, QueueCommit(t, false))
    ensures Inv(Do(s, QueueCommit(t, false), t0), t0, before)
  {
    TaskOk(s, t, t0, before);
    var s' := Do(s, QueueCommit(t, false), t0);
    assert Running(s, t) && s.tasks[t].stage.Executing?;
    assert s' == Put(s, t, s.tasks[t].(stage := Committing(false))).(db := s'.db);
    hide *;
    CommitFailsOk(s, s', t, t0);
    OneTaskKeeps(s, s', t, t0, before);
  }

  lemma OldTaskStep(s: State, step: Step, t0: Tables, before: set<FileId>)
    requires Inv(s, t0, before) && Linked(s, t0) && Enabled(s, step)
    requires !step.WorkerTurn? && !step.PostArrives? && !step.DeleteArrives? && !step.ChoreArrives?
    ensures Inv(Do(s, step, t0), t0, before)
  {
    hide Inv, Back, Database.Inv, RoleOk, StatementAt, ApplyAll, Next, At, InRender, WritesAt;
    match step
    case Submit(t, runner) => SubmitKeeps(s, t, runner, t0, before);
    case GetPermit(t) => RenderKeeps(s, Do(s, step, t0), t, Starting, t0, before);
    case NoteUpstream(t, u) => RenderKeeps(s, Do(s, step, t0), t, NotingUpstream(u), t0, before);
    case AssetReady(t, f, row, rendered) => RenderKeeps(s, Do(s, step, t0), t, Storing(f, row, rendered), t0, before);
    case RenderFails(t, message) => RenderKeeps(s, Do(s, step, t0), t, Failing(message), t0, before);
    case Enter(t, now, ok) => EnterKeeps(s, t, now, ok, t0, before);
    case QueueCommit(t, ok) =>
      if ok {
        CommitKeeps(s, t, t0, before);
      } else {
        CommitFails(s, t, t0, before);
      }
    case Return(t) => ReturnKeeps(s, t, t0, before);
    case Fault(t) => FaultKeeps(s, t, t0, before);
    case Leave(t, message) => LeaveKeeps(s, t, message, t0, before);
    case Interrupt(t) =>
      if s.tasks[t].stage.Executing? || s.tasks[t].stage.Committing? {
        InterruptKeeps(s, t, t0, before);
      } else {
        BackKeeps(s, if s.tasks[t].stage.Undoing? then Database.Release(s.db) else s.db, t,
                  Cancelled(s.tasks[t].cancel), "", t0, before);
      }
    case RequestCancel(t) => CancelKeeps(s, Do(s, step, t0), t, ByOthers, t0, before);
    case DeadlineFires(t, message) => CancelKeeps(s, Do(s, step, t0), t, ByDeadline(message), t0, before);
  }

  lemma ReturnKeeps(s: State, t: TaskId, t0: Tables, before: set<FileId>)
    requires Inv(s, t0, before) && Enabled(s, Return(t))
    ensures Inv(Do(s, Return(t), t0), t0, before)
  {
    TaskOk(s, t, t0, before);
    hide Inv, Back, Database.Inv, RoleOk, StatementAt, ApplyAll, Next, At;
    BackKeeps(s, Database.Release(s.db), t, Returned, "", t0, before);
  }

  lemma LeaveKeeps(s: State, t: TaskId, message: string, t0: Tables, before: set<FileId>)
    requires Inv(s, t0, before) && Enabled(s, Leave(t, message))
    ensures Inv(Do(s, Leave(t, message), t0), t0, before)
  {
    TaskOk(s, t, t0, before);
    hide Inv, Back, Database.Inv, RoleOk, StatementAt, ApplyAll, Next, At;
    BackKeeps(s, Database.Release(s.db), t, s.tasks[t].stage.outcome, message, t0, before);
  }

  // ----- Runs -----

  ghost predicate IsPath(states: seq<State>, steps: seq<Step>, t0: Tables) {
    && |states| == |steps| + 1
    && forall i :: 0 <= i < |steps| ==> Enabled(states[i], steps[i]) && states[i + 1] == Do(states[i], steps[i], t0)
  }

  ghost predicate IsRun(states: seq<State>, steps: seq<Step>, t0: Tables) {
    IsPath(states, steps, t0) && states[0] == Start(t0)
  }

  lemma PathLength(states: seq<State>, steps: seq<Step>, t0: Tables)
    requires IsPath(states, steps, t0)
    ensures |states| == |steps| + 1
  {
  }

  lemma LastStep(states: seq<State>, steps: seq<Step>, t0: Tables, n: nat)
    requires IsRun(states, steps, t0) && 0 < n < |states|
    ensures |states| == |steps| + 1 && Enabled(states[n - 1], steps[n - 1]) && states[n] == Do(states[n - 1], steps[n - 1], t0)
  {
    assert Enabled(states[n - 1], steps[n - 1]) && states[n - 1 + 1] == Do(states[n - 1], steps[n - 1], t0);
    hide Enabled, Do;
  }

  lemma RunSteps(states: seq<State>, steps: seq<Step>, t0: Tables, i: nat)
    requires IsRun(states, steps, t0) && i < |steps|
    ensures |states| == |steps| + 1 && Enabled(states[i], steps[i]) && states[i + 1] == Do(states[i], steps[i], t0)
  {
  }

  lemma {:induction false} PathKeeps(states: seq<State>, steps: seq<Step>, t0: Tables, before: set<FileId>, n: nat)
    requires IsPath(states, steps, t0) && Inv(states[0], t0, before) && Linked(states[0], t0) && n < |states|
    ensures Inv(states[n], t0, before) && Linked(states[n], t0)
    decreases n
  {
    hide Inv, Linked, Enabled, Do;
    if n > 0 {
      PathKeeps(states, steps, t0, before, n - 1);
      assert Enabled(states[n - 1], steps[n - 1]);
      StepKeeps(states[n - 1], steps[n - 1], t0, before);
    }
  }

  lemma RunKeeps(states: seq<State>, steps: seq<Step>, t0: Tables, before: set<FileId>, n: nat)
    requires IsRun(states, steps, t0) && Named(t0, [], before) && n < |states|
    ensures Inv(states[n], t0, before) && Linked(states[n], t0)
  {
    hide Inv, Linked, Enabled, Do;
    StartInv(t0, before);
    PathKeeps(states, steps, t0, before, n);
  }

  /** What is committed: a prefix of the log, applied to the tables at start. */
  function Committed(s: State): Tables {
    s.db.conn.committed
  }

  function Landed(s: State): int {
    Database.Settled(s.db)
  }

  lemma {:induction false} BlocksAreLog(landed: seq<Database.Landed>, log: seq<Statement>, t0: Tables)
    requires |landed| == |log| && forall p :: 0 <= p < |log| ==> landed[p].stmts == [log[p]]
    ensures Database.ApplyBlocks(landed, t0) == ApplyAll(log, t0)
    decreases |log|
  {
    if log != [] {
      var n := |log| - 1;
      BlocksAreLog(landed[..n], log[..n], t0);
      var t := ApplyAll(log[..n], t0);
      assert landed[n].stmts == [log[n]];
      assert [log[n]][..0] == [] && ApplyAll([], t) == t;
    }
  }

  lemma CommittedIsLog(s: State, t0: Tables)
    requires Linked(s, t0)
    ensures 0 <= Landed(s) <= |s.log| && Committed(s) == ApplyAll(s.log[..Landed(s)], t0)
  {
    Database.TrailLength(s.db.conn);
    hide ApplyAll, Database.ApplyBlocks;
    BlocksAreLog(s.db.landed[..Landed(s)], s.log[..Landed(s)], t0);
  }

  lemma LandedGrows(s: State, step: Step, t0: Tables, before: set<FileId>)
    requires Linked(s, t0) && Inv(s, t0, before) && Enabled(s, step)
    ensures Landed(s) <= Landed(Do(s, step, t0)) && s.log <= Do(s, step, t0).log
  {
    hide Inv, Database.Inv, ApplyAll, StatementAt, At, InRender, WritesAt, Next;
    match step
    case WorkerTurn => Database.StepSettles(s.db, Database.WorkStep);
    case Enter(t, now, ok) => EnterGrows(s, t, now, ok, t0);
    case QueueCommit(t, ok) => Database.StepSettles(s.db, Database.CommitStep(ok));
    case Fault(t) => Database.StepSettles(s.db, Database.UndoStep);
    case Return(t) => BackGrows(s.(db := Database.Release(s.db)), t, Returned, "");
    case Leave(t, message) => BackGrows(s.(db := Database.Release(s.db)), t, s.tasks[t].stage.outcome, message);
    case Interrupt(t) => InterruptGrows(s, t, t0);
    case _ =>
  }

  lemma EnterGrows(s: State, t: TaskId, now: int, ok: bool, t0: Tables)
    requires Linked(s, t0) && Enabled(s, Enter(t, now, ok))
    ensures var s' := Do(s, Enter(t, now, ok), t0);
            Landed(s) <= Landed(s') && s'.log == s.log
  {
    hide Database.Inv, ApplyAll, StatementAt, WritesAt;
    Database.StepSettles(Database.Acquire(s.db), Database.IssueStep(StatementAt(s.tasks[t], now), ok));
  }

  lemma BackGrows(s: State, t: TaskId, o: Outcome, message: string)
    requires t in s.tasks
    ensures var s' := Back(s, t, o, message);
            s'.db == s.db && s'.log == s.log
  {
    hide At, Next;
  }

  lemma InterruptGrows(s: State, t: TaskId, t0: Tables)
    requires Linked(s, t0) && Enabled(s, Interrupt(t))
    ensures var s' := Do(s, Interrupt(t), t0);
            Landed(s) <= Landed(s') && s'.log == s.log
  {
    hide Database.Inv, ApplyAll, Back, At, Next, Linked;
    if s.tasks[t].stage.Executing? || s.tasks[t].stage.Committing? {
      Database.StepSettles(s.db, Database.UndoStep);
    } else {
      BackGrows(if s.tasks[t].stage.Undoing? then s.(db := Database.Release(s.db)) else s, t, Cancelled(s.tasks[t].cancel), "");
    }
  }

  lemma {:induction false} RunGrows(states: seq<State>, steps: seq<Step>, t0: Tables, before: set<FileId>, m: nat, n: nat)
    requires IsRun(states, steps, t0) && Named(t0, [], before) && m <= n < |states|
    ensures Landed(states[m]) <= Landed(states[n]) && states[m].log <= states[n].log
    decreases n
  {
    hide Inv, Linked, Enabled, Do, Landed;
    if m < n {
      RunGrows(states, steps, t0, before, m, n - 1);
      RunKeeps(states, steps, t0, before, n - 1);
      assert Enabled(states[n - 1], steps[n - 1]);
      LandedGrows(states[n - 1], steps[n - 1], t0, before);
    }
  }

  // ----- Finished rows -----

  ghost predicate LogKeeps(log: seq<Statement>, from: nat, t0: Tables, job: JobId) {
    forall p :: from <= p < |log| ==> KeepsRow(ApplyAll(log[..p], t0), ApplyAll(log[..p + 1], t0), job)
  }

  lemma LogKeepsStep(s: State, step: Step, from: nat, t0: Tables, job: JobId)
    requires Enabled(s, step) && LogKeeps(s.log, from, t0, job)
    requires KeepsRow(Logical(s, t0), Logical(Do(s, step, t0), t0), job)
    ensures LogKeeps(Do(s, step, t0).log, from, t0, job)
  {
    if step.QueueCommit? && step.ok {
      LogSnoc(s.log, s.tasks[step.t].stage.stmt, t0);
      var log := Do(s, step, t0).log;
      hide ApplyAll, KeepsRow;
      forall p | from <= p < |log| ensures KeepsRow(ApplyAll(log[..p], t0), ApplyAll(log[..p + 1], t0), job) {
        if p < |s.log| {
          assert log[..p] == s.log[..p] && log[..p + 1] == s.log[..p + 1];
        }
      }
    } else {
      OnlyCommitsCount(s, step, t0);
    }
  }

  /** Nobody is left to write the job's row, if it is finished, once a DELETE in progress is through. */
  predicate Guarded(s: State, t0: Tables, job: JobId) {
    TerminalIn(Logical(s, t0), job) ==> BeingCancelled(s, job) || !Exposed(s, job, FailedWith(Logical(s, t0), job))
  }

  lemma StepGuards(s: State, step: Step, t0: Tables, before: set<FileId>, job: JobId)
    requires Inv(s, t0, before) && Linked(s, t0) && Enabled(s, step)
    requires Guarded(s, t0, job) && !LeavesBehind(s, step, job)
    ensures KeepsRow(Logical(s, t0), Logical(Do(s, step, t0), t0), job) && Guarded(Do(s, step, t0), t0, job)
  {
    var s' := Do(s, step, t0);
    hide Do, Enabled, Inv, Linked, ApplyAll, Exposed, LeavesBehind, Marks, IsPath;
    if !TerminalIn(Logical(s, t0), job) {
      if TerminalIn(Logical(s', t0), job) {
        FinishesQuietly(s, step, t0, before, job);
      }
    } else {
      StepKeepsRow(s, step, t0, before, job);
      if BeingCancelled(s, job) {
        if EndsMark(s, step, job) {
          MarkEnds(s, step, t0, before, job);
        } else {
          MarkHolds(s, step, t0, before, job);
        }
      }
    }
  }

  /** No DELETE of the job has left anybody behind in the first `n` steps. */
  ghost predicate NobodyLeftBehind(states: seq<State>, steps: seq<Step>, n: nat, job: JobId)
    requires |states| == |steps| + 1 && n <= |steps|
  {
    forall i :: 0 <= i < n ==> !LeavesBehind(states[i], steps[i], job)
  }

  lemma {:induction false} RunGuards(states: seq<State>, steps: seq<Step>, t0: Tables, before: set<FileId>, n: nat, job: JobId)
    requires IsRun(states, steps, t0) && Named(t0, [], before) && n <= |steps| && NobodyLeftBehind(states, steps, n, job)
    ensures LogKeeps(states[n].log, 0, t0, job) && Guarded(states[n], t0, job)
    decreases n
  {
    if n > 0 {
      hide Inv, Linked, Enabled, Do, LeavesBehind, Guarded, LogKeeps;
      RunGuards(states, steps, t0, before, n - 1, job);
      RunKeeps(states, steps, t0, before, n - 1);
      assert Enabled(states[n - 1], steps[n - 1]) && !LeavesBehind(states[n - 1], steps[n - 1], job);
      StepGuards(states[n - 1], steps[n - 1], t0, before, job);
      LogKeepsStep(states[n - 1], steps[n - 1], 0, t0, job);
    }
  }

  /** The row has been kept since the log had `from` statements, and is gone or nobody is left to
      write it. */
  ghost predicate Secure(s: State, from: nat, t0: Tables, job: JobId) {
    && LogKeeps(s.log, from, t0, job)
    && (job in Logical(s, t0).jobs ==>
          TerminalIn(Logical(s, t0), job) && !Exposed(s, job, FailedWith(Logical(s, t0), job)))
  }

  lemma StepSecures(s: State, step: Step, from: nat, t0: Tables, before: set<FileId>, job: JobId)
    requires Inv(s, t0, before) && Enabled(s, step) && Secure(s, from, t0, job)
    requires job !in Logical(s, t0).jobs ==> job !in Logical(Do(s, step, t0), t0).jobs
    ensures Secure(Do(s, step, t0), from, t0, job)
  {
    hide Inv, Do, Enabled, Exposed, ApplyAll, LogKeeps;
    if job in Logical(s, t0).jobs {
      StepKeepsRow(s, step, t0, before, job);
    }
    LogKeepsStep(s, step, from, t0, job);
  }

  /** From a state where nobody is left to write the finished row, no run changes it. */
  lemma {:induction false} UnexposedStays(states: seq<State>, steps: seq<Step>, t0: Tables, before: set<FileId>, a: nat, n: nat, job: JobId)
    requires IsRun(states, steps, t0) && Named(t0, [], before) && a <= n < |states|
    requires TerminalIn(Logical(states[a], t0), job) && !Exposed(states[a], job, FailedWith(Logical(states[a], t0), job))
    ensures Secure(states[n], |states[a].log|, t0, job)
    decreases n
  {
    if a == n {
      SecureHere(states[a], t0, job);
    } else {
      TerminalIsThere(Logical(states[a], t0), job);
      hide *;
      UnexposedStays(states, steps, t0, before, a, n - 1, job);
      StaysOneMore(states, steps, t0, before, a, n, job);
    }
  }

  lemma StaysOneMore(states: seq<State>, steps: seq<Step>, t0: Tables, before: set<FileId>, a: nat, n: nat, job: JobId)
    requires IsRun(states, steps, t0) && Named(t0, [], before) && a < n < |states|
    requires job in Logical(states[a], t0).jobs && Secure(states[n - 1], |states[a].log|, t0, job)
    ensures Secure(states[n], |states[a].log|, t0, job)
  {
    hide *;
    LastStep(states, steps, t0, n);
    RunKeeps(states, steps, t0, before, n - 1);
    var s, step := states[n - 1], steps[n - 1];
    if job !in Logical(s, t0).jobs {
      StillGone(states, steps, t0, before, a, n, job);
      assert job !in Logical(Do(s, step, t0), t0).jobs;
    }
    StepSecures(s, step, |states[a].log|, t0, before, job);
  }

  lemma SecureHere(s: State, t0: Tables, job: JobId)
    requires TerminalIn(Logical(s, t0), job) && !Exposed(s, job, FailedWith(Logical(s, t0), job))
    ensures Secure(s, |s.log|, t0, job)
  {
  }

  lemma StillGone(states: seq<State>, steps: seq<Step>, t0: Tables, before: set<FileId>, a: nat, n: nat, job: JobId)
    requires IsRun(states, steps, t0) && Named(t0, [], before) && a < n < |states|
    requires job in Logical(states[a], t0).jobs && job !in Logical(states[n - 1], t0).jobs
    ensures job !in Logical(states[n], t0).jobs
  {
    hide *;
    RunGrows(states, steps, t0, before, a, n - 1);
    RunGrows(states, steps, t0, before, n - 1, n);
    RunKeeps(states, steps, t0, before, n);
    IdsDrawnOnce(states[n], t0, before, job);
    GoneFromLog(states[a], states[n - 1], states[n], t0, job);
  }

  lemma IdsDrawnOnce(s: State, t0: Tables, before: set<FileId>, job: JobId)
    requires Inv(s, t0, before)
    ensures StaysGone(s.log, t0, job)
  {
  }

  lemma GoneFromLog(s0: State, s1: State, s2: State, t0: Tables, job: JobId)
    requires s0.log <= s1.log <= s2.log && StaysGone(s2.log, t0, job)
    requires job in Logical(s0, t0).jobs && job !in Logical(s1, t0).jobs
    ensures job !in Logical(s2, t0).jobs
  {
    var log := s2.log;
    assert log[..|s0.log|] == s0.log && log[..|s1.log|] == s1.log && log[..|log|] == log;
    hide ApplyAll, StaysGone;
    GoneForGood(log, t0, job, |s0.log|, |s1.log|, |log|);
  }

  /** Along a log: a finished row keeps its outcome until it is gone for good. */
  lemma {:induction false} LogAbsorbs(log: seq<Statement>, from: nat, t0: Tables, job: JobId, p: nat, q: nat)
    requires LogKeeps(log, from, t0, job) && StaysGone(log, t0, job) && from <= p <= q <= |log|
    requires TerminalIn(ApplyAll(log[..p], t0), job)
    ensures KeepsRow(ApplyAll(log[..p], t0), ApplyAll(log[..q], t0), job)
    ensures job in ApplyAll(log[..q], t0).jobs ==> TerminalIn(ApplyAll(log[..q], t0), job)
    decreases q
  {
    hide ApplyAll;
    if p < q {
      LogAbsorbs(log, from, t0, job, p, q - 1);
      assert KeepsRow(ApplyAll(log[..q - 1], t0), ApplyAll(log[..q - 1 + 1], t0), job);
    }
  }

  /** Committed states of a run are prefixes of one log. */
  lemma CommittedAlong(states: seq<State>, steps: seq<Step>, t0: Tables, before: set<FileId>, i: nat, k: nat)
    requires IsRun(states, steps, t0) && Named(t0, [], before) && i <= k < |states|
    ensures 0 <= Landed(states[i]) <= Landed(states[k]) <= |states[k].log|
    ensures Committed(states[i]) == ApplyAll(states[k].log[..Landed(states[i])], t0)
  {
    hide Enabled, Do, ApplyAll, Landed, Committed, IsRun, Inv, Linked;
    RunKeeps(states, steps, t0, before, i);
    RunKeeps(states, steps, t0, before, k);
    RunGrows(states, steps, t0, before, i, k);
    CommittedIsLog(states[i], t0);
    CommittedIsLog(states[k], t0);
    assert states[i].log[..Landed(states[i])] == states[k].log[..Landed(states[i])];
  }

  /** Terminal states absorb. Over every interleaving of runners, DELETEs, deadlines, hard caps,
      shutdown and eviction: once a committed row is completed or failed, its status, file and
      message are what they are in every later committed state until the row is pruned, provided
      no DELETE of the job has left somebody behind who will write the row. */
  lemma FinishedRowsStay(states: seq<State>, steps: seq<Step>, t0: Tables, before: set<FileId>, i: nat, k: nat, job: JobId)
    requires IsRun(states, steps, t0) && Named(t0, [], before) && i <= k < |states|
    requires TerminalIn(Committed(states[i]), job) && NobodyLeftBehind(states, steps, k, job)
    ensures KeepsRow(Committed(states[i]), Committed(states[k]), job)
    ensures forall m :: i <= m <= k && job !in Committed(states[m]).jobs ==> job !in Committed(states[k]).jobs
  {
    RunGuards(states, steps, t0, before, k, job);
    RunKeeps(states, steps, t0, before, k);
    var log := states[k].log;
    assert StaysGone(log, t0, job);
    hide *;
    CommittedAlong(states, steps, t0, before, i, k);
    CommittedAlong(states, steps, t0, before, k, k);
    var p, q := Landed(states[i]), Landed(states[k]);
    LogAbsorbs(log, 0, t0, job, p, q);
    TerminalIsThere(Committed(states[i]), job);
    forall m | i <= m <= k && job !in Committed(states[m]).jobs ensures job !in Committed(states[k]).jobs {
      CommittedAlong(states, steps, t0, before, m, k);
      CommittedAlong(states, steps, t0, before, i, m);
      RunGrows(states, steps, t0, before, i, m);
      GoneForGood(log, t0, job, p, Landed(states[m]), q);
    }
  }

  lemma TerminalIsThere(t: Tables, job: JobId)
    requires TerminalIn(t, job)
    ensures job in t.jobs
  {
  }

  lemma {:induction false} GoneForGood(log: seq<Statement>, t0: Tables, job: JobId, p: nat, m: nat, q: nat)
    requires StaysGone(log, t0, job) && p <= m <= q <= |log|
    requires job in ApplyAll(log[..p], t0).jobs && job !in ApplyAll(log[..m], t0).jobs
    ensures job !in ApplyAll(log[..q], t0).jobs
    decreases q
  {
    hide ApplyAll;
    if m < q {
      GoneForGood(log, t0, job, p, m, q - 1);
      assert job !in ApplyAll(log[..q - 1 + 1], t0).jobs;
    }
  }

  // ----- Completed rows -----

  predicate CompletedIn(t: Tables, job: JobId) {
    job in t.jobs && t.jobs[job].status.Completed?
  }

  /** A completed row has nobody left who could write it. */
  predicate CompletedIsDone(s: State, t0: Tables, job: JobId) {
    CompletedIn(Logical(s, t0), job) ==> !Exposed(s, job, None)
  }

  lemma CompletesDone(s: State, t: TaskId, t0: Tables, before: set<FileId>, job: JobId)
    requires Inv(s, t0, before) && Enabled(s, QueueCommit(t, true)) && !CompletedIn(Logical(s, t0), job)
    ensures CompletedIsDone(Do(s, QueueCommit(t, true), t0), t0, job)
  {
    TaskOk(s, t, t0, before);
    CommitFinds(s, t, t0, before);
    RowAfter(s.tasks[t].stage.stmt, Logical(s, t0), job);
    FinisherStands(s, t, t0);
    hide Logical, Apply, Inv, StageOk, RoleOk, StatementAt, Spent;
  }

  lemma StepKeepsDone(s: State, step: Step, t0: Tables, before: set<FileId>, job: JobId)
    requires Inv(s, t0, before) && Enabled(s, step) && CompletedIsDone(s, t0, job)
    ensures CompletedIsDone(Do(s, step, t0), t0, job)
    ensures CompletedIn(Logical(s, t0), job) ==> KeepsRow(Logical(s, t0), Logical(Do(s, step, t0), t0), job)
  {
    hide Inv, ApplyAll, Exposed, Do, Enabled;
    if CompletedIn(Logical(s, t0), job) {
      StepKeepsRow(s, step, t0, before, job);
      StaysUnexposed(s, step, t0, before, job, None);
    } else if step.QueueCommit? && step.ok {
      CompletesDone(s, step.t, t0, before, job);
    } else {
      OnlyCommitsCount(s, step, t0);
    }
  }

  /** `LogKeeps`, of completed rows. */
  ghost predicate LogKeepsDone(log: seq<Statement>, t0: Tables, job: JobId) {
    forall p :: 0 <= p < |log| && CompletedIn(ApplyAll(log[..p], t0), job) ==>
                  KeepsRow(ApplyAll(log[..p], t0), ApplyAll(log[..p + 1], t0), job)
  }

  lemma LogKeepsDoneStep(s: State, step: Step, t0: Tables, job: JobId)
    requires Enabled(s, step) && LogKeepsDone(s.log, t0, job)
    requires CompletedIn(Logical(s, t0), job) ==> KeepsRow(Logical(s, t0), Logical(Do(s, step, t0), t0), job)
    ensures LogKeepsDone(Do(s, step, t0).log, t0, job)
  {
    if step.QueueCommit? && step.ok {
      LogSnoc(s.log, s.tasks[step.t].stage.stmt, t0);
      var log := Do(s, step, t0).log;
      hide ApplyAll, KeepsRow, CompletedIn;
      forall p | 0 <= p < |log| && CompletedIn(ApplyAll(log[..p], t0), job)
        ensures KeepsRow(ApplyAll(log[..p], t0), ApplyAll(log[..p + 1], t0), job)
      {
        if p < |s.log| {
          assert log[..p] == s.log[..p] && log[..p + 1] == s.log[..p + 1];
        }
      }
    } else {
      OnlyCommitsCount(s, step, t0);
    }
  }

  lemma {:induction false} RunKeepsDone(states: seq<State>, steps: seq<Step>, t0: Tables, before: set<FileId>, n: nat, job: JobId)
    requires IsRun(states, steps, t0) && Named(t0, [], before) && n < |states|
    ensures LogKeepsDone(states[n].log, t0, job) && CompletedIsDone(states[n], t0, job)
    decreases n
  {
    if n > 0 {
      RunKeepsDone(states, steps, t0, before, n - 1, job);
      RunKeeps(states, steps, t0, before, n - 1);
      RunSteps(states, steps, t0, n - 1);
      hide *;
      StepKeepsDone(states[n - 1], steps[n - 1], t0, before, job);
      LogKeepsDoneStep(states[n - 1], steps[n - 1], t0, job);
    }
  }

  lemma {:induction false} LogAbsorbsDone(log: seq<Statement>, t0: Tables, job: JobId, p: nat, q: nat)
    requires LogKeepsDone(log, t0, job) && StaysGone(log, t0, job) && p <= q <= |log|
    requires CompletedIn(ApplyAll(log[..p], t0), job)
    ensures KeepsRow(ApplyAll(log[..p], t0), ApplyAll(log[..q], t0), job)
    ensures job in ApplyAll(log[..q], t0).jobs ==> CompletedIn(ApplyAll(log[..q], t0), job)
    decreases q
  {
    hide ApplyAll;
    if p < q {
      LogAbsorbsDone(log, t0, job, p, q - 1);
      if job in ApplyAll(log[..q - 1], t0).jobs {
        assert KeepsRow(ApplyAll(log[..q - 1], t0), ApplyAll(log[..q - 1 + 1], t0), job);
      } else {
        GoneForGood(log, t0, job, p, q - 1, q);
      }
    }
  }

  /** Completed absorbs without any proviso: over every run a committed completed row keeps its
      status, its file and its message until it is pruned, whoever was left behind. */
  lemma CompletedRowsStay(states: seq<State>, steps: seq<Step>, t0: Tables, before: set<FileId>, i: nat, k: nat, job: JobId)
    requires IsRun(states, steps, t0) && Named(t0, [], before) && i <= k < |states|
    requires CompletedIn(Committed(states[i]), job)
    ensures KeepsRow(Committed(states[i]), Committed(states[k]), job)
    ensures job in Committed(states[k]).jobs ==> CompletedIn(Committed(states[k]), job)
  {
    hide *;
    RunKeepsDone(states, steps, t0, before, k, job);
    RunKeeps(states, steps, t0, before, k);
    IdsDrawnOnce(states[k], t0, before, job);
    CommittedAlong(states, steps, t0, before, i, k);
    CommittedAlong(states, steps, t0, before, k, k);
    LogAbsorbsDone(states[k].log, t0, job, Landed(states[i]), Landed(states[k]));
  }

  // ----- What a client can do about it -----

  /** The POST that drew the id has answered its client, or an earlier process did. */
  predicate Answered(s: State, job: JobId) {
    job in s.posts && (s.posts[job] in s.tasks ==> s.tasks[s.posts[job]].point.Ended?)
  }

  ghost predicate DeletesCameLate(s: State, job: JobId) {
    forall t :: t in s.tasks && s.tasks[t].point.Deleting? && s.tasks[t].job == job ==> Answered(s, job)
  }

  lemma EndedStays(x: TaskId, a: Task, b: Task, step: Step)
    requires Becomes(x, a, b, step) && a.point.Ended? && a.stage == Outside
    ensures b.point.Ended?
  {
  }

  lemma AnsweredStays(s: State, step: Step, t0: Tables, before: set<FileId>, job: JobId)
    requires Inv(s, t0, before) && Enabled(s, step) && Answered(s, job)
    ensures Answered(Do(s, step, t0), job)
  {
    NamesStay(s, step, t0, job);
    TasksCountFromOne(s, t0, before);
    InvParts(s, t0, before);
    hide Inv, Do, Enabled, Becomes;
    if s.posts[job] in s.tasks {
      var x := s.posts[job];
      TaskOk(s, x, t0, before);
      TaskBecomes(s, step, t0, x);
      EndedStays(x, s.tasks[x], Do(s, step, t0).tasks[x], step);
    }
  }

  lemma DeletesStay(x: TaskId, a: Task, b: Task, step: Step)
    requires Becomes(x, a, b, step) && b.point.Deleting?
    ensures a.point.Deleting? && a.job == b.job
  {
  }

  lemma DeletesArrive(s: State, step: Step, t0: Tables, x: TaskId)
    requires Enabled(s, step) && x in Do(s, step, t0).tasks && Do(s, step, t0).tasks[x].point.Deleting?
    ensures || step == DeleteArrives(x, Do(s, step, t0).tasks[x].job)
            || (x in s.tasks && s.tasks[x].point.Deleting? && s.tasks[x].job == Do(s, step, t0).tasks[x].job)
  {
    if x in s.tasks {
      TaskBecomes(s, step, t0, x);
      DeletesStay(x, s.tasks[x], Do(s, step, t0).tasks[x], step);
    } else {
      hide ApplyAll, StatementAt, IsChore, Next, At, WritesAt, InRender;
    }
  }

  lemma LateStays(s: State, step: Step, t0: Tables, before: set<FileId>, job: JobId)
    requires Inv(s, t0, before) && Enabled(s, step) && DeletesCameLate(s, job)
    requires step.DeleteArrives? && step.job == job ==> Answered(s, job)
    ensures DeletesCameLate(Do(s, step, t0), job)
  {
    var s' := Do(s, step, t0);
    hide Inv, Do, Enabled, Answered;
    forall x | x in s'.tasks && s'.tasks[x].point.Deleting? && s'.tasks[x].job == job ensures Answered(s', job) {
      DeletesArrive(s, step, t0, x);
      AnsweredStays(s, step, t0, before, job);
    }
  }

  /** In the first `n` steps nobody asked for the job to be deleted before its POST had answered. */
  ghost predicate ClientsWait(states: seq<State>, steps: seq<Step>, n: nat, job: JobId)
    requires |states| == |steps| + 1 && n <= |steps|
  {
    forall i :: 0 <= i < n && steps[i].DeleteArrives? && steps[i].job == job ==> Answered(states[i], job)
  }

  /** No DELETE of the job was cancelled between the commit of its mark and its return. */
  ghost predicate NoDeleteIsCutShort(states: seq<State>, steps: seq<Step>, n: nat, job: JobId)
    requires |states| == |steps| + 1 && n <= |steps|
  {
    forall i :: 0 <= i < n ==> !(steps[i].Interrupt? && EndsMark(states[i], steps[i], job))
  }

  lemma {:induction false} RunComesLate(states: seq<State>, steps: seq<Step>, t0: Tables, before: set<FileId>, n: nat, job: JobId)
    requires IsRun(states, steps, t0) && Named(t0, [], before) && n <= |steps| && ClientsWait(states, steps, n, job)
    ensures DeletesCameLate(states[n], job)
    decreases n
  {
    if n > 0 {
      assert ClientsWait(states, steps, n - 1, job);
      RunComesLate(states, steps, t0, before, n - 1, job);
      RunKeeps(states, steps, t0, before, n - 1);
      RunSteps(states, steps, t0, n - 1);
      assert steps[n - 1].DeleteArrives? && steps[n - 1].job == job ==> Answered(states[n - 1], job);
      hide *;
      LateStays(states[n - 1], steps[n - 1], t0, before, job);
    }
  }

  /** Clients that wait for the POST's answer, and DELETEs that are let finish, leave nobody
      behind; finished rows then stay, by `FinishedRowsStay`. */
  lemma PatientClientsLeaveNobody(states: seq<State>, steps: seq<Step>, t0: Tables, before: set<FileId>, n: nat, job: JobId)
    requires IsRun(states, steps, t0) && Named(t0, [], before) && n <= |steps|
    requires ClientsWait(states, steps, n, job) && NoDeleteIsCutShort(states, steps, n, job)
    ensures NobodyLeftBehind(states, steps, n, job)
  {
    hide Enabled, Do, Inv, Spent;
    forall i | 0 <= i < n ensures !LeavesBehind(states[i], steps[i], job) {
      assert ClientsWait(states, steps, i, job);
      RunComesLate(states, steps, t0, before, i, job);
    }
  }

  /** A committed completed row names a file whose insert committed before it. */
  lemma CompletedNamesStoredFile(states: seq<State>, steps: seq<Step>, t0: Tables, before: set<FileId>, n: nat, job: JobId)
    requires IsRun(states, steps, t0) && Named(t0, [], before) && n < |states|
    requires job in Committed(states[n]).jobs && Committed(states[n]).jobs[job].status.Completed?
    ensures var f := Committed(states[n]).jobs[job].fileId;
            && 0 <= Landed(states[n]) <= |states[n].log|
            && f.Some? && (f.value in before || Inserted(states[n].log[..Landed(states[n])], f.value))
  {
    hide Enabled, Do, ApplyAll, Landed, Inserted;
    RunKeeps(states, steps, t0, before, n);
    CommittedIsLog(states[n], t0);
  }
}
