/** A commit keeps the invariant. */
module VideoJobCommits {
  import opened Options
  import opened Tables
  import opened VideoJobs
  import opened VideoJobSteps

  import Database

  /** Which statements reach a job's row, and how. */
  lemma RowAfter(stmt: Statement, t: Tables, job: JobId)
    ensures stmt.UpdateJob? && stmt.id == job && job in t.jobs ==>
              job in Apply(stmt, t).jobs && Apply(stmt, t).jobs[job] == Patched(t.jobs[job], stmt.patch, stmt.now)
    ensures stmt.FailIfActive? && stmt.id == job && ActiveIn(t, job) ==>
              job in Apply(stmt, t).jobs && Apply(stmt, t).jobs[job] == MarkFailed(t.jobs[job], stmt.message, stmt.now)
    ensures stmt.FailIfActive? && !ActiveIn(t, job) && job in t.jobs ==>
              job in Apply(stmt, t).jobs && Apply(stmt, t).jobs[job] == t.jobs[job]
    ensures (stmt.UpdateJob? || stmt.FailIfActive? || stmt.InsertJob?) && stmt.id != job ==>
              (job in Apply(stmt, t).jobs <==> job in t.jobs)
              && (job in t.jobs ==> Apply(stmt, t).jobs[job] == t.jobs[job])
    ensures stmt.InsertJob? && job in t.jobs ==> job in Apply(stmt, t).jobs && Apply(stmt, t).jobs[job] == t.jobs[job]
    ensures stmt.InsertJob? && stmt.id == job && job !in t.jobs ==>
              job in Apply(stmt, t).jobs && Apply(stmt, t).jobs[job].status.Queued?
    ensures (stmt.UpdateJob? || stmt.FailIfActive?) && job !in t.jobs ==> job !in Apply(stmt, t).jobs
    ensures IsChore(stmt) && job in Apply(stmt, t).jobs ==> job in t.jobs && Apply(stmt, t).jobs[job] == t.jobs[job]
  {
  }

  lemma CommitBirth(s: State, t: TaskId, t0: Tables, before: set<FileId>, job: JobId)
    requires Inv(s, t0, before) && Enabled(s, QueueCommit(t, true))
    requires job in Apply(s.tasks[t].stage.stmt, Logical(s, t0)).jobs
    ensures job in Logical(s, t0).jobs || (IsPost(s.tasks[t].point) && job == s.tasks[t].job)
    ensures job in s.posts
  {
    TaskOk(s, t, t0, before);
    RowAfter(s.tasks[t].stage.stmt, Logical(s, t0), job);
    hide ApplyAll, Apply, Inserted, Unborn, LogOk;
  }

  lemma LogSnoc(log: seq<Statement>, stmt: Statement, t0: Tables)
    ensures ApplyAll(log + [stmt], t0) == Apply(stmt, ApplyAll(log, t0))
    ensures forall p :: 0 <= p <= |log| ==> (log + [stmt])[..p] == log[..p]
    ensures (log + [stmt])[..|log| + 1] == log + [stmt] && log[..|log|] == log
  {
    ApplySnoc(log, stmt, t0);
  }

  /** A runner completes its row only with the file it has stored. */
  lemma CompletesStored(s: State, t: TaskId, t0: Tables)
    requires t in s.tasks && StageOk(s, t, t0) && RoleOk(s, t, t0) && s.tasks[t].stage.Executing?
    ensures var stmt := s.tasks[t].stage.stmt;
            && !stmt.MarkStaleFailed?
            && (stmt.UpdateJob? && (stmt.patch.status == Some(Completed) || stmt.patch.fileId.Some?) ==>
                  stmt.patch.fileId.Some? && Inserted(s.log, stmt.patch.fileId.value))
  {
    hide Unborn, Inserted, ApplyAll;
  }

  lemma NamedStep(now: Tables, stmt: Statement, log: seq<Statement>, before: set<FileId>)
    requires Named(now, log, before) && !stmt.MarkStaleFailed?
    requires stmt.UpdateJob? && (stmt.patch.status == Some(Completed) || stmt.patch.fileId.Some?) ==>
               stmt.patch.fileId.Some? && Inserted(log, stmt.patch.fileId.value)
    ensures Named(Apply(stmt, now), log, before)
  {
    forall job | job in Apply(stmt, now).jobs && Apply(stmt, now).jobs[job].status.Completed?
      ensures Apply(stmt, now).jobs[job].fileId.Some?
      ensures Apply(stmt, now).jobs[job].fileId.value in before || Inserted(log, Apply(stmt, now).jobs[job].fileId.value)
    {
      RowAfter(stmt, now, job);
      hide Apply, Inserted;
    }
  }

  lemma NamedLonger(t: Tables, log: seq<Statement>, stmt: Statement, before: set<FileId>)
    requires Named(t, log, before)
    ensures Named(t, log + [stmt], before)
  {
    forall f | Inserted(log, f) ensures Inserted(log + [stmt], f) {
      var q :| 0 <= q < |log| && Inserts(log[q], f);
      assert Inserts((log + [stmt])[q], f);
    }
  }

  lemma NamedSnoc(s: State, t: TaskId, t0: Tables, before: set<FileId>)
    requires Inv(s, t0, before) && Enabled(s, QueueCommit(t, true))
    ensures Named(Apply(s.tasks[t].stage.stmt, Logical(s, t0)), s.log + [s.tasks[t].stage.stmt], before)
  {
    TaskOk(s, t, t0, before);
    assert s.log[..|s.log|] == s.log;
    assert Named(Logical(s, t0), s.log, before);
    assert s.tasks[t].stage.Executing?;
    hide *;
    CompletesStored(s, t, t0);
    NamedStep(Logical(s, t0), s.tasks[t].stage.stmt, s.log, before);
    NamedLonger(Apply(s.tasks[t].stage.stmt, Logical(s, t0)), s.log, s.tasks[t].stage.stmt, before);
  }

  lemma GoneSnoc(log: seq<Statement>, stmt: Statement, t0: Tables, job: JobId)
    requires StaysGone(log, t0, job)
    requires job in Apply(stmt, ApplyAll(log, t0)).jobs ==> job in ApplyAll(log, t0).jobs || Unborn(log, t0, job)
    ensures StaysGone(log + [stmt], t0, job)
  {
    LogSnoc(log, stmt, t0);
    hide Apply, ApplyAll;
    var longer := log + [stmt];
    forall m, p | 0 <= m <= p < |longer| && job in ApplyAll(longer[..m], t0).jobs && job !in ApplyAll(longer[..p], t0).jobs
      ensures job !in ApplyAll(longer[..p + 1], t0).jobs
    {
      assert longer[..m] == log[..m] && longer[..p] == log[..p];
      if p < |log| {
        assert longer[..p + 1] == log[..p + 1];
      }
    }
  }

  lemma CommitGone(s: State, t: TaskId, t0: Tables, before: set<FileId>, job: JobId)
    requires Inv(s, t0, before) && Enabled(s, QueueCommit(t, true))
    ensures StaysGone(s.log + [s.tasks[t].stage.stmt], t0, job)
  {
    var stmt := s.tasks[t].stage.stmt;
    TaskOk(s, t, t0, before);
    assert StaysGone(s.log, t0, job);
    if job in Apply(stmt, Logical(s, t0)).jobs {
      CommitBirth(s, t, t0, before, job);
    }
    hide Inv, Apply, ApplyAll, StageOk, IsChore, StatementAt, StaysGone, Unborn, Inserted, Enabled;
    GoneSnoc(s.log, stmt, t0, job);
  }

  lemma CommitLog(s: State, t: TaskId, t0: Tables, before: set<FileId>)
    requires Inv(s, t0, before) && Enabled(s, QueueCommit(t, true))
    ensures var s' := Do(s, QueueCommit(t, true), t0);
            LogOk(s'.log, s'.posts.Keys, t0, before) && Logical(s', t0).jobs.Keys <= s'.posts.Keys
  {
    var stmt := s.tasks[t].stage.stmt;
    var s' := Do(s, QueueCommit(t, true), t0);
    LogSnoc(s.log, stmt, t0);
    forall p | 0 <= p <= |s'.log| ensures ApplyAll(s'.log[..p], t0).jobs.Keys <= s'.posts.Keys {
      if p == |s'.log| {
        forall job | job in ApplyAll(s'.log, t0).jobs ensures job in s'.posts {
          CommitBirth(s, t, t0, before, job);
        }
      }
    }
    forall job ensures StaysGone(s'.log, t0, job) {
      CommitGone(s, t, t0, before, job);
    }
    NamedSnoc(s, t, t0, before);
    forall p | 0 <= p <= |s'.log| ensures Named(ApplyAll(s'.log[..p], t0), s'.log[..p], before) {
    }
  }

  /** What the log now says of files and unborn jobs, for whoever is at work. */
  lemma CommitFacts(s: State, t: TaskId, t0: Tables, before: set<FileId>)
    requires Inv(s, t0, before) && Enabled(s, QueueCommit(t, true))
    ensures var log := s.log + [s.tasks[t].stage.stmt];
            && (forall f :: Inserted(s.log, f) ==> Inserted(log, f))
            && (s.tasks[t].point.Storing? ==> Inserted(log, s.tasks[t].point.fileId))
            && (forall job :: Unborn(s.log, t0, job) && !(IsPost(s.tasks[t].point) && job == s.tasks[t].job) ==>
                                Unborn(log, t0, job))
  {
    TaskOk(s, t, t0, before);
    var stmt := s.tasks[t].stage.stmt;
    var log := s.log + [stmt];
    LogSnoc(s.log, stmt, t0);
    forall f | Inserted(s.log, f) ensures Inserted(log, f) {
      var q :| 0 <= q < |s.log| && Inserts(s.log[q], f);
      assert Inserts(log[q], f);
    }
    if s.tasks[t].point.Storing? {
      assert Inserts(log[|s.log|], s.tasks[t].point.fileId);
    }
    forall job | Unborn(s.log, t0, job) && !(IsPost(s.tasks[t].point) && job == s.tasks[t].job)
      ensures Unborn(log, t0, job)
    {
      assert s.log[..|s.log|] == s.log;
      if job in Apply(stmt, Logical(s, t0)).jobs {
        CommitBirth(s, t, t0, before, job);
      }
      hide Apply, Inv, StageOk, RoleOk;
      forall p | 0 <= p <= |log| ensures job !in ApplyAll(log[..p], t0).jobs {
      }
    }
  }

  lemma CommitTasks(s: State, t: TaskId, t0: Tables, before: set<FileId>, x: TaskId)
    requires Inv(s, t0, before) && Enabled(s, QueueCommit(t, true)) && x in s.tasks
    ensures var s' := Do(s, QueueCommit(t, true), t0);
            StageOk(s', x, t0) && RoleOk(s', x, t0)
  {
    TaskOk(s, t, t0, before);
    TaskOk(s, x, t0, before);
    CommitFacts(s, t, t0, before);
    var s' := Do(s, QueueCommit(t, true), t0);
    assert Running(s, t) && s.tasks[t].stage.Executing?;
    assert s' == Put(s, t, s.tasks[t].(stage := Committing(true))).(db := s'.db, log := s.log + [s.tasks[t].stage.stmt]);
    hide *;
    CommitTaskOk(s, s', t, t0, x);
  }

  lemma CommitTaskOk(s: State, s': State, t: TaskId, t0: Tables, x: TaskId)
    requires t in s.tasks && x in s.tasks && StageOk(s, t, t0) && RoleOk(s, t, t0) && StageOk(s, x, t0) && RoleOk(s, x, t0)
    requires s.tasks[t].stage.Executing?
    requires s' == Put(s, t, s.tasks[t].(stage := Committing(true))).(db := s'.db, log := s.log + [s.tasks[t].stage.stmt])
    requires forall f :: Inserted(s.log, f) ==> Inserted(s'.log, f)
    requires s.tasks[t].point.Storing? ==> Inserted(s'.log, s.tasks[t].point.fileId)
    requires forall job :: Unborn(s.log, t0, job) && !(IsPost(s.tasks[t].point) && job == s.tasks[t].job) ==>
                             Unborn(s'.log, t0, job)
    ensures StageOk(s', x, t0) && RoleOk(s', x, t0)
  {
    if s.tasks[t].point.Deleting? && s.tasks[t].changed {
      CommitMarks(s, t, t0);
    }
    hide ApplyAll, StatementAt, Unborn, IsChore, Inserted, Marked;
  }

  /** A DELETE that found the row active has failed it once its commit is queued. */
  lemma CommitMarks(s: State, t: TaskId, t0: Tables)
    requires t in s.tasks && StageOk(s, t, t0) && s.tasks[t].stage.Executing?
    requires s.tasks[t].point.Deleting? && s.tasks[t].changed
    ensures Marked(ApplyAll(s.log + [s.tasks[t].stage.stmt], t0), s.tasks[t].job)
  {
    LogSnoc(s.log, s.tasks[t].stage.stmt, t0);
    RowAfter(s.tasks[t].stage.stmt, Logical(s, t0), s.tasks[t].job);
    hide ApplyAll, Apply;
  }

  lemma CommitKeeps(s: State, t: TaskId, t0: Tables, before: set<FileId>)
    requires Inv(s, t0, before) && Enabled(s, QueueCommit(t, true))
    ensures Inv(Do(s, QueueCommit(t, true), t0), t0, before)
  {
    var s' := Do(s, QueueCommit(t, true), t0);
    InvParts(s, t0, before);
    LogSnoc(s.log, s.tasks[t].stage.stmt, t0);
    CommitLog(s, t, t0, before);
    forall x | x in s'.tasks ensures StageOk(s', x, t0) && RoleOk(s', x, t0) {
      CommitTasks(s, t, t0, before, x);
    }
    CommitNames(s, t, t0, before);
    hide *;
    MakeInv(s', t0, before);
  }

  lemma CommitNames(s: State, t: TaskId, t0: Tables, before: set<FileId>)
    requires Inv(s, t0, before) && Enabled(s, QueueCommit(t, true))
    ensures var s' := Do(s, QueueCommit(t, true), t0);
            RunnersOk(s') && (s'.holder.Some? ==> s'.holder.value in s'.tasks)
  {
    InvParts(s, t0, before);
    hide ApplyAll, Inv, StatementAt;
  }
}
