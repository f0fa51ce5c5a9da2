/** Every step of the video-job protocol keeps the link to the database underneath. */
module VideoJobLink {
  import opened Options
  import opened Tables
  import opened VideoJobs

  import Database

  lemma StagesOk(s: State, t0: Tables, before: set<FileId>)
    requires Inv(s, t0, before)
    ensures forall t :: t in s.tasks ==> StageOk(s, t, t0)
    ensures forall t :: t in s.tasks ==> (InBlock(s.tasks[t].stage) <==> s.holder == Some(t))
    ensures forall t :: t in s.tasks ==> (WritesAt(s.tasks[t].point) <==> s.tasks[t].stage != Outside)
  {
    hide LogOk, RoleOk, RunnersOk, ApplyAll, WritesAt, InBlock;
    forall t | t in s.tasks
      ensures InBlock(s.tasks[t].stage) <==> s.holder == Some(t)
      ensures WritesAt(s.tasks[t].point) <==> s.tasks[t].stage != Outside
    {
      assert StageOk(s, t, t0);
    }
  }

  lemma BackLinks(s: State, db: Database.State, t: TaskId, o: Outcome, message: string, t0: Tables)
    requires Linked(s, t0) && t in s.tasks
    requires Database.Inv(db, t0) && db.landed == s.db.landed
    requires if s.holder == Some(t) then db.holder.None? else db == s.db
    ensures Linked(Back(s.(db := db), t, o, message), t0)
  {
    hide Database.Inv, ApplyAll, Next, WritesAt;
  }

  lemma LinkKeeps(s: State, step: Step, t0: Tables, before: set<FileId>)
    requires Linked(s, t0) && Inv(s, t0, before) && Enabled(s, step)
    ensures Linked(Do(s, step, t0), t0)
  {
    hide Database.Inv, Inv, ApplyAll, StatementAt, Back, InRender, At;
    StagesOk(s, t0, before);
    match step
    case WorkerTurn => Database.StepKeeps(s.db, Database.WorkStep, t0);
    case Enter(t, now, ok) => EnterLinks(s, t, now, ok, t0);
    case QueueCommit(t, ok) => CommitLinks(s, t, ok, t0);
    case Return(t) => LeaveLinks(s, step, t0);
    case Fault(t) => Database.StepKeeps(s.db, Database.UndoStep, t0);
    case Leave(t, message) => LeaveLinks(s, step, t0);
    case Interrupt(t) => InterruptLinks(s, t, t0);
    case _ => OtherLinks(s, step, t0);
  }

  lemma LeaveLinks(s: State, step: Step, t0: Tables)
    requires Linked(s, t0) && Enabled(s, step) && (step.Return? || step.Leave?) && s.holder == Some(step.t)
    ensures Linked(Do(s, step, t0), t0)
  {
    hide Database.Inv, ApplyAll, StatementAt, Back, InRender, At;
    Database.StepKeeps(s.db, Database.ReleaseStep, t0);
    match step
    case Return(t) => BackLinks(s, Database.Release(s.db), t, Returned, "", t0);
    case Leave(t, message) => BackLinks(s, Database.Release(s.db), t, s.tasks[t].stage.outcome, message, t0);
  }

  lemma InterruptLinks(s: State, t: TaskId, t0: Tables)
    requires Linked(s, t0) && Enabled(s, Interrupt(t)) && (InBlock(s.tasks[t].stage) <==> s.holder == Some(t))
    ensures Linked(Do(s, Interrupt(t), t0), t0)
  {
    hide Database.Inv, ApplyAll, StatementAt, Back, InRender, At;
    if s.tasks[t].stage.Undoing? {
      Database.StepKeeps(s.db, Database.ReleaseStep, t0);
      BackLinks(s, Database.Release(s.db), t, Cancelled(s.tasks[t].cancel), "", t0);
    } else if s.tasks[t].stage.Executing? || s.tasks[t].stage.Committing? {
      Database.StepKeeps(s.db, Database.UndoStep, t0);
    } else {
      BackLinks(s, s.db, t, Cancelled(s.tasks[t].cancel), "", t0);
    }
  }

  /** Steps that leave the lock and the database alone. */
  lemma OtherLinks(s: State, step: Step, t0: Tables)
    requires Linked(s, t0) && Enabled(s, step)
    requires forall t :: t in s.tasks ==> (InBlock(s.tasks[t].stage) <==> s.holder == Some(t))
    requires forall t :: t in s.tasks ==> (WritesAt(s.tasks[t].point) <==> s.tasks[t].stage != Outside)
    requires !step.WorkerTurn? && !step.Enter? && !step.QueueCommit? && !step.Return? && !step.Fault? && !step.Leave?
    requires !step.Interrupt?
    ensures Linked(Do(s, step, t0), t0)
  {
    hide Database.Inv, ApplyAll, StatementAt, Back, InRender, At;
  }

  lemma EnterLinks(s: State, t: TaskId, now: int, ok: bool, t0: Tables)
    requires Linked(s, t0) && Enabled(s, Enter(t, now, ok))
    ensures Linked(Do(s, Enter(t, now, ok), t0), t0)
  {
    hide Database.Inv, ApplyAll, StatementAt;
    Database.StepKeeps(s.db, Database.AcquireStep, t0);
    var locked := Database.Acquire(s.db);
    var stmt := StatementAt(s.tasks[t], now);
    Database.StepKeeps(locked, Database.IssueStep(stmt, ok), t0);
    assert [] + [stmt] == [stmt];
  }

  lemma CommitLinks(s: State, t: TaskId, ok: bool, t0: Tables)
    requires Linked(s, t0) && Enabled(s, QueueCommit(t, ok)) && s.holder == Some(t)
    ensures Linked(Do(s, QueueCommit(t, ok), t0), t0)
  {
    hide Database.Inv, ApplyAll;
    Database.StepKeeps(s.db, Database.CommitStep(ok), t0);
  }
}
