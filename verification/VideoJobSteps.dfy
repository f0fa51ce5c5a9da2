/** Every step of the video-job protocol that commits nothing keeps the invariant. */
module VideoJobSteps {
  import opened Options
  import opened Tables
  import opened VideoJobs

  import Database

  /** What is said of the log alone outlives new job ids. */
  lemma LogFrame(s: State, s': State, t0: Tables, before: set<FileId>)
    requires Inv(s, t0, before)
    requires s'.log == s.log && s.posts.Keys <= s'.posts.Keys
    ensures LogOk(s'.log, s'.posts.Keys, t0, before)
    ensures Logical(s', t0) == Logical(s, t0) && Logical(s', t0).jobs.Keys <= s'.posts.Keys
  {
  }

  lemma InvParts(s: State, t0: Tables, before: set<FileId>)
    requires Inv(s, t0, before)
    ensures RunnersOk(s) && (s.holder.Some? ==> s.holder.value in s.tasks)
  {
  }

  lemma MakeInv(s: State, t0: Tables, before: set<FileId>)
    requires forall t :: t in s.tasks ==> StageOk(s, t, t0) && RoleOk(s, t, t0)
    requires s.holder.Some? ==> s.holder.value in s.tasks
    requires RunnersOk(s) && Logical(s, t0).jobs.Keys <= s.posts.Keys
    requires LogOk(s.log, s.posts.Keys, t0, before)
    ensures Inv(s, t0, before)
  {
    hide StageOk, RoleOk, RunnersOk, LogOk, ApplyAll;
  }

  /** `s'` is `s` with task `t` moved on and the lock perhaps taken or dropped by it. */
  ghost predicate OneTask(s: State, s': State, t: TaskId) {
    && t in s.tasks && t in s'.tasks && s'.tasks == s.tasks[t := s'.tasks[t]]
    && s'.log == s.log && s'.runners == s.runners && s'.posts == s.posts
    && (s'.holder == s.holder || (s.holder == Some(t) && s'.holder == None) || (s.holder == None && s'.holder == Some(t)))
    && s'.tasks[t].job == s.tasks[t].job
    && (IsPost(s'.tasks[t].point) ==> IsPost(s.tasks[t].point))
    && (IsPost(s.tasks[t].point) || s.tasks[t].point.Ended? ==> IsPost(s'.tasks[t].point) || s'.tasks[t].point.Ended?)
    && (s.tasks[t].job in s.runners && s.runners[s.tasks[t].job] == t ==>
          IsRunner(s'.tasks[t].point) || s'.tasks[t].point.Ended?)
  }

  lemma OneTaskRegistry(s: State, s': State, t: TaskId)
    requires OneTask(s, s', t) && RunnersOk(s)
    ensures RunnersOk(s')
  {
  }

  /** One task moves on; nothing else changes but the lock it may take or drop. */
  lemma OneTaskKeeps(s: State, s': State, t: TaskId, t0: Tables, before: set<FileId>)
    requires Inv(s, t0, before) && OneTask(s, s', t)
    requires StageOk(s', t, t0) && RoleOk(s', t, t0)
    ensures Inv(s', t0, before)
  {
    hide Inv, ApplyAll, StageOk, RoleOk, RunnersOk, LogOk;
    LogFrame(s, s', t0, before);
    OthersKeep(s, s', t, t0, before);
    InvParts(s, t0, before);
    OneTaskRegistry(s, s', t);
    MakeInv(s', t0, before);
  }

  lemma OthersKeep(s: State, s': State, t: TaskId, t0: Tables, before: set<FileId>)
    requires Inv(s, t0, before)
    requires forall x :: x in s.tasks && x != t ==> x in s'.tasks && s'.tasks[x] == s.tasks[x]
    requires s'.log == s.log && s'.posts.Keys >= s.posts.Keys
    requires forall job :: job in s.posts ==> s'.posts[job] == s.posts[job]
    requires forall job :: job in s.runners ==> job in s'.runners && s'.runners[job] == s.runners[job]
    requires forall job :: job in s'.runners && job !in s.runners ==> job in s.posts && s.posts[job] == t
    requires s'.holder == s.holder || (s.holder == Some(t) && s'.holder == None) || (s.holder == None && s'.holder == Some(t))
    ensures forall x :: x in s.tasks && x != t ==> StageOk(s', x, t0) && RoleOk(s', x, t0)
  {
    hide ApplyAll, StatementAt, LogOk, Unborn, IsChore, Inserted;
    forall x | x in s.tasks && x != t ensures StageOk(s', x, t0) && RoleOk(s', x, t0) {
      assert StageOk(s, x, t0) && RoleOk(s, x, t0);
    }
  }

  lemma TaskOk(s: State, t: TaskId, t0: Tables, before: set<FileId>)
    requires Inv(s, t0, before) && t in s.tasks
    ensures StageOk(s, t, t0) && RoleOk(s, t, t0)
    ensures s.tasks[t].job in s.runners && s.runners[s.tasks[t].job] == t ==>
              IsRunner(s.tasks[t].point) || s.tasks[t].point.Ended?
    ensures s.holder.Some? ==> s.holder.value in s.tasks
  {
  }

  /** `s'` is `s` with a new task `t`, perhaps the POST that drew a new job id. */
  ghost predicate NewTask(s: State, s': State, t: TaskId) {
    && t !in s.tasks && t in s'.tasks && s'.tasks == s.tasks[t := s'.tasks[t]]
    && s'.log == s.log && s'.runners == s.runners && s'.holder == s.holder
    && (s'.posts == s.posts || (s'.tasks[t].job !in s.posts && s'.posts == s.posts[s'.tasks[t].job := t]))
    && (IsPost(s'.tasks[t].point) <==> s'.posts != s.posts)
    && !IsRunner(s'.tasks[t].point) && s'.tasks[t].stage == Waiting && WritesAt(s'.tasks[t].point) && t > 0
    && (s'.tasks[t].point.Chore? ==> IsChore(s'.tasks[t].point.chore))
  }

  lemma NewTaskOk(s: State, s': State, t: TaskId, t0: Tables, before: set<FileId>)
    requires Inv(s, t0, before) && NewTask(s, s', t)
    ensures StageOk(s', t, t0) && RoleOk(s', t, t0) && RunnersOk(s')
  {
    if IsPost(s'.tasks[t].point) {
      FreshIsUnborn(s, s'.tasks[t].job, t0, before);
    }
    InvParts(s, t0, before);
    assert s.holder != Some(t);
    hide Inv, ApplyAll, Unborn, IsChore, StatementAt, LogOk;
  }

  lemma NewTaskKeeps(s: State, s': State, t: TaskId, t0: Tables, before: set<FileId>)
    requires Inv(s, t0, before) && NewTask(s, s', t)
    ensures Inv(s', t0, before)
  {
    hide Inv, ApplyAll, StageOk, RoleOk, RunnersOk, LogOk, IsChore, WritesAt;
    assert s.posts.Keys <= s'.posts.Keys;
    LogFrame(s, s', t0, before);
    OthersKeep(s, s', t, t0, before);
    InvParts(s, t0, before);
    NewTaskOk(s, s', t, t0, before);
    JobsDrawn(s, t0, before);
    MakeInv(s', t0, before);
  }

  lemma JobsDrawn(s: State, t0: Tables, before: set<FileId>)
    requires Inv(s, t0, before)
    ensures Logical(s, t0).jobs.Keys <= s.posts.Keys
  {
  }

  lemma FreshIsUnborn(s: State, job: JobId, t0: Tables, before: set<FileId>)
    requires Inv(s, t0, before) && job !in s.posts
    ensures Unborn(s.log, t0, job) && job !in s.runners && job !in Logical(s, t0).jobs
  {
    forall p | 0 <= p <= |s.log| ensures job !in ApplyAll(s.log[..p], t0).jobs {
      assert ApplyAll(s.log[..p], t0).jobs.Keys <= s.posts.Keys;
    }
  }

  lemma SubmitOk(s: State, t: TaskId, runner: TaskId, t0: Tables)
    requires Enabled(s, Submit(t, runner)) && RunnersOk(s) && StageOk(s, t, t0) && RoleOk(s, t, t0)
    requires s.holder.Some? ==> s.holder.value in s.tasks
    ensures var s' := Do(s, Submit(t, runner), t0);
            && StageOk(s', t, t0) && RoleOk(s', t, t0) && StageOk(s', runner, t0) && RoleOk(s', runner, t0)
            && RunnersOk(s')
  {
    hide ApplyAll, Unborn;
  }

  lemma SubmitShape(s: State, t: TaskId, runner: TaskId, t0: Tables)
    requires Enabled(s, Submit(t, runner))
    ensures var s' := Do(s, Submit(t, runner), t0);
            && s'.tasks.Keys == s.tasks.Keys + {t, runner} && t in s.tasks && runner !in s.tasks
            && (forall x :: x in s.tasks && x != t ==> x in s'.tasks && s'.tasks[x] == s.tasks[x])
            && s'.log == s.log && s'.posts == s.posts && s'.holder == s.holder
            && s'.runners == s.runners[s.tasks[t].job := runner]
  {
    hide ApplyAll, WritesAt;
  }

  lemma SubmitKeeps(s: State, t: TaskId, runner: TaskId, t0: Tables, before: set<FileId>)
    requires Inv(s, t0, before) && Enabled(s, Submit(t, runner))
    ensures Inv(Do(s, Submit(t, runner), t0), t0, before)
  {
    var s' := Do(s, Submit(t, runner), t0);
    SubmitShape(s, t, runner, t0);
    TaskOk(s, t, t0, before);
    assert s.tasks[t].job in s.posts && s.posts[s.tasks[t].job] == t && s.tasks[t].job !in s.runners;
    hide *;
    LogFrame(s, s', t0, before);
    OthersKeep(s, s', t, t0, before);
    InvParts(s, t0, before);
    SubmitOk(s, t, runner, t0);
    MakeInv(s', t0, before);
  }

  lemma ArriveKeeps(s: State, step: Step, t0: Tables, before: set<FileId>)
    requires Inv(s, t0, before) && Enabled(s, step)
    requires step.PostArrives? || step.DeleteArrives? || step.ChoreArrives?
    ensures Inv(Do(s, step, t0), t0, before)
  {
    hide Inv, StageOk, RoleOk;
    NewTaskKeeps(s, Do(s, step, t0), step.t, t0, before);
  }

  /** The end of a block is legitimate for the stage it is reached from. */
  predicate EndsWith(task: Task, o: Outcome) {
    match o
    case Returned => task.stage == Committing(true) && task.cancel == Uncancelled
    case Raised => task.stage == Undoing(Raised) && task.cancel == Uncancelled
    case Cancelled(cause) =>
      && !task.stage.Executing? && !task.stage.Committing?
      && (task.cancel != Uncancelled || (task.stage.Undoing? && task.stage.outcome == o))
  }

  lemma BackOk(s: State, s': State, t: TaskId, o: Outcome, message: string, t0: Tables)
    requires t in s.tasks && StageOk(s, t, t0) && RoleOk(s, t, t0)
    requires !s.tasks[t].point.Ended? && EndsWith(s.tasks[t], o) && !(s.tasks[t].point.Deleting? && o.Returned?)
    requires s.tasks[t].job in s.runners && s.runners[s.tasks[t].job] == t ==> IsRunner(s.tasks[t].point)
    requires s' == Put(s.(db := s'.db, holder := if s.holder == Some(t) then None else s.holder), t,
                       At(s.tasks[t], Next(s.tasks[t].point, o, message)))
    ensures OneTask(s, s', t) && StageOk(s', t, t0) && RoleOk(s', t, t0)
  {
    hide ApplyAll, StatementAt, Unborn, IsChore, Inserted;
  }

  lemma BackKeeps(s: State, db: Database.State, t: TaskId, o: Outcome, message: string, t0: Tables, before: set<FileId>)
    requires Inv(s, t0, before) && t in s.tasks && !s.tasks[t].point.Ended? && EndsWith(s.tasks[t], o)
    ensures Inv(Back(s.(db := db), t, o, message), t0, before)
  {
    TaskOk(s, t, t0, before);
    var s' := Back(s.(db := db), t, o, message);
    if s.tasks[t].point.Deleting? && o.Returned? {
      DeleteReturns(s, db, t, message, t0, before);
    } else {
      assert s' == Put(s.(db := s'.db, holder := if s.holder == Some(t) then None else s.holder), t,
                       At(s.tasks[t], Next(s.tasks[t].point, o, message)));
      hide *;
      BackOk(s, s', t, o, message, t0);
      OneTaskKeeps(s, s', t, t0, before);
    }
  }

  lemma CancelRunnerKeeps(s: State, job: JobId, t0: Tables, before: set<FileId>)
    requires Inv(s, t0, before)
    ensures Inv(CancelRunner(s, job), t0, before)
  {
    hide Inv;
    var s' := CancelRunner(s, job);
    if s' != s {
      CancelKeeps(s, s', s.runners[job], ByOthers, t0, before);
    }
  }

  lemma DeleteReturns(s: State, db: Database.State, t: TaskId, message: string, t0: Tables, before: set<FileId>)
    requires Inv(s, t0, before) && t in s.tasks && s.tasks[t].point.Deleting? && s.tasks[t].stage == Committing(true)
    ensures Inv(Back(s.(db := db), t, Returned, message), t0, before)
  {
    TaskOk(s, t, t0, before);
    var task := s.tasks[t];
    var asked := CancelRunner(s, task.job);
    CancelRunnerKeeps(s, task.job, t0, before);
    var s' := Back(s.(db := db), t, Returned, message);
    DeleteShape(s, db, t, message);
    TaskOk(asked, t, t0, before);
    hide *;
    DeleteOk(asked, s', t, t0);
    OneTaskKeeps(asked, s', t, t0, before);
  }

  lemma DeleteShape(s: State, db: Database.State, t: TaskId, message: string)
    requires t in s.tasks && s.tasks[t].point.Deleting?
    requires s.tasks[t].job in s.runners && s.runners[s.tasks[t].job] == t ==>
              IsRunner(s.tasks[t].point) || s.tasks[t].point.Ended?
    ensures var s' := Back(s.(db := db), t, Returned, message);
            var asked := CancelRunner(s, s.tasks[t].job);
            && t in asked.tasks && asked.tasks[t] == s.tasks[t]
            && s' == asked.(db := db, tasks := asked.tasks[t := At(s.tasks[t], Ended)],
                            holder := if s.holder == Some(t) then None else s.holder)
            && asked.holder == s.holder
  {
    hide WritesAt;
    var s' := Back(s.(db := db), t, Returned, message);
    var asked := CancelRunner(s, s.tasks[t].job);
    assert s'.tasks == asked.tasks[t := At(s.tasks[t], Ended)];
  }

  lemma DeleteOk(s: State, s': State, t: TaskId, t0: Tables)
    requires t in s.tasks && StageOk(s, t, t0) && RoleOk(s, t, t0)
    requires s.tasks[t].point.Deleting? && s.tasks[t].stage == Committing(true)
    requires s.tasks[t].job in s.runners && s.runners[s.tasks[t].job] == t ==>
              IsRunner(s.tasks[t].point) || s.tasks[t].point.Ended?
    requires s' == s.(db := s'.db, tasks := s.tasks[t := At(s.tasks[t], Ended)],
                      holder := if s.holder == Some(t) then None else s.holder)
    ensures OneTask(s, s', t) && StageOk(s', t, t0) && RoleOk(s', t, t0)
  {
    hide ApplyAll, StatementAt, Unborn, IsChore, Inserted;
  }

  lemma EnterKeeps(s: State, t: TaskId, now: int, ok: bool, t0: Tables, before: set<FileId>)
    requires Inv(s, t0, before) && Enabled(s, Enter(t, now, ok)) && s.holder.None?
    ensures Inv(Do(s, Enter(t, now, ok), t0), t0, before)
  {
    TaskOk(s, t, t0, before);
    hide Inv, ApplyAll, Unborn, IsChore, Inserted;
    OneTaskKeeps(s, Do(s, Enter(t, now, ok), t0), t, t0, before);
  }

  lemma MoveOk(s: State, s': State, t: TaskId, p: Point, t0: Tables)
    requires t in s.tasks && StageOk(s, t, t0) && RoleOk(s, t, t0) && Running(s, t)
    requires s.tasks[t].point.Queueing? || s.tasks[t].point.Rendering?
    requires p.Starting? || p.NotingUpstream? || p.Storing? || p.Failing?
    requires s' == Put(s, t, At(s.tasks[t], p)).(files := s'.files)
    ensures OneTask(s, s', t) && StageOk(s', t, t0) && RoleOk(s', t, t0)
  {
    hide ApplyAll, StatementAt, Unborn, IsChore, Inserted;
  }

  lemma RenderKeeps(s: State, s': State, t: TaskId, p: Point, t0: Tables, before: set<FileId>)
    requires Inv(s, t0, before) && Running(s, t)
    requires s.tasks[t].point.Queueing? || s.tasks[t].point.Rendering?
    requires p.Starting? || p.NotingUpstream? || p.Storing? || p.Failing?
    requires s' == Put(s, t, At(s.tasks[t], p)).(files := s'.files)
    ensures Inv(s', t0, before)
  {
    TaskOk(s, t, t0, before);
    hide *;
    MoveOk(s, s', t, p, t0);
    OneTaskKeeps(s, s', t, t0, before);
  }

  lemma CancelOk(s: State, s': State, t: TaskId, c: Cancel, t0: Tables)
    requires t in s.tasks && StageOk(s, t, t0) && RoleOk(s, t, t0)
    requires s.tasks[t].job in s.runners && s.runners[s.tasks[t].job] == t ==>
              IsRunner(s.tasks[t].point) || s.tasks[t].point.Ended?
    requires s' == Put(s, t, s.tasks[t].(cancel := c)) && c != Uncancelled
    ensures OneTask(s, s', t) && StageOk(s', t, t0) && RoleOk(s', t, t0)
  {
    hide ApplyAll, Unborn, IsChore, Inserted;
  }

  lemma CancelKeeps(s: State, s': State, t: TaskId, c: Cancel, t0: Tables, before: set<FileId>)
    requires Inv(s, t0, before) && t in s.tasks
    requires s' == Put(s, t, s.tasks[t].(cancel := c)) && c != Uncancelled
    ensures Inv(s', t0, before)
  {
    TaskOk(s, t, t0, before);
    hide *;
    CancelOk(s, s', t, c, t0);
    OneTaskKeeps(s, s', t, t0, before);
  }

  lemma UndoOk(s: State, s': State, t: TaskId, o: Outcome, t0: Tables)
    requires t in s.tasks && StageOk(s, t, t0) && RoleOk(s, t, t0)
    requires s.tasks[t].job in s.runners && s.runners[s.tasks[t].job] == t ==>
              IsRunner(s.tasks[t].point) || s.tasks[t].point.Ended?
    requires s.tasks[t].stage.Executing? || s.tasks[t].stage.Committing?
    requires !o.Returned? && (o.Raised? ==> s.tasks[t].cancel == Uncancelled && s.tasks[t].stage != Committing(true))
    requires s' == s.(tasks := s.tasks[t := s.tasks[t].(stage := Undoing(o), cancel := Uncancelled)], db := s'.db)
    ensures OneTask(s, s', t) && StageOk(s', t, t0) && RoleOk(s', t, t0)
  {
    hide ApplyAll, StatementAt, Unborn, IsChore, Inserted;
  }

  lemma UndoKeeps(s: State, s': State, t: TaskId, o: Outcome, t0: Tables, before: set<FileId>)
    requires Inv(s, t0, before) && t in s.tasks
    requires s.tasks[t].stage.Executing? || s.tasks[t].stage.Committing?
    requires !o.Returned? && (o.Raised? ==> s.tasks[t].cancel == Uncancelled && s.tasks[t].stage != Committing(true))
    requires s' == s.(tasks := s.tasks[t := s.tasks[t].(stage := Undoing(o), cancel := Uncancelled)], db := s'.db)
    ensures Inv(s', t0, before)
  {
    TaskOk(s, t, t0, before);
    hide *;
    UndoOk(s, s', t, o, t0);
    OneTaskKeeps(s, s', t, t0, before);
  }

  lemma FaultKeeps(s: State, t: TaskId, t0: Tables, before: set<FileId>)
    requires Inv(s, t0, before) && Enabled(s, Fault(t))
    ensures Inv(Do(s, Fault(t), t0), t0, before)
  {
    hide Inv, StatementAt, ApplyAll, Back;
    UndoKeeps(s, Do(s, Fault(t), t0), t, Raised, t0, before);
  }

  lemma InterruptKeeps(s: State, t: TaskId, t0: Tables, before: set<FileId>)
    requires Inv(s, t0, before) && Enabled(s, Interrupt(t))
    requires s.tasks[t].stage.Executing? || s.tasks[t].stage.Committing?
    ensures Inv(Do(s, Interrupt(t), t0), t0, before)
  {
    hide Inv, StatementAt, ApplyAll, Back, WritesAt;
    var s' := Do(s, Interrupt(t), t0);
    UndoKeeps(s, s', t, Cancelled(s.tasks[t].cancel), t0, before);
  }
}
