/** Where a finished row is overwritten: from every state in which somebody is left who can, a way
    on that does it. */
module VideoJobHoles {
  import opened Options
  import opened Tables
  import opened VideoJobs
  import opened VideoJobCommits
  import opened VideoJobRows
  import opened VideoJobRuns
  import opened VideoJobSteps

  import Database

  // ----- Ways on -----

  ghost predicate Leads(states: seq<State>, steps: seq<Step>, s: State, r: State, t0: Tables) {
    IsPath(states, steps, t0) && states[0] == s && states[|steps|] == r
  }

  ghost predicate Reaches(s: State, r: State, t0: Tables) {
    exists states, steps :: Leads(states, steps, s, r, t0)
  }

  ghost predicate Sound(s: State, t0: Tables, before: set<FileId>) {
    Inv(s, t0, before) && Linked(s, t0)
  }

  lemma Joins(a: seq<State>, x: seq<Step>, b: seq<State>, y: seq<Step>, t0: Tables)
    requires IsPath(a, x, t0) && IsPath(b, y, t0) && a[|x|] == b[0]
    ensures IsPath(a + b[1..], x + y, t0) && (a + b[1..])[|x + y|] == b[|y|] && (a + b[1..])[0] == a[0]
  {
    var states, steps := a + b[1..], x + y;
    hide Enabled, Do;
    assert forall i :: 0 <= i <= |y| ==> states[|x| + i] == b[i];
    forall i | 0 <= i < |steps| ensures Enabled(states[i], steps[i]) && states[i + 1] == Do(states[i], steps[i], t0) {
      if i >= |x| {
        assert steps[i] == y[i - |x|] && states[i + 1] == b[i - |x| + 1];
      }
    }
  }

  lemma Further(s: State, m: State, r: State, t0: Tables)
    requires Reaches(s, m, t0) && Reaches(m, r, t0)
    ensures Reaches(s, r, t0)
  {
    hide IsPath, Enabled, Do;
    var a, x :| Leads(a, x, s, m, t0);
    var b, y :| Leads(b, y, m, r, t0);
    assert |a| == |x| + 1 && |b| == |y| + 1 by {
      PathLength(a, x, t0);
      PathLength(b, y, t0);
    }
    Joins(a, x, b, y, t0);
    assert Leads(a + b[1..], x + y, s, r, t0);
  }

  lemma Here(s: State, t0: Tables)
    ensures Reaches(s, s, t0)
  {
    assert Leads([s], [], s, s, t0);
  }

  lemma Goes(s: State, step: Step, t0: Tables, before: set<FileId>)
    requires Sound(s, t0, before) && Enabled(s, step)
    ensures Sound(Do(s, step, t0), t0, before) && Reaches(s, Do(s, step, t0), t0)
  {
    hide Inv, Linked, Enabled, Do;
    assert Leads([s, Do(s, step, t0)], [step], s, Do(s, step, t0), t0);
    StepKeeps(s, step, t0, before);
  }

  /** The worker empties its queue. */
  lemma {:induction false} Drains(s: State, t0: Tables, before: set<FileId>) returns (r: State)
    requires Sound(s, t0, before)
    ensures Sound(r, t0, before) && Reaches(s, r, t0)
    ensures r == s.(db := r.db) && r.db.conn.queue == []
    decreases |s.db.conn.queue|
  {
    hide Inv, Linked, Reaches;
    if s.db.conn.queue == [] {
      Here(s, t0);
      r := s;
    } else {
      Goes(s, WorkerTurn, t0, before);
      var next := Do(s, WorkerTurn, t0);
      r := Drains(next, t0, before);
      Further(s, next, r, t0);
    }
  }

  /** With nothing queued, what is committed is what the log says. */
  lemma AtRest(s: State, t0: Tables, before: set<FileId>)
    requires Sound(s, t0, before) && s.db.conn.queue == []
    ensures Committed(s) == Logical(s, t0) && Landed(s) == |s.log|
  {
    CommittedIsLog(s, t0);
    hide ApplyAll;
    assert s.log[..|s.log|] == s.log;
  }

  /** What the lock's holder may do next. */
  lemma HolderMay(s: State, t0: Tables, before: set<FileId>)
    requires Sound(s, t0, before)
    ensures s.holder.None? ==> Database.CanAcquire(s.db)
    ensures s.holder.Some? ==> s.holder.value in s.tasks && InBlock(s.tasks[s.holder.value].stage)
    ensures s.holder.Some? ==> var g := s.tasks[s.holder.value].stage;
              && (g.Executing? && g.ok ==> Database.CanIssue(s.db))
              && (g.Executing? || g.Committing? ==> Database.CanUndo(s.db))
              && (g.Undoing? || (g == Committing(true) && s.db.conn.queue == []) ==> Database.CanRelease(s.db))
  {
    hide Inv, ApplyAll, Database.Inv;
  }

  lemma TaskStands(s: State, t: TaskId, t0: Tables, before: set<FileId>)
    requires Sound(s, t0, before) && t in s.tasks
    ensures t > 0 && (InBlock(s.tasks[t].stage) <==> s.holder == Some(t))
    ensures WritesAt(s.tasks[t].point) <==> s.tasks[t].stage != Outside
    ensures s.tasks[t].stage.Undoing? ==> !s.tasks[t].stage.outcome.Returned?
  {
    TaskOk(s, t, t0, before);
    hide Inv, Linked, ApplyAll, RoleOk, Marked, StatementAt;
  }

  /** `r` is `s` with one task moved on and nothing new in the log. */
  ghost predicate Beside(s: State, r: State, t: TaskId) {
    && t in s.tasks && t in r.tasks && r.tasks == s.tasks[t := r.tasks[t]]
    && r.log == s.log && r.posts == s.posts && r.runners == s.runners
  }

  predicate Stands(task: Task, job: JobId, p: Point) {
    && task.job == job && task.point == p && task.cancel == Uncancelled
    && task.stage == if WritesAt(p) then Waiting else Outside
  }

  // ----- A runner made to fail -----

  /** A block that rolls back and is no DELETE about to come back with success. */
  predicate BacksOut(task: Task) {
    task.stage.Undoing? && !task.stage.outcome.Returned?
  }

  /** A block that has begun to roll back. */
  lemma LeavesBlock(s: State, t: TaskId, message: string, t0: Tables, before: set<FileId>) returns (r: State)
    requires Sound(s, t0, before) && s.holder == Some(t) && Running(s, t)
    requires BacksOut(s.tasks[t])
    ensures Sound(r, t0, before) && Reaches(s, r, t0) && r.holder.None? && Beside(s, r, t)
    ensures Stands(r.tasks[t], s.tasks[t].job, Next(s.tasks[t].point, s.tasks[t].stage.outcome, message))
  {
    hide Inv, Linked, Reaches, StatementAt, ApplyAll, Next;
    var drained := Drains(s, t0, before);
    HolderMay(drained, t0, before);
    Goes(drained, Leave(t, message), t0, before);
    r := Do(drained, Leave(t, message), t0);
    Further(s, drained, r, t0);
  }

  /** Whoever holds the lock can be made to leave it, with nothing committed. */
  lemma FreesLock(s: State, t0: Tables, before: set<FileId>) returns (r: State)
    requires Sound(s, t0, before) && s.holder.Some?
    ensures Sound(r, t0, before) && Reaches(s, r, t0)
    ensures Beside(s, r, s.holder.value) && r.holder.None? && r.db.conn.queue == []
  {
    var h := s.holder.value;
    hide Sound, Reaches, Beside, BacksOut, Stands, Next;
    r := StopsHolder(s, t0, before);
    if r.holder.Some? {
      var stopped := r;
      var drained := Drains(stopped, t0, before);
      r := LeavesBlock(drained, h, "", t0, before);
      Further(s, stopped, drained, t0);
      Further(s, drained, r, t0);
      StillBeside(s, stopped, drained, r, h);
    }
    var free := r;
    r := Drains(free, t0, before);
    Further(s, free, r, t0);
    StillBeside(s, s, free, r, h);
  }

  /** Steps of one task, with the worker's turns between. */
  lemma StillBeside(s: State, m: State, n: State, r: State, t: TaskId)
    requires (m == s || Beside(s, m, t)) && (n == m.(db := n.db) || Beside(m, n, t)) && (r == n.(db := r.db) || Beside(n, r, t))
    requires t in s.tasks
    ensures Beside(s, r, t)
  {
  }

  /** Cancelled, the lock's holder lets go of it or begins to roll back. */
  lemma StopsHolder(s: State, t0: Tables, before: set<FileId>) returns (r: State)
    requires Sound(s, t0, before) && s.holder.Some?
    ensures Sound(r, t0, before) && Reaches(s, r, t0) && Beside(s, r, s.holder.value)
    ensures || r.holder.None?
            || (r.holder == s.holder && Running(r, r.holder.value) && BacksOut(r.tasks[r.holder.value]))
  {
    hide Inv, Linked, Reaches, StatementAt, ApplyAll, Next;
    var h := s.holder.value;
    HolderMay(s, t0, before);
    TaskStands(s, h, t0, before);
    Goes(s, RequestCancel(h), t0, before);
    var asked := Do(s, RequestCancel(h), t0);
    Goes(asked, Interrupt(h), t0, before);
    r := Do(asked, Interrupt(h), t0);
    Further(s, asked, r, t0);
  }

  /** A block whose statement or commit is to fail. */
  lemma FaultsBlock(s: State, t: TaskId, message: string, t0: Tables, before: set<FileId>) returns (r: State)
    requires Sound(s, t0, before) && s.holder == Some(t) && Running(s, t) && !s.tasks[t].point.Deleting?
    requires (s.tasks[t].stage.Executing? && !s.tasks[t].stage.ok) || s.tasks[t].stage == Committing(false)
    ensures Sound(r, t0, before) && Reaches(s, r, t0) && r.holder.None? && Beside(s, r, t)
    ensures Stands(r.tasks[t], s.tasks[t].job, Next(s.tasks[t].point, Raised, message))
  {
    hide Inv, Linked, Reaches, StatementAt, ApplyAll, Next;
    var drained := Drains(s, t0, before);
    HolderMay(drained, t0, before);
    Goes(drained, Fault(t), t0, before);
    var undoing := Do(drained, Fault(t), t0);
    Further(s, drained, undoing, t0);
    r := LeavesBlock(undoing, t, message, t0, before);
    Further(s, undoing, r, t0);
  }

  /** Any block whose commit is not queued can fail. */
  lemma FailsBlock(s: State, t: TaskId, message: string, t0: Tables, before: set<FileId>) returns (r: State)
    requires Sound(s, t0, before) && s.holder == Some(t) && Running(s, t) && !s.tasks[t].point.Deleting?
    requires s.tasks[t].stage != Committing(true) && !(s.tasks[t].stage.Undoing? && s.tasks[t].stage.outcome.Cancelled?)
    ensures Sound(r, t0, before) && Reaches(s, r, t0) && r.holder.None? && Beside(s, r, t)
    ensures Stands(r.tasks[t], s.tasks[t].job, Next(s.tasks[t].point, Raised, message))
  {
    hide Inv, Linked, Reaches, StatementAt, ApplyAll, Next;
    TaskStands(s, t, t0, before);
    if s.tasks[t].stage.Undoing? {
      r := LeavesBlock(s, t, message, t0, before);
    } else if s.tasks[t].stage.Executing? && s.tasks[t].stage.ok {
      var drained := Drains(s, t0, before);
      HolderMay(drained, t0, before);
      Goes(drained, QueueCommit(t, false), t0, before);
      var failing := Do(drained, QueueCommit(t, false), t0);
      Further(s, drained, failing, t0);
      r := FaultsBlock(failing, t, message, t0, before);
      Further(s, failing, r, t0);
    } else {
      r := FaultsBlock(s, t, message, t0, before);
    }
  }

  /** A write that has not begun can fail. */
  lemma FailsWrite(s: State, t: TaskId, message: string, t0: Tables, before: set<FileId>) returns (r: State)
    requires Sound(s, t0, before) && s.holder.None? && Running(s, t) && !s.tasks[t].point.Deleting?
    requires WritesAt(s.tasks[t].point) && s.tasks[t].stage.Waiting?
    ensures Sound(r, t0, before) && Reaches(s, r, t0) && r.holder.None? && Beside(s, r, t)
    ensures Stands(r.tasks[t], s.tasks[t].job, Next(s.tasks[t].point, Raised, message))
  {
    hide Inv, Linked, Reaches, StatementAt, ApplyAll, Next, WritesAt;
    HolderMay(s, t0, before);
    Goes(s, Enter(t, 0, false), t0, before);
    var begun := Do(s, Enter(t, 0, false), t0);
    r := FaultsBlock(begun, t, message, t0, before);
    Further(s, begun, r, t0);
  }

  /** A queued commit comes back. */
  lemma Succeeds(s: State, t: TaskId, t0: Tables, before: set<FileId>) returns (r: State)
    requires Sound(s, t0, before) && s.holder == Some(t) && Running(s, t) && !s.tasks[t].point.Deleting?
    requires s.tasks[t].stage == Committing(true)
    ensures Sound(r, t0, before) && Reaches(s, r, t0) && r.holder.None? && Beside(s, r, t)
    ensures Stands(r.tasks[t], s.tasks[t].job, Next(s.tasks[t].point, Returned, ""))
  {
    hide Inv, Linked, Reaches, StatementAt, ApplyAll, Next;
    var drained := Drains(s, t0, before);
    HolderMay(drained, t0, before);
    Goes(drained, Return(t), t0, before);
    r := Do(drained, Return(t), t0);
    Further(s, drained, r, t0);
  }

  /** A runner on its way, with nothing that stops it. */
  predicate OnItsWay(task: Task) {
    && (task.point.Queueing? || InRender(task.point)) && task.cancel == Uncancelled
    && !(task.stage.Undoing? && task.stage.outcome.Cancelled?)
    && !(task.point.Completing? && task.stage == Committing(true))
  }

  /** How far a runner is from failing. */
  function Distance(task: Task): nat {
    if task.point.Rendering? || task.point.Completing? then 1
    else if task.point.Queueing? then 3
    else if task.point.NotingUpstream? || task.stage == Committing(true) then 2
    else 1
  }

  /** The next task is failing, or nearer to it. */
  predicate Nears(task: Task, next: Task, message: string) {
    || Stands(next, task.job, Failing(message))
    || (next.job == task.job && OnItsWay(next) && Distance(next) < Distance(task))
  }

  lemma FailureNears(task: Task, next: Task, message: string)
    requires OnItsWay(task) && WritesAt(task.point) && Stands(next, task.job, Next(task.point, Raised, message))
    ensures Nears(task, next, message)
  {
  }

  lemma ReturnNears(task: Task, next: Task, message: string)
    requires OnItsWay(task) && WritesAt(task.point) && task.stage == Committing(true) && Stands(next, task.job, Next(task.point, Returned, ""))
    ensures Nears(task, next, message)
  {
  }

  /** One piece of a runner's way towards failing. */
  lemma Nearer(s: State, t: TaskId, message: string, t0: Tables, before: set<FileId>) returns (r: State)
    requires Sound(s, t0, before) && t in s.tasks && OnItsWay(s.tasks[t]) && (s.holder.None? || s.holder == Some(t))
    ensures Sound(r, t0, before) && Reaches(s, r, t0) && Beside(s, r, t) && r.holder.None?
    ensures Nears(s.tasks[t], r.tasks[t], message)
  {
    TaskStands(s, t, t0, before);
    if InBlock(s.tasks[t].stage) {
      hide Sound, Reaches, Beside, Stands, Nears;
      if s.tasks[t].stage == Committing(true) {
        r := Succeeds(s, t, t0, before);
        ReturnNears(s.tasks[t], r.tasks[t], message);
      } else {
        r := FailsBlock(s, t, message, t0, before);
        FailureNears(s.tasks[t], r.tasks[t], message);
      }
    } else if WritesAt(s.tasks[t].point) {
      hide Sound, Reaches, Beside, Stands, Nears;
      r := FailsWrite(s, t, message, t0, before);
      FailureNears(s.tasks[t], r.tasks[t], message);
    } else {
      r := NearerOutside(s, t, message, t0, before);
    }
  }

  lemma NearerOutside(s: State, t: TaskId, message: string, t0: Tables, before: set<FileId>) returns (r: State)
    requires Sound(s, t0, before) && Running(s, t) && s.holder.None?
    requires s.tasks[t].point.Queueing? || s.tasks[t].point.Rendering?
    ensures Sound(r, t0, before) && Reaches(s, r, t0) && Beside(s, r, t) && r.holder.None?
    ensures Nears(s.tasks[t], r.tasks[t], message)
  {
    hide Inv, Linked, Reaches, StatementAt, ApplyAll;
    var step := if s.tasks[t].point.Queueing? then GetPermit(t) else RenderFails(t, message);
    Goes(s, step, t0, before);
    r := Do(s, step, t0);
  }

  /** A runner on its way can come to fail with any message. */
  lemma {:induction false} GetsToFail(s: State, t: TaskId, message: string, t0: Tables, before: set<FileId>) returns (r: State)
    requires Sound(s, t0, before) && t in s.tasks && OnItsWay(s.tasks[t]) && (s.holder.None? || s.holder == Some(t))
    ensures Sound(r, t0, before) && Reaches(s, r, t0) && Beside(s, r, t) && r.holder.None?
    ensures Stands(r.tasks[t], s.tasks[t].job, Failing(message))
    decreases Distance(s.tasks[t])
  {
    hide Sound, Reaches, OnItsWay, Distance, Stands;
    r := Nearer(s, t, message, t0, before);
    if !Stands(r.tasks[t], s.tasks[t].job, Failing(message)) {
      var next := r;
      r := GetsToFail(next, t, message, t0, before);
      Further(s, next, r, t0);
    }
  }

  // ----- The last write -----

  /** A statement that was accepted is committed. */
  lemma Commits(s: State, t: TaskId, t0: Tables, before: set<FileId>) returns (r: State)
    requires Sound(s, t0, before) && s.holder == Some(t) && Running(s, t)
    requires s.tasks[t].stage.Executing? && s.tasks[t].stage.ok && s.db.conn.queue == []
    ensures Sound(r, t0, before) && Reaches(s, r, t0)
    ensures Committed(r) == Apply(s.tasks[t].stage.stmt, Logical(s, t0))
  {
    hide Inv, Linked, Reaches, StatementAt, ApplyAll, Apply;
    HolderMay(s, t0, before);
    CommitFinds(s, t, t0, before);
    Goes(s, QueueCommit(t, true), t0, before);
    var queued := Do(s, QueueCommit(t, true), t0);
    r := Drains(queued, t0, before);
    Further(s, queued, r, t0);
    AtRest(r, t0, before);
  }

  function FailureOf(job: JobId, message: string): Statement {
    UpdateJob(job, NO_PATCH.(status := Some(Failed), errorMessage := Some(message)), 0)
  }

  /** The write of a failing runner. */
  lemma Begins(s: State, t: TaskId, message: string, t0: Tables, before: set<FileId>) returns (r: State)
    requires Sound(s, t0, before) && s.holder.None? && t in s.tasks && Stands(s.tasks[t], s.tasks[t].job, Failing(message))
    ensures Sound(r, t0, before) && Reaches(s, r, t0) && r.log == s.log && r.db.conn.queue == []
    ensures r.holder == Some(t) && Running(r, t) && r.tasks[t].stage.Executing? && r.tasks[t].stage.ok
    ensures r.tasks[t].stage.stmt == FailureOf(s.tasks[t].job, message)
  {
    hide Inv, Linked, Reaches, ApplyAll;
    HolderMay(s, t0, before);
    Goes(s, Enter(t, 0, true), t0, before);
    var begun := Do(s, Enter(t, 0, true), t0);
    r := Drains(begun, t0, before);
    Further(s, begun, r, t0);
  }

  /** From `s` the row's outcome, committed in `m`, is another in `r`. */
  ghost predicate Overwrites(s: State, m: State, r: State, t0: Tables, job: JobId) {
    && Reaches(s, m, t0) && Reaches(m, r, t0) && |s.log| <= Landed(m)
    && TerminalIn(Committed(m), job) && job in Committed(r).jobs && !KeepsOutcome(Committed(m), Committed(r), job)
  }

  lemma SameLog(s: State, r: State, t0: Tables)
    requires r.log == s.log
    ensures Logical(r, t0) == Logical(s, t0)
  {
  }

  /** It changes what the row says. */
  lemma FailureShows(t: Tables, job: JobId, message: string, now: int)
    requires TerminalIn(t, job) && FailedWith(t, job) != Some(message)
    ensures var after := Apply(UpdateJob(job, NO_PATCH.(status := Some(Failed), errorMessage := Some(message)), now), t);
            job in after.jobs && !KeepsOutcome(t, after, job)
  {
  }

  lemma FailureCommits(s: State, t: TaskId, message: string, t0: Tables, before: set<FileId>) returns (r: State)
    requires Sound(s, t0, before) && s.holder.None? && t in s.tasks && Stands(s.tasks[t], s.tasks[t].job, Failing(message))
    ensures Sound(r, t0, before) && Reaches(s, r, t0)
    ensures Committed(r) == Apply(FailureOf(s.tasks[t].job, message), Logical(s, t0))
  {
    var begun := Begins(s, t, message, t0, before);
    hide Sound, Reaches, Logical, Apply, Stands, FailureOf;
    SameLog(s, begun, t0);
    r := Commits(begun, t, t0, before);
    Further(s, begun, r, t0);
  }

  /** A runner that stands before its last write overwrites the row. */
  lemma WritesOver(s: State, t: TaskId, message: string, t0: Tables, before: set<FileId>) returns (m: State, r: State)
    requires Sound(s, t0, before) && s.holder.None? && t in s.tasks && Stands(s.tasks[t], s.tasks[t].job, Failing(message))
    requires TerminalIn(Logical(s, t0), s.tasks[t].job) && FailedWith(Logical(s, t0), s.tasks[t].job) != Some(message)
    ensures Overwrites(s, m, r, t0, s.tasks[t].job)
  {
    FailureShows(Logical(s, t0), s.tasks[t].job, message, 0);
    hide Sound, Reaches, Logical, Apply, KeepsOutcome, TerminalIn, FailedWith, Stands;
    m := Drains(s, t0, before);
    AtRest(m, t0, before);
    SameLog(s, m, t0);
    r := FailureCommits(m, t, message, t0, before);
  }

  /** So does one whose last write is accepted and not yet committed. */
  lemma WritesOn(s: State, t: TaskId, t0: Tables, before: set<FileId>) returns (m: State, r: State)
    requires Sound(s, t0, before) && s.holder == Some(t) && Running(s, t) && s.tasks[t].point.Failing?
    requires s.tasks[t].stage.Executing? && s.tasks[t].stage.ok && TerminalIn(Logical(s, t0), s.tasks[t].job)
    requires FailedWith(Logical(s, t0), s.tasks[t].job) != Some(s.tasks[t].point.message)
    ensures Overwrites(s, m, r, t0, s.tasks[t].job)
  {
    var stmt := s.tasks[t].stage.stmt;
    TaskOk(s, t, t0, before);
    FailureShows(Logical(s, t0), s.tasks[t].job, s.tasks[t].point.message, StampOf(stmt));
    hide Sound, Reaches, Logical, Apply, KeepsOutcome, TerminalIn, FailedWith, RoleOk;
    m := Drains(s, t0, before);
    AtRest(m, t0, before);
    SameLog(s, m, t0);
    r := Commits(m, t, t0, before);
  }

  // ----- Everybody who is left can be brought to it -----

  lemma {:induction false} Unused(tasks: set<TaskId>) returns (t: TaskId)
    ensures t > 0 && forall x :: x in tasks ==> x < t
    decreases tasks
  {
    if tasks == {} {
      t := 1;
    } else {
      var x :| x in tasks;
      var above := Unused(tasks - {x});
      t := if above > x then above else x + 1;
      assert forall y :: y in tasks && y != x ==> y in tasks - {x};
    }
  }

  function Different(stored: Option<string>): (message: string)
    ensures stored != Some(message)
  {
    if stored == Some("") then "Internal error" else ""
  }

  /** The lock, out of everybody's hands but the task's own. */
  lemma Makes(s: State, t: TaskId, t0: Tables, before: set<FileId>) returns (r: State)
    requires Sound(s, t0, before) && t in s.tasks
    ensures Sound(r, t0, before) && Reaches(s, r, t0)
    ensures r.log == s.log && r.posts == s.posts && r.runners == s.runners && t in r.tasks && r.tasks[t] == s.tasks[t]
    ensures r.holder == if s.holder == Some(t) then Some(t) else None
  {
    if s.holder.None? || s.holder == Some(t) {
      Here(s, t0);
      r := s;
    } else {
      r := FreesLock(s, t0, before);
    }
  }

  /** A runner on its way overwrites the row. */
  lemma RunnerOverwrites(s: State, t: TaskId, t0: Tables, before: set<FileId>) returns (m: State, r: State)
    requires Sound(s, t0, before) && t in s.tasks && OnItsWay(s.tasks[t]) && TerminalIn(Logical(s, t0), s.tasks[t].job)
    ensures Overwrites(s, m, r, t0, s.tasks[t].job)
  {
    hide Sound, Reaches, OnItsWay, TerminalIn, FailedWith, ApplyAll, KeepsOutcome;
    var message := Different(FailedWith(Logical(s, t0), s.tasks[t].job));
    var free := Makes(s, t, t0, before);
    var failing := GetsToFail(free, t, message, t0, before);
    m, r := WritesOver(failing, t, message, t0, before);
    Further(s, free, failing, t0);
    Further(s, failing, m, t0);
  }

  lemma FailureOverwrites(s: State, t: TaskId, t0: Tables, before: set<FileId>) returns (m: State, r: State)
    requires Sound(s, t0, before) && Running(s, t) && s.tasks[t].point.Failing?
    requires TerminalIn(Logical(s, t0), s.tasks[t].job)
    requires !Spent(s.tasks[t], FailedWith(Logical(s, t0), s.tasks[t].job))
    ensures Overwrites(s, m, r, t0, s.tasks[t].job)
  {
    TaskStands(s, t, t0, before);
    hide Sound, Reaches, TerminalIn, FailedWith, ApplyAll, KeepsOutcome;
    if s.tasks[t].stage.Waiting? {
      var free := Makes(s, t, t0, before);
      m, r := WritesOver(free, t, s.tasks[t].point.message, t0, before);
      Further(s, free, m, t0);
    } else {
      m, r := WritesOn(s, t, t0, before);
    }
  }

  /** A POST about to submit brings a runner that does. */
  lemma PostOverwrites(s: State, t: TaskId, t0: Tables, before: set<FileId>) returns (m: State, r: State)
    requires Sound(s, t0, before) && t in s.tasks && AboutToSubmit(s.tasks[t]) && TerminalIn(Logical(s, t0), s.tasks[t].job)
    ensures Overwrites(s, m, r, t0, s.tasks[t].job)
  {
    TaskStands(s, t, t0, before);
    var job := s.tasks[t].job;
    hide Inv, Linked, Reaches, TerminalIn, FailedWith, ApplyAll, KeepsOutcome, StatementAt;
    var created := s;
    if s.tasks[t].point.Created? {
      Here(s, t0);
    } else {
      created := Succeeds(s, t, t0, before);
    }
    var runner := Unused(created.tasks.Keys);
    Goes(created, Submit(t, runner), t0, before);
    var submitted := Do(created, Submit(t, runner), t0);
    Further(s, created, submitted, t0);
    assert OnItsWay(submitted.tasks[runner]);
    hide Sound, Do, OnItsWay;
    m, r := RunnerOverwrites(submitted, runner, t0, before);
    Further(s, submitted, m, t0);
  }

  /** Whoever is left can change the outcome of the finished row. */
  lemma ExposedIsOverwritten(s: State, t0: Tables, before: set<FileId>, job: JobId) returns (m: State, r: State)
    requires Sound(s, t0, before) && TerminalIn(Logical(s, t0), job) && Exposed(s, job, FailedWith(Logical(s, t0), job))
    ensures Overwrites(s, m, r, t0, job)
  {
    InvParts(s, t0, before);
    hide Inv, Linked, TerminalIn, FailedWith, ApplyAll, Overwrites, AboutToSubmit;
    if job in s.runners {
      var t := s.runners[job];
      TaskStands(s, t, t0, before);
      if s.tasks[t].point.Failing? {
        m, r := FailureOverwrites(s, t, t0, before);
      } else {
        m, r := RunnerOverwrites(s, t, t0, before);
      }
    } else {
      m, r := PostOverwrites(s, s.posts[job], t0, before);
    }
  }

  // ----- Exactly when -----

  /** `longer` goes on from the run and overwrites, by its end, the row that was committed at `m`
      with all that the run had queued. */
  ghost predicate GoesOnToOverwrite(states: seq<State>, steps: seq<Step>, longer: seq<State>, more: seq<Step>, m: nat, t0: Tables, job: JobId)
    requires |states| > 0
  {
    && IsRun(longer, more, t0) && states <= longer && steps <= more && |steps| <= m <= |more|
    && |states[|states| - 1].log| <= Landed(longer[m])
    && TerminalIn(Committed(longer[m]), job) && job in Committed(longer[|more|]).jobs
    && !KeepsOutcome(Committed(longer[m]), Committed(longer[|more|]), job)
  }

  /** Some continuation of the run changes the outcome of the job's finished row. */
  ghost predicate CanBeOverwritten(states: seq<State>, steps: seq<Step>, t0: Tables, job: JobId)
    requires |states| > 0
  {
    exists longer, more, m :: GoesOnToOverwrite(states, steps, longer, more, m, t0, job)
  }

  lemma RunGoesOn(states: seq<State>, steps: seq<Step>, r: State, t0: Tables) returns (longer: seq<State>, more: seq<Step>)
    requires IsRun(states, steps, t0) && Reaches(states[|steps|], r, t0)
    ensures IsRun(longer, more, t0) && states <= longer && steps <= more && longer[|more|] == r
  {
    hide Enabled, Do;
    var b, y :| Leads(b, y, states[|steps|], r, t0);
    Joins(states, steps, b, y, t0);
    longer, more := states + b[1..], steps + y;
  }

  lemma ExposedGoesOn(states: seq<State>, steps: seq<Step>, t0: Tables, before: set<FileId>, job: JobId)
    requires IsRun(states, steps, t0) && Named(t0, [], before)
    requires var s := states[|steps|];
             TerminalIn(Logical(s, t0), job) && Exposed(s, job, FailedWith(Logical(s, t0), job))
    ensures CanBeOverwritten(states, steps, t0, job)
  {
    PathLength(states, steps, t0);
    hide Inv, Linked, Exposed, TerminalIn, FailedWith, Logical, Reaches, Landed, Committed, KeepsOutcome, IsPath;
    RunKeeps(states, steps, t0, before, |steps|);
    var m, r := ExposedIsOverwritten(states[|steps|], t0, before, job);
    var first, x := RunGoesOn(states, steps, m, t0);
    PathLength(first, x, t0);
    var longer, more := RunGoesOn(first, x, r, t0);
    PathLength(longer, more, t0);
    assert longer[|x|] == m && |steps| <= |x|;
    assert GoesOnToOverwrite(states, steps, longer, more, |x|, t0, job);
  }

  lemma UnexposedGoesNowhere(states: seq<State>, steps: seq<Step>, longer: seq<State>, more: seq<Step>, m: nat, t0: Tables,
                             before: set<FileId>, job: JobId)
    requires IsRun(states, steps, t0) && Named(t0, [], before)
    requires var s := states[|steps|];
             TerminalIn(Logical(s, t0), job) && !Exposed(s, job, FailedWith(Logical(s, t0), job))
    ensures !GoesOnToOverwrite(states, steps, longer, more, m, t0, job)
  {
    if GoesOnToOverwrite(states, steps, longer, more, m, t0, job) {
      PathLength(states, steps, t0);
      PathLength(longer, more, t0);
      assert longer[|steps|] == states[|steps|];
      hide IsRun, Inv, Linked, Exposed, TerminalIn, FailedWith, Logical, Landed, Committed, KeepsOutcome, LogKeeps, StaysGone;
      UnexposedStays(longer, more, t0, before, |steps|, |more|, job);
      RunKeeps(longer, more, t0, before, |more|);
      IdsDrawnOnce(longer[|more|], t0, before, job);
      CommittedAlong(longer, more, t0, before, m, |more|);
      CommittedAlong(longer, more, t0, before, |more|, |more|);
      LogAbsorbs(longer[|more|].log, |states[|steps|].log|, t0, job, Landed(longer[m]), Landed(longer[|more|]));
      RowHasOutcome(Committed(longer[m]), Committed(longer[|more|]), job);
    }
  }

  /** The finished row of a job can still be overwritten, after any run, exactly when somebody is
      left who can write it: a runner that nobody has cancelled and whose last write is still to
      come, or a POST about to submit one. */
  lemma OverwrittenExactlyWhen(states: seq<State>, steps: seq<Step>, t0: Tables, before: set<FileId>, job: JobId)
    requires IsRun(states, steps, t0) && Named(t0, [], before) && TerminalIn(Logical(states[|steps|], t0), job)
    ensures CanBeOverwritten(states, steps, t0, job)
            <==> Exposed(states[|steps|], job, FailedWith(Logical(states[|steps|], t0), job))
  {
    PathLength(states, steps, t0);
    hide IsRun, Exposed, TerminalIn, FailedWith, Logical, GoesOnToOverwrite;
    if Exposed(states[|steps|], job, FailedWith(Logical(states[|steps|], t0), job)) {
      ExposedGoesOn(states, steps, t0, before, job);
    } else {
      forall longer, more, m ensures !GoesOnToOverwrite(states, steps, longer, more, m, t0, job) {
        UnexposedGoesNowhere(states, steps, longer, more, m, t0, before, job);
      }
    }
  }

  lemma RunSoFar(states: seq<State>, steps: seq<Step>, t0: Tables, n: nat)
    requires IsRun(states, steps, t0) && n <= |steps|
    ensures IsRun(states[..n + 1], steps[..n], t0)
  {
    hide Enabled, Do;
  }

  /** What a DELETE has written can be overwritten once it is over exactly when it has left
      somebody behind. */
  lemma LeftBehindExactlyWhen(states: seq<State>, steps: seq<Step>, t0: Tables, before: set<FileId>, i: nat, job: JobId)
    requires IsRun(states, steps, t0) && Named(t0, [], before) && i < |steps| && EndsMark(states[i], steps[i], job)
    ensures CanBeOverwritten(states[..i + 2], steps[..i + 1], t0, job) <==> LeavesBehind(states[i], steps[i], job)
  {
    RunSteps(states, steps, t0, i);
    RunKeeps(states, steps, t0, before, i);
    RunSoFar(states, steps, t0, i + 1);
    PathLength(states, steps, t0);
    hide IsRun, Inv, Linked, Exposed, FailedWith, Logical, Enabled, Do, LeavesBehind, CanBeOverwritten, EndsMark;
    MarkEnds(states[i], steps[i], t0, before, job);
    assert states[..i + 2][|steps[..i + 1]|] == states[i + 1];
    OverwrittenExactlyWhen(states[..i + 2], steps[..i + 1], t0, before, job);
  }

  /** Over any run nobody was left behind exactly when every DELETE that ended in it was final: no
      continuation from where it ended changes what it wrote. */
  lemma NobodyLeftExactlyWhen(states: seq<State>, steps: seq<Step>, t0: Tables, before: set<FileId>, job: JobId)
    requires IsRun(states, steps, t0) && Named(t0, [], before)
    ensures NobodyLeftBehind(states, steps, |steps|, job) <==>
            forall i :: 0 <= i < |steps| && EndsMark(states[i], steps[i], job) ==>
              !CanBeOverwritten(states[..i + 2], steps[..i + 1], t0, job)
  {
    hide Inv, Linked, Exposed, Enabled, Do, CanBeOverwritten, Marks;
    forall i | 0 <= i < |steps|
      ensures LeavesBehind(states[i], steps[i], job) <==>
              EndsMark(states[i], steps[i], job) && CanBeOverwritten(states[..i + 2], steps[..i + 1], t0, job)
    {
      if EndsMark(states[i], steps[i], job) {
        LeftBehindExactlyWhen(states, steps, t0, before, i, job);
      }
    }
  }

  // ----- It happens -----

  /** A block of one statement, from the lock to its queued commit, with nothing in between. */
  lemma RunsBlock(s: State, t: TaskId, t0: Tables, before: set<FileId>) returns (r: State)
    requires Sound(s, t0, before) && s.holder.None? && Running(s, t) && WritesAt(s.tasks[t].point) && s.tasks[t].stage.Waiting?
    ensures Sound(r, t0, before) && Reaches(s, r, t0) && r.holder == Some(t) && r.posts == s.posts && r.runners == s.runners
    ensures r.log == s.log + [StatementAt(s.tasks[t], 0)]
    ensures r.tasks == s.tasks[t := s.tasks[t].(stage := Committing(true), changed := ActiveIn(Logical(s, t0), s.tasks[t].job))]
  {
    hide Inv, Linked, Reaches, StatementAt, Logical, WritesAt;
    HolderMay(s, t0, before);
    Goes(s, Enter(t, 0, true), t0, before);
    var begun := Do(s, Enter(t, 0, true), t0);
    var drained := Drains(begun, t0, before);
    Further(s, begun, drained, t0);
    HolderMay(drained, t0, before);
    Goes(drained, QueueCommit(t, true), t0, before);
    r := Do(drained, QueueCommit(t, true), t0);
    Further(s, drained, r, t0);
  }

  lemma PostInserts(t0: Tables, before: set<FileId>, job: JobId) returns (r: State)
    requires Named(t0, [], before) && job !in t0.jobs
    ensures Sound(r, t0, before) && Reaches(Start(t0), r, t0) && r.holder == Some(1) && ActiveIn(Logical(r, t0), job)
    ensures r.tasks.Keys == {1} && r.tasks[1].point == Creating(None) && r.tasks[1].stage == Committing(true)
    ensures r.tasks[1].cancel == Uncancelled && r.tasks[1].job == job
    ensures r.runners == map[] && job in r.posts && r.posts[job] == 1
  {
    StartInv(t0, before);
    var start := Start(t0);
    assert Logical(start, t0) == t0;
    var arrived := Do(start, PostArrives(1, job, None), t0);
    assert StatementAt(arrived.tasks[1], 0) == InsertJob(job, None, 0);
    hide Inv, Linked, Reaches, StatementAt, ApplyAll;
    Goes(start, PostArrives(1, job, None), t0, before);
    r := RunsBlock(arrived, 1, t0, before);
    Further(start, arrived, r, t0);
    LogSnoc(arrived.log, InsertJob(job, None, 0), t0);
  }

  lemma PostWaits(t0: Tables, before: set<FileId>, job: JobId) returns (r: State)
    requires Named(t0, [], before) && job !in t0.jobs
    ensures Sound(r, t0, before) && Reaches(Start(t0), r, t0) && r.holder.None? && ActiveIn(Logical(r, t0), job)
    ensures r.tasks.Keys == {1} && r.tasks[1].point.Created? && r.tasks[1].cancel == Uncancelled
    ensures r.runners == map[] && job in r.posts && r.posts[job] == 1
  {
    hide Sound, Reaches, Logical, Start;
    var inserted := PostInserts(t0, before, job);
    r := Succeeds(inserted, 1, t0, before);
    Further(Start(t0), inserted, r, t0);
    SameLog(inserted, r, t0);
    assert r.tasks.Keys == {1};
  }

  lemma PostIsExposed(s: State, t0: Tables, before: set<FileId>, job: JobId)
    requires Sound(s, t0, before) && s.runners == map[] && job in s.posts && s.posts[job] == 1
    requires 1 in s.tasks && s.tasks[1].point.Created? && s.tasks[1].cancel == Uncancelled
    requires 2 in s.tasks && Marks(s.tasks[2], job)
    ensures TerminalIn(Logical(s, t0), job) && Exposed(s, job, FailedWith(Logical(s, t0), job))
  {
    TaskOk(s, 2, t0, before);
    hide Inv, Linked, Logical, RoleOk, StatementAt;
  }

  lemma DeleteMarks(s: State, t0: Tables, before: set<FileId>, job: JobId) returns (r: State)
    requires Sound(s, t0, before) && s.holder.None? && ActiveIn(Logical(s, t0), job)
    requires s.tasks.Keys == {1} && s.tasks[1].point.Created? && s.tasks[1].cancel == Uncancelled
    requires s.runners == map[] && job in s.posts && s.posts[job] == 1
    ensures Sound(r, t0, before) && Reaches(s, r, t0)
    ensures TerminalIn(Logical(r, t0), job) && Exposed(r, job, FailedWith(Logical(r, t0), job))
  {
    hide Inv, Linked, Reaches, Logical, StatementAt;
    Goes(s, DeleteArrives(2, job), t0, before);
    var asked := Do(s, DeleteArrives(2, job), t0);
    SameLog(s, asked, t0);
    r := RunsBlock(asked, 2, t0, before);
    Further(s, asked, r, t0);
    assert r.tasks[1] == s.tasks[1];
    hide Sound;
    PostIsExposed(r, t0, before, job);
  }

  /** Whatever the tables at start, there is a run that commits a new job as failed and goes on to
      commit another outcome: a DELETE comes between the insert and the submit of the job's POST. */
  lemma FinishedRowsCanChange(t0: Tables, before: set<FileId>, job: JobId)
    requires Named(t0, [], before) && job !in t0.jobs
    ensures CanBeOverwritten([Start(t0)], [], t0, job)
  {
    assert IsRun([Start(t0)], [], t0);
    hide *;
    var waiting := PostWaits(t0, before, job);
    var marked := DeleteMarks(waiting, t0, before, job);
    Further(Start(t0), waiting, marked, t0);
    var states, steps := RunGoesOn([Start(t0)], [], marked, t0);
    ExposedGoesOn(states, steps, t0, before, job);
    ShorterRun(states, steps, t0, job);
  }

  lemma ShorterRun(states: seq<State>, steps: seq<Step>, t0: Tables, job: JobId)
    requires IsRun(states, steps, t0) && CanBeOverwritten(states, steps, t0, job)
    ensures CanBeOverwritten([Start(t0)], [], t0, job)
  {
    hide Enabled, Do, GoesOnToOverwrite;
    var longer, more, m :| GoesOnToOverwrite(states, steps, longer, more, m, t0, job);
    ShorterStart(states, steps, longer, more, m, t0, job);
  }

  lemma ShorterStart(states: seq<State>, steps: seq<Step>, longer: seq<State>, more: seq<Step>, m: nat, t0: Tables, job: JobId)
    requires |states| > 0 && GoesOnToOverwrite(states, steps, longer, more, m, t0, job)
    ensures CanBeOverwritten([Start(t0)], [], t0, job)
  {
    hide Enabled, Do, KeepsOutcome, TerminalIn;
    assert [Start(t0)] <= longer;
    assert Start(t0).log == [];
    assert GoesOnToOverwrite([Start(t0)], [], longer, more, m, t0, job);
  }
}
