/** One SQLite connection shared by every task (`infra/db.py`).

    `execute` and `transaction` hold one write lock around their statements, their commit and,
    on any failure or cancellation, their rollback. Statements, commits and rollbacks run on a
    worker that takes them first in, first out; cancelling the task that waits for one does
    not take it back. Commit and rollback act on the whole connection.

    The model's steps are the suspension-free stretches of those two methods, plus the worker's
    turns. Whether an operation will succeed is chosen when it is queued; the task learns it
    only once the worker has got there. Rollback succeeds. */
module Database {
  import opened Options
  import opened Tables

  datatype Op = Execute(stmt: Statement, ok: bool) | Commit(ok: bool) | Rollback

  /** `working` is what the connection sees: the committed tables and what is not yet committed. */
  datatype Connection = Connection(committed: Tables, working: Tables, queue: seq<Op>)

  /** Where the task that holds the write lock stands. */
  datatype Phase =
    | Open                    // every statement so far was accepted
    | Doomed                  // a statement will fail
    | Committing(ok: bool)    // the commit is queued
    | Undoing                 // the rollback is queued

  /** A block whose commit was queued and will succeed. Blocks are numbered in lock order. */
  datatype Landed = Landed(block: nat, stmts: seq<Statement>)

  datatype State = State(
    conn: Connection,
    holder: Option<Phase>,
    begun: nat,
    asked: seq<Statement>,
    landed: seq<Landed>)

  // ----- The worker -----

  function Perform(op: Op, c: Connection): Connection {
    match op
    case Execute(stmt, ok) => if ok then c.(working := Apply(stmt, c.working)) else c
    case Commit(ok) => if ok then c.(committed := c.working) else c
    case Rollback => c.(working := c.committed)
  }

  function Enqueue(op: Op, c: Connection): Connection {
    c.(queue := c.queue + [op])
  }

  predicate CanWork(s: State) {
    s.conn.queue != []
  }

  function Work(s: State): State
    requires CanWork(s)
  {
    s.(conn := Perform(s.conn.queue[0], s.conn.(queue := s.conn.queue[1..])))
  }

  // ----- The tasks -----

  predicate CanAcquire(s: State) {
    s.holder.None?
  }

  function Acquire(s: State): State
    requires CanAcquire(s)
  {
    s.(holder := Some(Open), begun := s.begun + 1, asked := [])
  }

  predicate CanIssue(s: State) {
    s.holder == Some(Open)
  }

  function Issue(s: State, stmt: Statement, ok: bool): State
    requires CanIssue(s)
  {
    s.(conn := Enqueue(Execute(stmt, ok), s.conn), holder := Some(if ok then Open else Doomed), asked := s.asked + [stmt])
  }

  function QueueCommit(s: State, ok: bool): State
    requires CanIssue(s)
  {
    s.(conn := Enqueue(Commit(ok), s.conn), holder := Some(Committing(ok)),
       landed := if ok then s.landed + [Landed(s.begun, s.asked)] else s.landed)
  }

  /** The failure path: an error inside the block, a failed operation, or a cancellation. */
  predicate CanUndo(s: State) {
    s.holder.Some? && !s.holder.value.Undoing?
  }

  function QueueRollback(s: State): State
    requires CanUndo(s)
  {
    s.(conn := Enqueue(Rollback, s.conn), holder := Some(Undoing))
  }

  /** The block is over: its commit came back, or it stopped waiting for its rollback, which a
      second cancellation can make it do before the worker has got there. */
  predicate CanRelease(s: State) {
    s.holder == Some(Undoing) || (s.holder == Some(Committing(true)) && s.conn.queue == [])
  }

  function Release(s: State): State
    requires CanRelease(s)
  {
    s.(holder := None)
  }

  datatype Step =
    | WorkStep
    | AcquireStep
    | IssueStep(stmt: Statement, ok: bool)
    | CommitStep(ok: bool)
    | UndoStep
    | ReleaseStep

  predicate Enabled(s: State, step: Step) {
    match step
    case WorkStep => CanWork(s)
    case AcquireStep => CanAcquire(s)
    case IssueStep(_, _) => CanIssue(s)
    case CommitStep(_) => CanIssue(s)
    case UndoStep => CanUndo(s)
    case ReleaseStep => CanRelease(s)
  }

  function Next(s: State, step: Step): State
    requires Enabled(s, step)
  {
    match step
    case WorkStep => Work(s)
    case AcquireStep => Acquire(s)
    case IssueStep(stmt, ok) => Issue(s, stmt, ok)
    case CommitStep(ok) => QueueCommit(s, ok)
    case UndoStep => QueueRollback(s)
    case ReleaseStep => Release(s)
  }

  function Start(t: Tables): State {
    State(Connection(t, t, []), None, 0, [], [])
  }

  // ----- What the committed tables should be -----

  function ApplyBlocks(blocks: seq<Landed>, t: Tables): Tables {
    if blocks == [] then t
    else ApplyAll(blocks[|blocks| - 1].stmts, ApplyBlocks(blocks[..|blocks| - 1], t))
  }

  function PendingCommits(queue: seq<Op>): nat {
    if queue == [] then 0
    else PendingCommits(queue[1..]) + if queue[0] == Commit(true) then 1 else 0
  }

  /** How many landed blocks the committed tables hold. */
  function Settled(s: State): int {
    |s.landed| - PendingCommits(s.conn.queue)
  }

  // ----- The queue as a schedule of commits -----

  /** What is left once the worker has emptied the queue. */
  function Drain(c: Connection): Connection
    decreases |c.queue|
  {
    if c.queue == [] then c else Drain(Perform(c.queue[0], c.(queue := c.queue[1..])))
  }

  /** The committed tables now and after each commit still queued. */
  function Trail(c: Connection): seq<Tables>
    decreases |c.queue|
  {
    if c.queue == [] then [c.committed]
    else
      var after := Trail(Perform(c.queue[0], c.(queue := c.queue[1..])));
      if c.queue[0] == Commit(true) then [c.committed] + after else after
  }

  lemma {:induction false} DrainQueued(c: Connection, op: Op)
    ensures Drain(Enqueue(op, c)) == Perform(op, Drain(c))
    decreases |c.queue|
  {
    if c.queue == [] {
      assert Enqueue(op, c).queue[1..] == [];
      assert Enqueue(op, c).(queue := []) == c;
    } else {
      var rest := Perform(c.queue[0], c.(queue := c.queue[1..]));
      assert Enqueue(op, c).queue[1..] == c.queue[1..] + [op];
      assert Perform(c.queue[0], Enqueue(op, c).(queue := c.queue[1..] + [op])) == Enqueue(op, rest);
      DrainQueued(rest, op);
    }
  }

  lemma {:induction false} TrailQueued(c: Connection, op: Op)
    ensures Trail(Enqueue(op, c)) == Trail(c) + if op == Commit(true) then [Drain(c).working] else []
    decreases |c.queue|
  {
    if c.queue == [] {
      assert Enqueue(op, c).queue[1..] == [];
      assert Enqueue(op, c).(queue := []) == c;
    } else {
      var rest := Perform(c.queue[0], c.(queue := c.queue[1..]));
      assert Enqueue(op, c).queue[1..] == c.queue[1..] + [op];
      assert Perform(c.queue[0], Enqueue(op, c).(queue := c.queue[1..] + [op])) == Enqueue(op, rest);
      TrailQueued(rest, op);
    }
  }

  lemma {:induction false} TrailLength(c: Connection)
    ensures |Trail(c)| == PendingCommits(c.queue) + 1
    ensures Trail(c)[0] == c.committed && Trail(c)[|Trail(c)| - 1] == Drain(c).committed
    decreases |c.queue|
  {
    if c.queue != [] {
      TrailLength(Perform(c.queue[0], c.(queue := c.queue[1..])));
    }
  }

  lemma {:induction false} PendingQueued(queue: seq<Op>, op: Op)
    ensures PendingCommits(queue + [op]) == PendingCommits(queue) + if op == Commit(true) then 1 else 0
    decreases |queue|
  {
    if queue == [] {
      assert queue + [op] == [op] && [op][1..] == [];
    } else {
      assert (queue + [op])[1..] == queue[1..] + [op];
      PendingQueued(queue[1..], op);
    }
  }

  // ----- The invariant -----

  /** The commits still queued are those of the last landed blocks, in order; and once the queue
      is empty, what is uncommitted is exactly what the lock holder asked for. */
  ghost predicate Inv(s: State, t: Tables) {
    && 0 <= Settled(s)
    && |Trail(s.conn)| == PendingCommits(s.conn.queue) + 1
    && (forall k :: 0 <= k < |Trail(s.conn)| ==> Trail(s.conn)[k] == ApplyBlocks(s.landed[..Settled(s) + k], t))
    && (s.holder.Some? && (s.holder.value == Open) ==>
          Drain(s.conn).working == ApplyAll(s.asked, Drain(s.conn).committed))
    && (s.holder.None? || s.holder.value == Undoing || s.holder.value == Committing(true) ==>
          Drain(s.conn).working == Drain(s.conn).committed)
    && (forall k :: 0 <= k < |s.landed| ==> s.landed[k].block <= s.begun)
    && (s.holder == Some(Open) || s.holder == Some(Doomed) || s.holder == Some(Committing(false)) ==>
          forall k :: 0 <= k < |s.landed| ==> s.landed[k].block < s.begun)
    && (s.holder == Some(Committing(true)) ==> s.landed != [] && s.landed[|s.landed| - 1].block == s.begun)
    && (forall j, k :: 0 <= j < k < |s.landed| ==> s.landed[j].block < s.landed[k].block)
  }

  lemma StartInv(t: Tables)
    ensures Inv(Start(t), t)
  {
    var s := Start(t);
    TrailLength(s.conn);
    assert s.landed[..0] == [];
  }

  lemma WorkKeeps(s: State, t: Tables)
    requires Inv(s, t) && CanWork(s)
    ensures Inv(Work(s), t)
  {
    hide ApplyBlocks, ApplyAll, Apply;
    var s' := Work(s);
    TrailLength(s.conn);
    TrailLength(s'.conn);
    assert Drain(s'.conn) == Drain(s.conn);
    if s.conn.queue[0] == Commit(true) {
      assert Trail(s.conn) == [s.conn.committed] + Trail(s'.conn);
      forall k | 0 <= k < |Trail(s'.conn)|
        ensures Trail(s'.conn)[k] == ApplyBlocks(s'.landed[..Settled(s') + k], t)
      {
        assert Trail(s'.conn)[k] == Trail(s.conn)[k + 1];
      }
    } else {
      assert Trail(s.conn) == Trail(s'.conn);
    }
  }

  lemma QueueKeepsTrail(s: State, op: Op)
    requires op != Commit(true)
    ensures Trail(Enqueue(op, s.conn)) == Trail(s.conn)
    ensures PendingCommits(Enqueue(op, s.conn).queue) == PendingCommits(s.conn.queue)
    ensures Drain(Enqueue(op, s.conn)) == Perform(op, Drain(s.conn))
  {
    TrailQueued(s.conn, op);
    PendingQueued(s.conn.queue, op);
    DrainQueued(s.conn, op);
  }

  lemma CommitTrail(s: State, t: Tables)
    requires Inv(s, t) && CanIssue(s)
    ensures var s' := QueueCommit(s, true);
            && Settled(s') == Settled(s)
            && Trail(s'.conn) == Trail(s.conn) + [ApplyAll(s.asked, ApplyBlocks(s.landed, t))]
            && Drain(s'.conn).working == Drain(s'.conn).committed
  {
    hide ApplyAll, Apply, Trail, Drain, PendingCommits;
    TrailQueued(s.conn, Commit(true));
    PendingQueued(s.conn.queue, Commit(true));
    DrainQueued(s.conn, Commit(true));
    TrailLength(s.conn);
    assert s.landed[..|s.landed|] == s.landed;
  }

  lemma CommitKeeps(s: State, t: Tables)
    requires Inv(s, t) && CanIssue(s)
    ensures Inv(QueueCommit(s, true), t)
  {
    hide ApplyAll, Apply, Trail, Drain, PendingCommits, ApplyBlocks;
    var s' := QueueCommit(s, true);
    CommitTrail(s, t);
    TrailLength(s'.conn);
    LandOne(s.landed, Landed(s.begun, s.asked), t);
    forall k | 0 <= k < |Trail(s'.conn)|
      ensures Trail(s'.conn)[k] == ApplyBlocks(s'.landed[..Settled(s') + k], t)
    {
      if k < |Trail(s.conn)| {
        assert s'.landed[..Settled(s) + k] == s.landed[..Settled(s) + k];
      } else {
        assert s'.landed[..|s'.landed|] == s'.landed;
      }
    }
  }

  lemma LandOne(blocks: seq<Landed>, b: Landed, t: Tables)
    ensures ApplyBlocks(blocks + [b], t) == ApplyAll(b.stmts, ApplyBlocks(blocks, t))
  {
    assert (blocks + [b])[..|blocks|] == blocks;
  }

  lemma StepKeeps(s: State, step: Step, t: Tables)
    requires Inv(s, t) && Enabled(s, step)
    ensures Inv(Next(s, step), t)
  {
    hide ApplyBlocks, ApplyAll, Trail, Drain, PendingCommits;
    match step
    case WorkStep => WorkKeeps(s, t);
    case AcquireStep => assert ApplyAll([], Drain(s.conn).committed) == Drain(s.conn).committed by { NoStatements(Drain(s.conn).committed); }
    case IssueStep(stmt, ok) =>
      QueueKeepsTrail(s, Execute(stmt, ok));
      ApplySnoc(s.asked, stmt, Drain(s.conn).committed);
    case CommitStep(ok) =>
      if ok {
        CommitKeeps(s, t);
      } else {
        QueueKeepsTrail(s, Commit(false));
      }
    case UndoStep => QueueKeepsTrail(s, Rollback);
    case ReleaseStep =>
  }

  lemma NoStatements(t: Tables)
    ensures ApplyAll([], t) == t
  {
  }

  lemma StepSettles(s: State, step: Step)
    requires Enabled(s, step)
    ensures Settled(s) <= Settled(Next(s, step)) && s.landed <= Next(s, step).landed
  {
    match step
    case IssueStep(stmt, ok) => PendingQueued(s.conn.queue, Execute(stmt, ok));
    case CommitStep(ok) => PendingQueued(s.conn.queue, Commit(ok));
    case UndoStep => PendingQueued(s.conn.queue, Rollback);
    case _ =>
  }

  // ----- The object -----

  /** The fields of `Database` and of its connection. The ghost fields number the blocks. */
  class SharedDatabase {
    var committed: Tables
    var working: Tables
    var queue: seq<Op>
    var holder: Option<Phase>
    ghost var begun: nat
    ghost var asked: seq<Statement>
    ghost var landed: seq<Landed>

    ghost function View(): State
      reads this
    {
      State(Connection(committed, working, queue), holder, begun, asked, landed)
    }

    constructor (t: Tables)
      ensures View() == Start(t)
    {
      committed, working, queue, holder := t, t, [], None;
      begun, asked, landed := 0, [], [];
    }

    method AcquireLock()
      requires CanAcquire(View())
      modifies this
      ensures View() == Acquire(old(View()))
    {
      holder := Some(Open);
      begun, asked := begun + 1, [];
    }

    method QueueStatement(stmt: Statement, ok: bool)
      requires CanIssue(View())
      modifies this
      ensures View() == Issue(old(View()), stmt, ok)
    {
      queue := queue + [Execute(stmt, ok)];
      if !ok {
        holder := Some(Doomed);
      }
      asked := asked + [stmt];
    }

    method QueueCommitOp(ok: bool)
      requires CanIssue(View())
      modifies this
      ensures View() == QueueCommit(old(View()), ok)
    {
      queue := queue + [Commit(ok)];
      holder := Some(Committing(ok));
      if ok {
        landed := landed + [Landed(begun, asked)];
      }
    }

    method QueueRollbackOp()
      requires CanUndo(View())
      modifies this
      ensures View() == QueueRollback(old(View()))
    {
      queue := queue + [Rollback];
      holder := Some(Undoing);
    }

    method ReleaseLock()
      requires CanRelease(View())
      modifies this
      ensures View() == Release(old(View()))
    {
      holder := None;
    }

    method WorkerTurn()
      requires CanWork(View())
      modifies this
      ensures View() == Work(old(View()))
    {
      match queue[0] {
        case Execute(stmt, ok) =>
          if ok {
            working := Apply(stmt, working);
          }
        case Commit(ok) =>
          if ok {
            committed := working;
          }
        case Rollback => working := committed;
      }
      queue := queue[1..];
    }

    /** `execute`, undisturbed on an idle connection: the statement is committed, or nothing is. */
    method ExecuteAlone(stmt: Statement, stmtOk: bool, commitOk: bool) returns (ok: bool)
      requires holder.None? && queue == [] && working == committed
      modifies this
      ensures ok == (stmtOk && commitOk)
      ensures committed == if ok then Apply(stmt, old(committed)) else old(committed)
      ensures holder.None? && queue == [] && working == committed
      ensures landed == if ok then old(landed) + [Landed(begun, [stmt])] else old(landed)
    {
      AcquireLock();
      QueueStatement(stmt, stmtOk);
      assert asked == [stmt] && queue == [Execute(stmt, stmtOk)];
      WorkerTurn();
      ok := stmtOk;
      if ok {
        QueueCommitOp(commitOk);
        WorkerTurn();
        ok := commitOk;
      }
      if !ok {
        QueueRollbackOp();
        WorkerTurn();
      }
      ReleaseLock();
    }
  }
}
