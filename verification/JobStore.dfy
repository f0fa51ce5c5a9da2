/** The job table's writers (`infra/jobstore.py`), each as the one statement it runs. */
module JobStores {
  import opened Options
  import opened Tables

  /** One `column = ?` of an UPDATE, with its parameter. */
  datatype Assignment =
    | UpdatedAt(now: int)
    | Status(status: JobStatus)
    | Upstream(upstreamId: string)
    | File(fileId: FileId)
    | Error(message: string)
    | Progress(pct: int)
    | Aspect(ratio: Option<string>)

  function Assigned(row: JobRow, a: Assignment): JobRow {
    match a
    case UpdatedAt(now) => row.(updatedAt := now)
    case Status(status) => row.(status := status)
    case Upstream(id) => row.(upstreamId := Some(id))
    case File(id) => row.(fileId := Some(id))
    case Error(message) => row.(errorMessage := Some(message))
    case Progress(pct) => row.(progressPct := Some(pct))
    case Aspect(ratio) => row.(aspectRatio := ratio)
  }

  function AssignedAll(row: JobRow, sets: seq<Assignment>): JobRow {
    if sets == [] then row else Assigned(AssignedAll(row, sets[..|sets| - 1]), sets[|sets| - 1])
  }

  lemma AssignSnoc(row: JobRow, sets: seq<Assignment>, a: Assignment)
    ensures AssignedAll(row, sets + [a]) == Assigned(AssignedAll(row, sets), a)
  {
    assert (sets + [a])[..|sets|] == sets;
  }

  function Maybe(sets: seq<Assignment>, a: Option<Assignment>): seq<Assignment> {
    if a.Some? then sets + [a.value] else sets
  }

  lemma AssignMaybe(row: JobRow, sets: seq<Assignment>, a: Option<Assignment>)
    ensures AssignedAll(row, Maybe(sets, a)) == if a.Some? then Assigned(AssignedAll(row, sets), a.value) else AssignedAll(row, sets)
  {
    if a.Some? {
      AssignSnoc(row, sets, a.value);
    }
  }

  function Stated(p: Patch, now: int): seq<Assignment> {
    Maybe(Maybe([UpdatedAt(now)],
                if p.status.Some? then Some(Status(p.status.value)) else None),
          if p.upstreamId.Some? then Some(Upstream(p.upstreamId.value)) else None)
  }

  function Stored(sets: seq<Assignment>, p: Patch): seq<Assignment> {
    Maybe(Maybe(sets,
                if p.fileId.Some? then Some(File(p.fileId.value)) else None),
          if p.errorMessage.Some? then Some(Error(p.errorMessage.value)) else None)
  }

  function Shown(sets: seq<Assignment>, p: Patch): seq<Assignment> {
    Maybe(Maybe(sets,
                if p.progressPct.Some? then Some(Progress(p.progressPct.value)) else None),
          if p.aspectRatio.Write? then Some(Aspect(p.aspectRatio.column)) else None)
  }

  /** The list of assignments `update` builds for the arguments it was given. */
  function SetsFor(p: Patch, now: int): seq<Assignment> {
    Shown(Stored(Stated(p, now), p), p)
  }

  lemma StatedSets(row: JobRow, p: Patch, now: int)
    ensures AssignedAll(row, Stated(p, now))
            == row.(updatedAt := now, status := if p.status.Some? then p.status.value else row.status, upstreamId := Or(p.upstreamId, row.upstreamId))
  {
    AssignSnoc(row, [], UpdatedAt(now));
    var s0 := [UpdatedAt(now)];
    assert [] + [UpdatedAt(now)] == s0;
    var status := if p.status.Some? then Some(Status(p.status.value)) else None;
    AssignMaybe(row, s0, status);
    AssignMaybe(row, Maybe(s0, status), if p.upstreamId.Some? then Some(Upstream(p.upstreamId.value)) else None);
    hide AssignedAll, Maybe;
  }

  lemma StoredSets(row: JobRow, sets: seq<Assignment>, p: Patch)
    ensures AssignedAll(row, Stored(sets, p))
            == AssignedAll(row, sets).(fileId := Or(p.fileId, AssignedAll(row, sets).fileId),
                                       errorMessage := Or(p.errorMessage, AssignedAll(row, sets).errorMessage))
  {
    var file := if p.fileId.Some? then Some(File(p.fileId.value)) else None;
    AssignMaybe(row, sets, file);
    AssignMaybe(row, Maybe(sets, file), if p.errorMessage.Some? then Some(Error(p.errorMessage.value)) else None);
    hide AssignedAll, Maybe;
  }

  lemma ShownSets(row: JobRow, sets: seq<Assignment>, p: Patch)
    ensures AssignedAll(row, Shown(sets, p))
            == AssignedAll(row, sets).(progressPct := Or(p.progressPct, AssignedAll(row, sets).progressPct),
                                       aspectRatio := if p.aspectRatio.Unset? then AssignedAll(row, sets).aspectRatio else p.aspectRatio.column)
  {
    var progress := if p.progressPct.Some? then Some(Progress(p.progressPct.value)) else None;
    AssignMaybe(row, sets, progress);
    AssignMaybe(row, Maybe(sets, progress), if p.aspectRatio.Write? then Some(Aspect(p.aspectRatio.column)) else None);
    hide AssignedAll, Maybe;
  }

  /** Assigned in turn they are the patch: arguments left out leave their column alone, and only
      the aspect ratio can be cleared. */
  lemma SetsArePatch(row: JobRow, p: Patch, now: int)
    ensures AssignedAll(row, SetsFor(p, now)) == Patched(row, p, now)
  {
    StatedSets(row, p, now);
    StoredSets(row, Stated(p, now), p);
    ShownSets(row, Stored(Stated(p, now), p), p);
    hide AssignedAll, Stated, Stored, Shown;
  }

  class JobStore {
    var jobs: map<JobId, JobRow>

    ghost function View(files: map<FileId, FileRow>): Tables
      reads this
    {
      Tables(jobs, files)
    }

    constructor ()
      ensures jobs == map[]
    {
      jobs := map[];
    }

    method Assignments(patch: Patch, now: int) returns (sets: seq<Assignment>)
      ensures sets == SetsFor(patch, now)
    {
      sets := [UpdatedAt(now)];
      if patch.status.Some? {
        sets := sets + [Status(patch.status.value)];
      }
      if patch.upstreamId.Some? {
        sets := sets + [Upstream(patch.upstreamId.value)];
      }
      if patch.fileId.Some? {
        sets := sets + [File(patch.fileId.value)];
      }
      if patch.errorMessage.Some? {
        sets := sets + [Error(patch.errorMessage.value)];
      }
      if patch.progressPct.Some? {
        sets := sets + [Progress(patch.progressPct.value)];
      }
      if patch.aspectRatio.Write? {
        sets := sets + [Aspect(patch.aspectRatio.column)];
      }
    }

    method Update(id: JobId, patch: Patch, now: int)
      modifies this
      ensures forall files :: View(files) == Apply(UpdateJob(id, patch, now), old(View(files)))
    {
      var sets := Assignments(patch, now);
      if id in jobs {
        SetsArePatch(jobs[id], patch, now);
        jobs := jobs[id := AssignedAll(jobs[id], sets)];
      }
    }

    /** Whether the row was changed. */
    method FailIfActive(id: JobId, message: string, now: int) returns (changed: bool)
      modifies this
      ensures forall files :: View(files) == Apply(Statement.FailIfActive(id, message, now), old(View(files)))
      ensures changed <==> id in old(jobs) && IsActive(old(jobs)[id])
      ensures changed ==>
                jobs == old(jobs)[id := old(jobs)[id].(status := Failed, errorMessage := Some(message), updatedAt := now)]
      ensures !changed ==> jobs == old(jobs)
    {
      changed := id in jobs && IsActive(jobs[id]);
      if changed {
        jobs := jobs[id := MarkFailed(jobs[id], message, now)];
      }
    }

    /** How many rows were active. */
    method MarkStaleFailed(message: string, now: int) returns (count: nat)
      modifies this
      ensures forall files :: View(files) == Apply(Statement.MarkStaleFailed(message, now), old(View(files)))
      ensures count == |Active(old(jobs))| && jobs.Keys == old(jobs).Keys
      ensures forall id :: id in old(jobs) ==>
                jobs[id] == if old(jobs)[id].status.Queued? || old(jobs)[id].status.InProgress?
                            then old(jobs)[id].(status := Failed, errorMessage := Some(message), updatedAt := now)
                            else old(jobs)[id]
    {
      count := |Active(jobs)|;
      jobs := map id | id in jobs :: if IsActive(jobs[id]) then MarkFailed(jobs[id], message, now) else jobs[id];
    }

    method PruneTerminal(olderThan: int) returns (count: nat)
      modifies this
      ensures forall files :: View(files) == Apply(Statement.PruneTerminal(olderThan), old(View(files)))
      ensures count == |old(jobs)| - |jobs|
      ensures forall id :: id in jobs <==>
                id in old(jobs) && (old(jobs)[id].status.Queued? || old(jobs)[id].status.InProgress? || old(jobs)[id].updatedAt >= olderThan)
      ensures forall id :: id in jobs ==> jobs[id] == old(jobs)[id]
    {
      var gone := set id | id in jobs && IsTerminal(jobs[id]) && jobs[id].updatedAt < olderThan;
      ghost var before := jobs;
      count := |gone|;
      jobs := map id | id in jobs && !(IsTerminal(jobs[id]) && jobs[id].updatedAt < olderThan) :: jobs[id];
      Partition(before.Keys, jobs.Keys, gone);
    }
  }

  function Active(jobs: map<JobId, JobRow>): set<JobId> {
    set id | id in jobs && IsActive(jobs[id])
  }

  lemma Partition(all: set<JobId>, kept: set<JobId>, gone: set<JobId>)
    requires all == kept + gone && kept !! gone
    ensures |gone| == |all| - |kept|
  {
  }

  /** The first terminal writer wins: a guarded mark leaves a finished row as it is, so a second
      one of the same job, from whoever, changes nothing. */
  lemma FirstMarkWins(t: Tables, id: JobId, first: string, second: string, a: int, b: int)
    ensures var marked := Apply(Statement.FailIfActive(id, first, a), t);
            Apply(Statement.FailIfActive(id, second, b), marked) == marked
  {
    var marked := Apply(Statement.FailIfActive(id, first, a), t);
    assert Apply(Statement.FailIfActive(id, second, b), marked).jobs == marked.jobs;
  }

  /** After a restart nothing is left active, and what was finished is as it was. */
  lemma RestartReaps(t: Tables, message: string, now: int, id: JobId)
    requires id in t.jobs
    ensures var after := Apply(Statement.MarkStaleFailed(message, now), t);
            && id in after.jobs && IsTerminal(after.jobs[id])
            && (IsTerminal(t.jobs[id]) ==> after.jobs[id] == t.jobs[id])
  {
  }

  /** What the statements of the file store do to a file's row: an insert writes no row over, and
      every other statement touches the rows it names and of them the one column. */
  lemma FileStatementsAre(stmt: Statement, t: Tables, f: FileId)
    requires stmt.InsertFile? || stmt.DeleteFiles? || stmt.TouchFile? || stmt.SetPinned?
    ensures var after := Apply(stmt, t);
            && after.jobs == t.jobs
            && (f in after.files <==> (f in t.files || (stmt.InsertFile? && stmt.fileId == f)) && !(stmt.DeleteFiles? && f in stmt.fileIds))
            && (f in after.files && f !in t.files ==> after.files[f] == stmt.row)
            && (f in after.files && f in t.files ==>
                  after.files[f] == if stmt.TouchFile? && stmt.fileId == f then t.files[f].(lastAccessedAt := stmt.now)
                                    else if stmt.SetPinned? && stmt.fileId == f then t.files[f].(pinned := stmt.pinned)
                                    else t.files[f])
  {
  }
}
