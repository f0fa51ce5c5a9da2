/** The two tables of the bridge's database and the statements its stores run on them
    (`infra/db.py` migrations, `infra/jobstore.py`, `infra/filestore.py`). */
module Tables {

  import opened Options

  type JobId = string
  type FileId = string

  datatype JobStatus = Queued | InProgress | Completed | Failed

  datatype JobRow = JobRow(
    status: JobStatus,
    fileId: Option<FileId>,
    errorMessage: Option<string>,
    upstreamId: Option<string>,
    aspectRatio: Option<string>,
    progressPct: Option<int>,
    updatedAt: int)

  datatype FileRow = FileRow(storagePath: string, byteSize: nat, createdAt: int, lastAccessedAt: int, pinned: bool)

  datatype Tables = Tables(jobs: map<JobId, JobRow>, files: map<FileId, FileRow>)

  /** `jobstore._UNSET`: leave a column alone, as against writing NULL into it. */
  datatype Column<+T> = Unset | Write(column: Option<T>)

  /** The keyword arguments of `JobStore.update`. */
  datatype Patch = Patch(
    status: Option<JobStatus>,
    upstreamId: Option<string>,
    fileId: Option<FileId>,
    errorMessage: Option<string>,
    progressPct: Option<int>,
    aspectRatio: Column<string>)

  const NO_PATCH := Patch(None, None, None, None, None, Unset)

  datatype Statement =
    | InsertJob(id: JobId, ratio: Option<string>, now: int)
    | UpdateJob(id: JobId, patch: Patch, now: int)
    | FailIfActive(id: JobId, message: string, now: int)
    | MarkStaleFailed(message: string, now: int)
    | PruneTerminal(olderThan: int)
    | InsertFile(fileId: FileId, row: FileRow)
    | DeleteFiles(fileIds: set<FileId>)
    | TouchFile(fileId: FileId, now: int)
    | SetPinned(fileId: FileId, pinned: bool)

  predicate IsActive(row: JobRow) {
    row.status.Queued? || row.status.InProgress?
  }

  predicate IsTerminal(row: JobRow) {
    row.status.Completed? || row.status.Failed?
  }

  function Or<T>(a: Option<T>, b: Option<T>): Option<T> {
    if a.Some? then a else b
  }

  function Patched(row: JobRow, p: Patch, now: int): JobRow {
    JobRow(
      if p.status.Some? then p.status.value else row.status,
      Or(p.fileId, row.fileId),
      Or(p.errorMessage, row.errorMessage),
      Or(p.upstreamId, row.upstreamId),
      if p.aspectRatio.Unset? then row.aspectRatio else p.aspectRatio.column,
      Or(p.progressPct, row.progressPct),
      now)
  }

  function MarkFailed(row: JobRow, message: string, now: int): JobRow {
    row.(status := Failed, errorMessage := Some(message), updatedAt := now)
  }

  /** What a statement does when it succeeds. An insert under a key in use, an update of a row
      that is not there and a delete of one that is not there change nothing. */
  function Apply(s: Statement, t: Tables): Tables {
    match s
    case InsertJob(id, ratio, now) =>
      if id in t.jobs then t
      else t.(jobs := t.jobs[id := JobRow(Queued, None, None, None, ratio, None, now)])
    case UpdateJob(id, patch, now) =>
      if id in t.jobs then t.(jobs := t.jobs[id := Patched(t.jobs[id], patch, now)]) else t
    case FailIfActive(id, message, now) =>
      if id in t.jobs && IsActive(t.jobs[id]) then t.(jobs := t.jobs[id := MarkFailed(t.jobs[id], message, now)]) else t
    case MarkStaleFailed(message, now) =>
      t.(jobs := map id | id in t.jobs ::
        if IsActive(t.jobs[id]) then MarkFailed(t.jobs[id], message, now) else t.jobs[id])
    case PruneTerminal(olderThan) =>
      t.(jobs := map id | id in t.jobs && !(IsTerminal(t.jobs[id]) && t.jobs[id].updatedAt < olderThan) :: t.jobs[id])
    case InsertFile(fileId, row) =>
      if fileId in t.files then t else t.(files := t.files[fileId := row])
    case DeleteFiles(fileIds) => t.(files := t.files - fileIds)
    case TouchFile(fileId, now) =>
      if fileId in t.files then t.(files := t.files[fileId := t.files[fileId].(lastAccessedAt := now)]) else t
    case SetPinned(fileId, pinned) =>
      if fileId in t.files then t.(files := t.files[fileId := t.files[fileId].(pinned := pinned)]) else t
  }

  function ApplyAll(stmts: seq<Statement>, t: Tables): Tables {
    if stmts == [] then t else Apply(stmts[|stmts| - 1], ApplyAll(stmts[..|stmts| - 1], t))
  }

  lemma ApplySnoc(stmts: seq<Statement>, s: Statement, t: Tables)
    ensures ApplyAll(stmts + [s], t) == Apply(s, ApplyAll(stmts, t))
  {
    assert (stmts + [s])[..|stmts|] == stmts;
  }
}
