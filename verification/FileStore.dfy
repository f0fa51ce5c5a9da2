/** Stored files: bytes on disk and rows in the database (`infra/filestore.py`), under failure,
    cancellation and crashes.

    Every `put` draws a fresh id; a worker thread writes a temporary file and renames it, and
    cannot be stopped; the row is inserted afterwards. Sweeps delete rows and then unlink. Every
    suspension point, and every point inside the worker thread, separates two steps. */
module FileStore {
  import opened Options
  import opened Tables

  type Id = FileId
  type Bytes = seq<bv8>

  datatype Name = Temp(id: Id) | Final(id: Id)

  datatype Content = Part | Whole(data: Bytes)

  /** Where `_write_atomic` stands in its thread. */
  datatype Writing = Unwritten | PartTemp | WholeTemp | Renamed | WriteFailed

  datatype Phase =
    | AwaitingWrite
    | Abandoned                // cancelled; a callback will discard what the thread leaves
    | Inserting
    | Discarding               // the insert raised or was cancelled
    | Finished(returned: bool)

  /** `queued` while the insert's commit may still land, `landed` once it has. */
  datatype Put = Put(data: Bytes, writing: Writing, phase: Phase, queued: bool, landed: bool)

  /** The unlinks run in a worker thread that, once started, nothing but a crash stops. */
  datatype Sweep = Deleting(ids: set<Id>) | Unlinking(left: set<Id>, started: bool)

  /** `touched` are the ids a sweep or a read has set out to remove. */
  datatype State = State(
    files: map<Name, Content>,
    rows: set<Id>,
    puts: map<Id, Put>,
    sweeps: map<nat, Sweep>,
    reaping: set<Id>,
    touched: set<Id>)

  datatype Step =
    | Begin(id: Id, data: Bytes)
    | WritePart(id: Id)
    | WriteRest(id: Id)
    | Rename(id: Id)
    | WriteFails(id: Id, unlinked: bool)
    | CancelWrite(id: Id)
    | Resume(id: Id)
    | Callback(id: Id, unlinked: bool)
    | QueueInsert(id: Id)
    | InsertLands(id: Id)
    | InsertIsUndone(id: Id)
    | InsertReturns(id: Id)
    | InsertStops(id: Id)
    | Discard(id: Id, unlinked: bool)
    | StartSweep(k: nat, ids: set<Id>)
    | DeleteLands(k: nat)
    | DeleteFails(k: nat)
    | UnlinkOne(k: nat, id: Id, unlinked: bool)
    | SweepEnds(k: nat)
    | CancelSweep(k: nat, landed: bool)
    | StatFindsNothing(id: Id)      // `open_for_read`
    | ReapLands(id: Id)
    | Crash

  predicate At(s: State, id: Id, w: Writing, p: Phase) {
    id in s.puts && s.puts[id].writing == w && s.puts[id].phase == p
  }

  predicate InThread(p: Put) {
    p.phase.AwaitingWrite? || p.phase.Abandoned?
  }

  predicate InsertBegun(s: State, id: Id) {
    id in s.rows || (id in s.puts && s.puts[id].phase.Inserting?)
  }

  predicate Enabled(s: State, step: Step) {
    match step
    case Begin(id, _) => id !in s.puts
    case WritePart(id) => id in s.puts && InThread(s.puts[id]) && s.puts[id].writing.Unwritten?
    case WriteRest(id) => id in s.puts && InThread(s.puts[id]) && s.puts[id].writing.PartTemp?
    case Rename(id) => id in s.puts && InThread(s.puts[id]) && s.puts[id].writing.WholeTemp?
    case WriteFails(id, _) =>
      id in s.puts && InThread(s.puts[id]) && (s.puts[id].writing.Unwritten? || s.puts[id].writing.PartTemp? || s.puts[id].writing.WholeTemp?)
    case CancelWrite(id) => id in s.puts && s.puts[id].phase.AwaitingWrite?
    case Resume(id) => At(s, id, Renamed, AwaitingWrite) || At(s, id, WriteFailed, AwaitingWrite)
    case Callback(id, _) => At(s, id, Renamed, Abandoned) || At(s, id, WriteFailed, Abandoned)
    case QueueInsert(id) => id in s.puts && s.puts[id].phase.Inserting? && !s.puts[id].queued && !s.puts[id].landed
    case InsertLands(id) => id in s.puts && s.puts[id].queued
    case InsertIsUndone(id) => id in s.puts && s.puts[id].queued && !s.puts[id].phase.Inserting?
    case InsertReturns(id) => id in s.puts && s.puts[id].phase.Inserting? && s.puts[id].landed
    case InsertStops(id) => id in s.puts && s.puts[id].phase.Inserting?
    case Discard(id, _) => id in s.puts && s.puts[id].phase.Discarding?
    case StartSweep(k, ids) => k !in s.sweeps && forall id :: id in ids ==> InsertBegun(s, id)
    case DeleteLands(k) => k in s.sweeps && s.sweeps[k].Deleting?
    case DeleteFails(k) => k in s.sweeps && s.sweeps[k].Deleting?
    case UnlinkOne(k, id, _) => k in s.sweeps && s.sweeps[k].Unlinking? && id in s.sweeps[k].left
    case SweepEnds(k) => k in s.sweeps && s.sweeps[k].Unlinking? && s.sweeps[k].left == {}
    case CancelSweep(k, _) => k in s.sweeps && (s.sweeps[k].Unlinking? ==> !s.sweeps[k].started)
    case StatFindsNothing(id) => InsertBegun(s, id) && Final(id) !in s.files
    case ReapLands(id) => id in s.reaping
    case Crash => true
  }

  function Set(s: State, id: Id, p: Put): State {
    s.(puts := s.puts[id := p])
  }

  function Unlink(s: State, name: Name, unlinked: bool): State {
    if unlinked then s.(files := s.files - {name}) else s
  }

  function Stopped(p: Put): Put {
    if p.phase.Finished? then p.(queued := false) else p.(phase := Finished(false), queued := false)
  }

  function Do(s: State, step: Step): State
    requires Enabled(s, step)
  {
    match step
    case Begin(id, data) => Set(s, id, Put(data, Unwritten, AwaitingWrite, false, false))
    case WritePart(id) => Set(s, id, s.puts[id].(writing := PartTemp)).(files := s.files[Temp(id) := Part])
    case WriteRest(id) => Set(s, id, s.puts[id].(writing := WholeTemp)).(files := s.files[Temp(id) := Whole(s.puts[id].data)])
    case Rename(id) =>
      if Temp(id) in s.files
      then Set(s, id, s.puts[id].(writing := Renamed)).(files := (s.files - {Temp(id)})[Final(id) := s.files[Temp(id)]])
      else s
    case WriteFails(id, unlinked) => Unlink(Set(s, id, s.puts[id].(writing := WriteFailed)), Temp(id), unlinked)
    case CancelWrite(id) => Set(s, id, s.puts[id].(phase := Abandoned))
    case Resume(id) => Set(s, id, s.puts[id].(phase := if s.puts[id].writing.Renamed? then Inserting else Finished(false)))
    case Callback(id, unlinked) => Unlink(Set(s, id, s.puts[id].(phase := Finished(false))), Final(id), unlinked)
    case QueueInsert(id) => Set(s, id, s.puts[id].(queued := true))
    case InsertLands(id) => Set(s, id, s.puts[id].(queued := false, landed := true)).(rows := s.rows + {id})
    case InsertIsUndone(id) => Set(s, id, s.puts[id].(queued := false))
    case InsertReturns(id) => Set(s, id, s.puts[id].(phase := Finished(true)))
    case InsertStops(id) => Set(s, id, s.puts[id].(phase := Discarding))
    case Discard(id, unlinked) => Unlink(Set(s, id, s.puts[id].(phase := Finished(false))), Final(id), unlinked)
    case StartSweep(k, ids) => s.(sweeps := s.sweeps[k := Deleting(ids)], touched := s.touched + ids)
    case DeleteLands(k) => s.(rows := s.rows - s.sweeps[k].ids, sweeps := s.sweeps[k := Unlinking(s.sweeps[k].ids, false)])
    case DeleteFails(k) => s.(sweeps := s.sweeps - {k})
    case UnlinkOne(k, id, unlinked) =>
      Unlink(s, Final(id), unlinked).(sweeps := s.sweeps[k := Unlinking(s.sweeps[k].left - {id}, true)])
    case SweepEnds(k) => s.(sweeps := s.sweeps - {k})
    case CancelSweep(k, landed) =>
      s.(rows := if s.sweeps[k].Deleting? && landed then s.rows - s.sweeps[k].ids else s.rows,
         sweeps := s.sweeps - {k})
    case StatFindsNothing(id) => s.(reaping := s.reaping + {id}, touched := s.touched + {id})
    case ReapLands(id) => s.(rows := s.rows - {id}, reaping := s.reaping - {id})
    case Crash =>
      s.(puts := map id | id in s.puts :: Stopped(s.puts[id]), sweeps := map[], reaping := {})
  }

  const START := State(map[], {}, map[], map[], {}, {})

  /** What makes `_write_atomic` fail, if anything does. */
  datatype Fault = NoFault | BeforeWriting | WhileWriting | WhileRenaming

  class Disk {
    var files: map<Name, Content>

    constructor ()
      ensures files == map[]
    {
      files := map[];
    }

    /** `_write_atomic`: the final name changes only on success, and then to the whole of the
        data; nothing temporary stays unless its unlink fails. */
    method WriteAtomic(id: Id, data: Bytes, fault: Fault, unlinked: bool) returns (written: bool)
      modifies this
      ensures written <==> fault.NoFault?
      ensures written ==> files == (old(files) - {Temp(id)})[Final(id) := Whole(data)]
      ensures !written && (unlinked || Temp(id) !in files) ==> files == old(files) - {Temp(id)}
      ensures forall name :: name != Temp(id) && name != Final(id) ==>
                (name in files <==> name in old(files)) && (name in files ==> files[name] == old(files)[name])
      ensures !written ==> (Final(id) in files <==> Final(id) in old(files)) && (Final(id) in files ==> files[Final(id)] == old(files)[Final(id)])
    {
      if !fault.BeforeWriting? {
        files := files[Temp(id) := Part];
        if !fault.WhileWriting? {
          files := files[Temp(id) := Whole(data)];
          if !fault.WhileRenaming? {
            files := (files - {Temp(id)})[Final(id) := files[Temp(id)]];
            return true;
          }
        }
      }
      if unlinked {
        files := files - {Temp(id)};
      }
      written := false;
    }
  }

  // ----- The invariant -----

  /** A final name holds exactly what was put; a temporary one is the thread's business. */
  predicate Exact(s: State, id: Id) {
    && (Final(id) in s.files ==> id in s.puts && s.puts[id].writing.Renamed? && s.files[Final(id)] == Whole(s.puts[id].data))
    && (id in s.puts && InThread(s.puts[id]) && s.puts[id].writing.WholeTemp? ==>
          Temp(id) in s.files && s.files[Temp(id)] == Whole(s.puts[id].data))
    && (Temp(id) in s.files ==> id in s.puts)
  }

  predicate PastWrite(p: Put) {
    p.phase.Inserting? || p.phase.Discarding? || p.queued || p.landed || p.phase == Finished(true)
  }

  /** Rows, and everything that is about to be swept or reaped, were written out before. */
  predicate Written(s: State, id: Id) {
    WrittenRow(s, id) && WrittenPut(s, id)
  }

  predicate WrittenRow(s: State, id: Id) {
    && (id in s.rows || id in s.touched || id in s.reaping ==> id in s.puts && s.puts[id].writing.Renamed?)
    && (id in s.reaping ==> Final(id) !in s.files && id in s.touched)
  }

  predicate WrittenPut(s: State, id: Id) {
    && (id in s.puts && PastWrite(s.puts[id]) ==> s.puts[id].writing.Renamed?)
    && (id in s.puts && s.puts[id].queued ==> !s.puts[id].landed && !InThread(s.puts[id]) && s.puts[id].phase != Finished(true))
    && (id in s.puts && s.puts[id].landed ==> !InThread(s.puts[id]))
    && (id in s.puts && s.puts[id].phase == Finished(true) ==> s.puts[id].landed)
  }

  /** A put nobody has set out to remove keeps its file and its row. */
  predicate Kept(s: State, id: Id) {
    id in s.puts && id !in s.touched && s.puts[id].writing.Renamed? ==>
      && ((s.puts[id].phase.AwaitingWrite? || s.puts[id].phase.Inserting? || s.puts[id].phase == Finished(true)) ==> Final(id) in s.files)
      && (s.puts[id].landed ==> id in s.rows)
  }

  predicate SweepsTouched(s: State) {
    forall k, id :: k in s.sweeps && (id in (match s.sweeps[k] case Deleting(ids) => ids case Unlinking(left, _) => left)) ==> id in s.touched
  }

  ghost predicate Inv(s: State) {
    && SweepsTouched(s)
    && forall id :: Exact(s, id) && Written(s, id) && Kept(s, id)
  }

  predicate InvAt(s: State, id: Id) {
    Exact(s, id) && Written(s, id) && Kept(s, id)
  }

  lemma InvParts(s: State, id: Id)
    requires Inv(s)
    ensures InvAt(s, id) && SweepsTouched(s)
  {
  }

  predicate IsWriting(step: Step) {
    step.Begin? || step.WritePart? || step.WriteRest? || step.Rename? || step.WriteFails?
  }

  lemma ExactKeeps(s: State, step: Step, id: Id)
    requires Exact(s, id) && Written(s, id) && Enabled(s, step)
    ensures Exact(Do(s, step), id)
  {
    hide Do, Enabled, Exact, Written;
    if IsWriting(step) {
      ExactWriting(s, step, id);
    } else {
      ExactAfter(s, step, id);
    }
  }

  lemma ExactWriting(s: State, step: Step, id: Id)
    requires Exact(s, id) && Enabled(s, step) && IsWriting(step)
    ensures Exact(Do(s, step), id)
  {
  }

  lemma ExactAfter(s: State, step: Step, id: Id)
    requires Exact(s, id) && Enabled(s, step) && !IsWriting(step)
    ensures Exact(Do(s, step), id)
  {
    hide InsertBegun;
  }

  lemma WrittenKeeps(s: State, step: Step, id: Id)
    requires Exact(s, id) && Written(s, id) && SweepsTouched(s) && Enabled(s, step)
    ensures Written(Do(s, step), id)
  {
    WrittenRowKeeps(s, step, id);
    WrittenPutKeeps(s, step, id);
    hide *;
    WrittenIs(Do(s, step), id);
  }

  lemma WrittenIs(s: State, id: Id)
    requires WrittenRow(s, id) && WrittenPut(s, id)
    ensures Written(s, id)
  {
  }

  lemma WrittenRowKeeps(s: State, step: Step, id: Id)
    requires Exact(s, id) && Written(s, id) && Enabled(s, step)
    ensures WrittenRow(Do(s, step), id)
  {
    hide Do, Enabled, WrittenRow;
    if IsWriting(step) {
      RowWriting(s, step, id);
    } else {
      RowAfter(s, step, id);
    }
  }

  lemma RowWriting(s: State, step: Step, id: Id)
    requires WrittenRow(s, id) && Enabled(s, step) && IsWriting(step)
    ensures WrittenRow(Do(s, step), id)
  {
  }

  lemma RowAfter(s: State, step: Step, id: Id)
    requires WrittenRow(s, id) && WrittenPut(s, id) && Enabled(s, step) && !IsWriting(step)
    ensures WrittenRow(Do(s, step), id)
  {
  }

  lemma WrittenPutKeeps(s: State, step: Step, id: Id)
    requires WrittenPut(s, id) && Enabled(s, step)
    ensures WrittenPut(Do(s, step), id)
  {
    hide Unlink, InsertBegun;
    UnlinkKeepsPuts();
  }

  lemma UnlinkKeepsPuts()
    ensures forall s, name, unlinked :: Unlink(s, name, unlinked).puts == s.puts
  {
  }

  lemma KeptKeeps(s: State, step: Step, id: Id)
    requires InvAt(s, id) && SweepsTouched(s) && Enabled(s, step)
    ensures Kept(Do(s, step), id)
  {
  }

  lemma SweepsKeep(s: State, step: Step)
    requires SweepsTouched(s) && Enabled(s, step)
    ensures SweepsTouched(Do(s, step))
  {
  }

  lemma StepKeeps(s: State, step: Step)
    requires Inv(s) && Enabled(s, step)
    ensures Inv(Do(s, step))
  {
    hide Exact, Written, Kept, Do, Enabled;
    SweepsKeep(s, step);
    forall id ensures InvAt(Do(s, step), id) {
      InvParts(s, id);
      ExactKeeps(s, step, id);
      WrittenKeeps(s, step, id);
      KeptKeeps(s, step, id);
    }
    forall id ensures Exact(Do(s, step), id) && Written(Do(s, step), id) && Kept(Do(s, step), id) {
      assert InvAt(Do(s, step), id);
    }
  }
}
