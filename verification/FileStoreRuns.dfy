/** What holds of stored files over every run. */
module FileStoreRuns {
  import opened FileStore
  import opened FileStoreHolders
  import opened Options
  import opened Tables

  ghost predicate Runs(steps: seq<Step>, from: State, to: State)
    decreases |steps|
  {
    if steps == [] then to == from else Enabled(from, steps[0]) && Runs(steps[1..], Do(from, steps[0]), to)
  }

  lemma {:induction false} RunKeeps(steps: seq<Step>, from: State, to: State)
    requires Runs(steps, from, to) && Inv(from)
    ensures Inv(to)
    decreases |steps|
  {
    hide Inv, Do, Enabled;
    if steps != [] {
      StepKeeps(from, steps[0]);
      RunKeeps(steps[1..], Do(from, steps[0]), to);
    }
  }

  /** Whatever fails, is cancelled or crashes: a row's path holds exactly the bytes its `put` was
      given, or nothing; never part of them. */
  lemma RowsAreExact(steps: seq<Step>, s: State, id: Id)
    requires Runs(steps, START, s) && id in s.rows
    ensures id in s.puts && (Final(id) in s.files ==> s.files[Final(id)] == Whole(s.puts[id].data))
  {
    RunKeeps(steps, START, s);
    InvParts(s, id);
  }

  /** All puts, cleanups, sweeps and reaps are over and no commit is still queued. */
  predicate Quiet(s: State) {
    && (forall id :: id in s.puts ==> s.puts[id].phase.Finished? && !s.puts[id].queued)
    && s.sweeps == map[] && s.reaping == {}
  }

  // ----- Which files are left without a row -----

  /** At some step of the run the file's last holder let go of it. */
  ghost predicate LetGo(steps: seq<Step>, from: State, id: Id)
    decreases |steps|
  {
    steps != [] && Enabled(from, steps[0]) && (LetsGo(from, steps[0], id) || LetGo(steps[1..], Do(from, steps[0]), id))
  }

  /** At some step of the run the thread left its temporary file behind. */
  ghost predicate DroppedTemp(steps: seq<Step>, from: State, id: Id)
    decreases |steps|
  {
    steps != [] && Enabled(from, steps[0]) && (DropsTemp(from, steps[0], id) || DroppedTemp(steps[1..], Do(from, steps[0]), id))
  }

  lemma {:induction false} RunKeepsHolders(steps: seq<Step>, from: State, to: State, id: Id)
    requires Runs(steps, from, to) && Inv(from)
    ensures Kempt(from, id) && !LetGo(steps, from, id) ==> Kempt(to, id)
    ensures TempKempt(from, id) && !DroppedTemp(steps, from, id) ==> TempKempt(to, id)
    decreases |steps|
  {
    hide Inv, Do, Enabled, LetsGo, DropsTemp, Kempt, TempKempt;
    if steps != [] {
      StepKeeps(from, steps[0]);
      if Kempt(from, id) && !LetsGo(from, steps[0], id) {
        StepKeepsHolder(from, steps[0], id);
      }
      if TempKempt(from, id) && !DropsTemp(from, steps[0], id) {
        TempKeeps(from, steps[0], id);
      }
      RunKeepsHolders(steps[1..], Do(from, steps[0]), to, id);
    }
  }

  lemma {:induction false} LossesStay(steps: seq<Step>, from: State, to: State, id: Id)
    requires Runs(steps, from, to)
    ensures Lost(from, id) ==> Lost(to, id)
    ensures TempLost(from, id) ==> TempLost(to, id)
    decreases |steps|
  {
    hide Do, Enabled, Lost, TempLost;
    if steps != [] {
      if Lost(from, id) {
        LostStays(from, steps[0], id);
      }
      if TempLost(from, id) {
        TempLostStays(from, steps[0], id);
      }
      LossesStay(steps[1..], Do(from, steps[0]), to, id);
    }
  }

  lemma {:induction false} RunLoses(steps: seq<Step>, from: State, to: State, id: Id)
    requires Runs(steps, from, to) && Inv(from)
    ensures LetGo(steps, from, id) ==> Lost(to, id)
    ensures DroppedTemp(steps, from, id) ==> TempLost(to, id)
    decreases |steps|
  {
    hide Inv, Do, Enabled, LetsGo, DropsTemp, Lost, TempLost, Exact;
    if steps != [] {
      StepKeeps(from, steps[0]);
      InvParts(from, id);
      if LetsGo(from, steps[0], id) {
        LetGoIsLost(from, steps[0], id);
      }
      if DropsTemp(from, steps[0], id) {
        DroppedIsLost(from, steps[0], id);
      }
      LossesStay(steps[1..], Do(from, steps[0]), to, id);
      RunLoses(steps[1..], Do(from, steps[0]), to, id);
    }
  }

  /** File by file: once everything has settled, a stored file is without its row exactly when at
      some step of the run its last holder let go of it. */
  lemma OrphanedExactlyWhen(steps: seq<Step>, s: State, id: Id)
    requires Runs(steps, START, s) && Quiet(s) && Final(id) in s.files
    ensures id !in s.rows <==> LetGo(steps, START, id)
  {
    RunKeepsHolders(steps, START, s, id);
    RunLoses(steps, START, s, id);
    if !LetGo(steps, START, id) {
      assert !ToUnlink(s, id) && !InHand(s, id) && !MayLand(s, id);
    }
  }

  /** And a temporary file is there exactly when the thread left it behind. */
  lemma TempStaysExactlyWhen(steps: seq<Step>, s: State, id: Id)
    requires Runs(steps, START, s) && Quiet(s)
    ensures Temp(id) in s.files <==> DroppedTemp(steps, START, id)
  {
    RunKeepsHolders(steps, START, s, id);
    RunLoses(steps, START, s, id);
  }

  /** In no step of the run was there a crash, a cancelled sweep or a failed unlink. */
  ghost predicate Unspoilt(steps: seq<Step>, from: State)
    decreases |steps|
  {
    steps == [] || (Enabled(from, steps[0]) && !Spoils(from, steps[0]) && Unspoilt(steps[1..], Do(from, steps[0])))
  }

  lemma {:induction false} UnspoiltLosesNothing(steps: seq<Step>, from: State, id: Id)
    requires Unspoilt(steps, from) && Inv(from) && !LeftToInsert(from, id)
    ensures !LetGo(steps, from, id) && !DroppedTemp(steps, from, id)
    decreases |steps|
  {
    hide Inv, Do, Enabled, LetsGo, DropsTemp, Spoils, LeftToInsert, Exact, Written;
    if steps != [] {
      StepKeeps(from, steps[0]);
      InvParts(from, id);
      LettingGoSpoils(from, steps[0], id);
      NothingLeftToInsert(from, steps[0], id);
      UnspoiltLosesNothing(steps[1..], Do(from, steps[0]), id);
    }
  }

  /** So once everything has settled, and provided there was no crash, no cancelled sweep and no
      failed unlink, no stored file and no temporary file is without its row. */
  lemma NothingIsOrphaned(steps: seq<Step>, s: State, name: Name)
    requires Runs(steps, START, s) && Quiet(s) && Unspoilt(steps, START) && name in s.files
    ensures name.Final? && name.id in s.rows && name.id in s.puts && s.files[name] == Whole(s.puts[name.id].data)
  {
    UnspoiltLosesNothing(steps, START, name.id);
    RunKeeps(steps, START, s);
    InvParts(s, name.id);
    if name.Temp? {
      TempStaysExactlyWhen(steps, s, name.id);
    } else {
      OrphanedExactlyWhen(steps, s, name.id);
    }
  }

  /** A `put` that returned is stored: row and bytes are there until a sweep, or a read that
      found no file, sets out to remove them; even across a crash. */
  lemma ReturnedPutIsStored(steps: seq<Step>, s: State, id: Id)
    requires Runs(steps, START, s) && id in s.puts && s.puts[id].phase == Finished(true) && id !in s.touched
    ensures id in s.rows && Final(id) in s.files && s.files[Final(id)] == Whole(s.puts[id].data)
  {
    RunKeeps(steps, START, s);
    InvParts(s, id);
  }

  // ----- Why the three provisos are there -----

  lemma {:induction false} RunsOn(steps: seq<Step>, from: State, mid: State, more: seq<Step>, to: State)
    requires Runs(steps, from, mid) && Runs(more, mid, to)
    ensures Runs(steps + more, from, to)
    decreases |steps|
  {
    hide Do, Enabled;
    if steps == [] {
      assert steps + more == more;
    } else {
      assert (steps + more)[1..] == steps[1..] + more;
      RunsOn(steps[1..], Do(from, steps[0]), mid, more, to);
    }
  }

  lemma OneStep(s: State, step: Step)
    requires Enabled(s, step)
    ensures Runs([step], s, Do(s, step))
  {
    assert [step][1..] == [];
  }

  /** `name` is stored and nothing will ever find it. */
  predicate IsOrphan(s: State, name: Name) {
    name in s.files && name.Final? && name.id !in s.rows
  }

  /** A sweep cancelled once its commit is queued, before its unlinks: from every state of every run in which
      a row has its file, the run can go on to orphan it. */
  lemma CancelledSweepOrphans(steps: seq<Step>, s: State, k: nat, id: Id) returns (end: State)
    requires Runs(steps, START, s) && id in s.rows && Final(id) in s.files && k !in s.sweeps
    ensures Runs(steps + [StartSweep(k, {id}), CancelSweep(k, true)], START, end)
    ensures IsOrphan(end, Final(id)) && end.puts == s.puts && end.sweeps == s.sweeps && end.reaping == s.reaping
  {
    var a := Do(s, StartSweep(k, {id}));
    end := Do(a, CancelSweep(k, true));
    assert end.sweeps == s.sweeps;
    OneStep(s, StartSweep(k, {id}));
    OneStep(a, CancelSweep(k, true));
    RunsOn([StartSweep(k, {id})], s, a, [CancelSweep(k, true)], end);
    assert [StartSweep(k, {id})] + [CancelSweep(k, true)] == [StartSweep(k, {id}), CancelSweep(k, true)];
    RunsOn(steps, START, s, [StartSweep(k, {id}), CancelSweep(k, true)], end);
  }

  /** A failed unlink: a `put` whose insert failed and that cannot remove its file orphans it. */
  lemma FailedUnlinkOrphans(steps: seq<Step>, s: State, id: Id) returns (end: State)
    requires Runs(steps, START, s) && id in s.puts && s.puts[id].phase.Discarding? && Final(id) in s.files && id !in s.rows
    ensures Runs(steps + [Discard(id, false)], START, end)
    ensures IsOrphan(end, Final(id)) && end.puts == s.puts[id := s.puts[id].(phase := Finished(false))]
    ensures end.sweeps == s.sweeps && end.reaping == s.reaping
  {
    end := Do(s, Discard(id, false));
    OneStep(s, Discard(id, false));
    RunsOn(steps, START, s, [Discard(id, false)], end);
  }

  /** A crash: a file that was renamed and whose row is not yet in is orphaned. */
  lemma CrashOrphans(steps: seq<Step>, s: State, id: Id) returns (end: State)
    requires Runs(steps, START, s) && Final(id) in s.files && id !in s.rows
    ensures Runs(steps + [Crash], START, end) && IsOrphan(end, Final(id)) && Quiet(end)
  {
    end := Do(s, Crash);
    OneStep(s, Crash);
    RunsOn(steps, START, s, [Crash], end);
  }

  function WriteSteps(id: Id, data: Bytes): seq<Step> {
    [Begin(id, data), WritePart(id), WriteRest(id), Rename(id)]
  }

  /** Every file is on disk for a while before its row is in: a run to that point. */
  lemma WritesRun(id: Id, data: Bytes) returns (s: State)
    ensures Runs(WriteSteps(id, data), START, s)
    ensures s == START.(files := map[Final(id) := Whole(data)], puts := map[id := Put(data, Renamed, AwaitingWrite, false, false)])
  {
    var a := Do(START, Begin(id, data));
    var b := Do(a, WritePart(id));
    var c := Do(b, WriteRest(id));
    s := Do(c, Rename(id));
    OneStep(START, Begin(id, data));
    OneStep(a, WritePart(id));
    OneStep(b, WriteRest(id));
    OneStep(c, Rename(id));
    RunsOn([Begin(id, data)], START, a, [WritePart(id)], b);
    RunsOn([Begin(id, data)] + [WritePart(id)], START, b, [WriteRest(id)], c);
    RunsOn([Begin(id, data)] + [WritePart(id)] + [WriteRest(id)], START, c, [Rename(id)], s);
    assert [Begin(id, data)] + [WritePart(id)] + [WriteRest(id)] + [Rename(id)] == WriteSteps(id, data);
    assert s.files == map[Final(id) := Whole(data)];
    assert s.puts == map[id := Put(data, Renamed, AwaitingWrite, false, false)];
  }

  /** Each proviso is needed: for every file there are runs that settle with it orphaned, one with
      nothing but a crash, one with nothing but a failed unlink, one with nothing but a cancelled
      sweep. */
  lemma EachProvisoIsNeeded(id: Id, data: Bytes) returns (crashed: State, stuck: State, swept: State)
    ensures Quiet(crashed) && IsOrphan(crashed, Final(id)) && Runs(WriteSteps(id, data) + [Crash], START, crashed)
    ensures Quiet(stuck) && IsOrphan(stuck, Final(id))
    ensures Runs(WriteSteps(id, data) + [Resume(id), InsertStops(id)] + [Discard(id, false)], START, stuck)
    ensures Quiet(swept) && IsOrphan(swept, Final(id))
    ensures Runs(WriteSteps(id, data) + [Resume(id), QueueInsert(id), InsertLands(id), InsertReturns(id)]
                 + [StartSweep(0, {id}), CancelSweep(0, true)], START, swept)
  {
    var written := WritesRun(id, data);
    crashed := CrashOrphans(WriteSteps(id, data), written, id);
    var resumed := Do(written, Resume(id));
    OneStep(written, Resume(id));
    var stopped := Do(resumed, InsertStops(id));
    StopRun(id, data, written, resumed, stopped);
    stuck := FailedUnlinkOrphans(WriteSteps(id, data) + [Resume(id), InsertStops(id)], stopped, id);
    var stored := InsertRuns(id, data, written, resumed);
    swept := CancelledSweepOrphans(WriteSteps(id, data) + [Resume(id), QueueInsert(id), InsertLands(id), InsertReturns(id)],
                                   stored, 0, id);
  }

  lemma StopRun(id: Id, data: Bytes, written: State, resumed: State, stopped: State)
    requires Runs(WriteSteps(id, data), START, written) && Runs([Resume(id)], written, resumed)
    requires Enabled(resumed, InsertStops(id)) && stopped == Do(resumed, InsertStops(id))
    ensures Runs(WriteSteps(id, data) + [Resume(id), InsertStops(id)], START, stopped)
  {
    hide Do, Enabled, WriteSteps, Runs;
    OneStep(resumed, InsertStops(id));
    RunsOn([Resume(id)], written, resumed, [InsertStops(id)], stopped);
    assert [Resume(id)] + [InsertStops(id)] == [Resume(id), InsertStops(id)];
    RunsOn(WriteSteps(id, data), START, written, [Resume(id), InsertStops(id)], stopped);
  }

  lemma InsertLandsAt(id: Id, data: Bytes, s: State) returns (stored: State)
    requires s == START.(files := map[Final(id) := Whole(data)], puts := map[id := Put(data, Renamed, Inserting, false, false)])
    ensures Runs([QueueInsert(id)] + [InsertLands(id)] + [InsertReturns(id)], s, stored)
    ensures stored == s.(rows := {id}, puts := map[id := Put(data, Renamed, Finished(true), false, true)])
  {
    var a := Do(s, QueueInsert(id));
    var b := Do(a, InsertLands(id));
    stored := Do(b, InsertReturns(id));
    assert stored.puts == map[id := Put(data, Renamed, Finished(true), false, true)] && stored.rows == {id};
    OneStep(s, QueueInsert(id));
    OneStep(a, InsertLands(id));
    OneStep(b, InsertReturns(id));
    hide *;
    RunsOn([QueueInsert(id)], s, a, [InsertLands(id)], b);
    RunsOn([QueueInsert(id)] + [InsertLands(id)], s, b, [InsertReturns(id)], stored);
  }

  lemma InsertRuns(id: Id, data: Bytes, written: State, resumed: State) returns (stored: State)
    requires Runs(WriteSteps(id, data), START, written) && Runs([Resume(id)], written, resumed)
    requires resumed == START.(files := map[Final(id) := Whole(data)], puts := map[id := Put(data, Renamed, Inserting, false, false)])
    ensures Runs(WriteSteps(id, data) + [Resume(id), QueueInsert(id), InsertLands(id), InsertReturns(id)], START, stored)
    ensures stored == resumed.(rows := {id}, puts := map[id := Put(data, Renamed, Finished(true), false, true)])
  {
    stored := InsertLandsAt(id, data, resumed);
    hide WriteSteps, Runs, Do, Enabled;
    var insert := [QueueInsert(id)] + [InsertLands(id)] + [InsertReturns(id)];
    RunsOn([Resume(id)], written, resumed, insert, stored);
    assert [Resume(id)] + insert == [Resume(id), QueueInsert(id), InsertLands(id), InsertReturns(id)];
    RunsOn(WriteSteps(id, data), START, written, [Resume(id)] + insert, stored);
  }
}
