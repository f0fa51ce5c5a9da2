/** What a sweep, a reap and a cancelled write achieve, whatever runs beside them. */
module FileStoreSweeps {
  import opened FileStore
  import opened FileStoreRuns

  /** The insert has landed, so the file is written out and no insert of it is to come. */
  predicate HasLanded(s: State, id: Id) {
    id in s.puts && s.puts[id].landed && !s.puts[id].queued && !InThread(s.puts[id])
  }

  lemma StaysLanded(s: State, step: Step, id: Id)
    requires HasLanded(s, id) && Enabled(s, step)
    ensures HasLanded(Do(s, step), id)
    ensures id in Do(s, step).rows ==> id in s.rows
    ensures Final(id) in Do(s, step).files ==> Final(id) in s.files
  {
    hide InsertBegun;
  }

  /** What has landed and is gone stays gone. */
  lemma {:induction false} GoneStays(steps: seq<Step>, from: State, to: State, id: Id)
    requires Runs(steps, from, to) && HasLanded(from, id)
    ensures HasLanded(to, id)
    ensures id !in from.rows ==> id !in to.rows
    ensures Final(id) !in from.files ==> Final(id) !in to.files
    decreases |steps|
  {
    hide Do, Enabled, HasLanded;
    if steps != [] {
      StaysLanded(from, steps[0], id);
      GoneStays(steps[1..], Do(from, steps[0]), to, id);
    }
  }

  lemma LandedIs(s: State, id: Id)
    requires Inv(s) && id in s.puts && s.puts[id].landed
    ensures HasLanded(s, id)
  {
    InvParts(s, id);
  }

  // ----- A sweep -----

  /** The step has to do with the end of the sweep's delete. */
  predicate EndsDelete(step: Step, k: nat) {
    step == DeleteLands(k) || step == DeleteFails(k) || (step.CancelSweep? && step.k == k) || step.Crash?
  }

  lemma StaysDeleting(s: State, step: Step, k: nat, ids: set<Id>)
    requires Enabled(s, step) && !EndsDelete(step, k) && k in s.sweeps && s.sweeps[k] == Deleting(ids)
    ensures k in Do(s, step).sweeps && Do(s, step).sweeps[k] == Deleting(ids)
  {
    hide InsertBegun;
  }

  lemma {:induction false} DeletingStays(steps: seq<Step>, from: State, to: State, k: nat, ids: set<Id>)
    requires Runs(steps, from, to) && (forall step :: step in steps ==> !EndsDelete(step, k))
    requires k in from.sweeps && from.sweeps[k] == Deleting(ids)
    ensures k in to.sweeps && to.sweeps[k] == Deleting(ids)
    decreases |steps|
  {
    hide Do, Enabled, EndsDelete;
    if steps != [] {
      assert steps[0] in steps && forall step :: step in steps[1..] ==> step in steps;
      StaysDeleting(from, steps[0], k, ids);
      DeletingStays(steps[1..], Do(from, steps[0]), to, k, ids);
    }
  }

  /** The step cuts the sweep's unlinks short, or fails the file's. */
  predicate CutsShort(step: Step, k: nat, id: Id) {
    step == SweepEnds(k) || (step.CancelSweep? && step.k == k) || step.Crash? || step == UnlinkOne(k, id, false)
  }

  /** The sweep is unlinking, and has the file before it or behind it. */
  predicate Unlinks(s: State, k: nat, id: Id) {
    k in s.sweeps && s.sweeps[k].Unlinking? && (id in s.sweeps[k].left || Final(id) !in s.files)
  }

  lemma StaysUnlinking(s: State, step: Step, k: nat, id: Id)
    requires Enabled(s, step) && !CutsShort(step, k, id) && Unlinks(s, k, id) && HasLanded(s, id)
    ensures Unlinks(Do(s, step), k, id)
  {
    hide InsertBegun;
  }

  lemma {:induction false} UnlinkingStays(steps: seq<Step>, from: State, to: State, k: nat, id: Id)
    requires Runs(steps, from, to) && (forall step :: step in steps ==> !CutsShort(step, k, id))
    requires Unlinks(from, k, id) && HasLanded(from, id)
    ensures Unlinks(to, k, id)
    decreases |steps|
  {
    hide Do, Enabled, CutsShort, Unlinks, HasLanded;
    if steps != [] {
      assert steps[0] in steps && forall step :: step in steps[1..] ==> step in steps;
      StaysUnlinking(from, steps[0], k, id);
      StaysLanded(from, steps[0], id);
      UnlinkingStays(steps[1..], Do(from, steps[0]), to, k, id);
    }
  }

  lemma DeleteRemoves(s: State, k: nat, ids: set<Id>, id: Id)
    requires Enabled(s, DeleteLands(k)) && s.sweeps[k] == Deleting(ids) && id in ids && HasLanded(s, id)
    ensures id !in Do(s, DeleteLands(k)).rows && Unlinks(Do(s, DeleteLands(k)), k, id) && HasLanded(Do(s, DeleteLands(k)), id)
  {
  }

  lemma StartOpens(s: State, k: nat, ids: set<Id>)
    requires Enabled(s, StartSweep(k, ids))
    ensures var s' := Do(s, StartSweep(k, ids)); k in s'.sweeps && s'.sweeps[k] == Deleting(ids)
  {
  }

  /** A sweep removes what it set out to remove. Whatever else runs beside it: once its delete has
      landed, no file whose insert had landed by then has a row ever again; and once it has ended,
      such a file is not on disk ever again, unless its unlink failed. */
  lemma SweptIsGone(before: seq<Step>, s: State, k: nat, ids: set<Id>, waiting: seq<Step>, ready: State, unlinking: seq<Step>, done: State,
                    later: seq<Step>, t: State, id: Id)
    requires Runs(before, START, s) && Enabled(s, StartSweep(k, ids))
    requires Runs(waiting, Do(s, StartSweep(k, ids)), ready) && forall step :: step in waiting ==> !EndsDelete(step, k)
    requires Enabled(ready, DeleteLands(k)) && Runs(unlinking, Do(ready, DeleteLands(k)), done)
    requires forall step :: step in unlinking ==> !CutsShort(step, k, id)
    requires Enabled(done, SweepEnds(k)) && Runs(later, Do(done, SweepEnds(k)), t)
    requires id in ids && id in ready.puts && ready.puts[id].landed
    ensures id !in done.rows && id !in t.rows && Final(id) !in t.files
  {
    hide Runs, EndsDelete, CutsShort, HasLanded, Inv;
    StartInv();
    RunKeeps(before, START, s);
    StepKeeps(s, StartSweep(k, ids));
    StartOpens(s, k, ids);
    DeletingStays(waiting, Do(s, StartSweep(k, ids)), ready, k, ids);
    RunKeeps(waiting, Do(s, StartSweep(k, ids)), ready);
    LandedIs(ready, id);
    DeleteRemoves(ready, k, ids, id);
    UnlinkingStays(unlinking, Do(ready, DeleteLands(k)), done, k, id);
    GoneStays(unlinking, Do(ready, DeleteLands(k)), done, id);
    assert Final(id) !in done.files;
    StaysLanded(done, SweepEnds(k), id);
    GoneStays(later, Do(done, SweepEnds(k)), t, id);
  }

  lemma StartInv()
    ensures Inv(START)
  {
  }

  /** A row that a read found without a file is gone for good once the delete for it has landed. */
  lemma ReapedIsGone(before: seq<Step>, s: State, later: seq<Step>, t: State, id: Id)
    requires Runs(before, START, s) && Enabled(s, ReapLands(id)) && Runs(later, Do(s, ReapLands(id)), t)
    requires id in s.puts && s.puts[id].landed
    ensures id !in t.rows
  {
    hide Runs, HasLanded, Inv;
    StartInv();
    RunKeeps(before, START, s);
    LandedIs(s, id);
    StaysLanded(s, ReapLands(id), id);
    assert id !in Do(s, ReapLands(id)).rows;
    GoneStays(later, Do(s, ReapLands(id)), t, id);
  }

  // ----- A cancelled write -----

  /** Rows come from inserts that have landed. */
  ghost predicate RowsLanded(s: State) {
    forall id :: id in s.rows ==> id in s.puts && s.puts[id].landed
  }

  lemma RowsLandedKeeps(s: State, step: Step)
    requires RowsLanded(s) && Enabled(s, step)
    ensures RowsLanded(Do(s, step))
  {
    hide InsertBegun;
  }

  lemma {:induction false} RowsHaveLanded(steps: seq<Step>, from: State, to: State)
    requires Runs(steps, from, to) && RowsLanded(from)
    ensures RowsLanded(to)
    decreases |steps|
  {
    hide Do, Enabled, RowsLanded;
    if steps != [] {
      RowsLandedKeeps(from, steps[0]);
      RowsHaveLanded(steps[1..], Do(from, steps[0]), to);
    }
  }

  /** The put was given up before its insert, and comes to nothing. */
  predicate GivenUp(s: State, id: Id) {
    id in s.puts && (s.puts[id].phase.Abandoned? || s.puts[id].phase == Finished(false)) && !s.puts[id].queued && !s.puts[id].landed
  }

  lemma StaysGivenUp(s: State, step: Step, id: Id)
    requires GivenUp(s, id) && Enabled(s, step)
    ensures GivenUp(Do(s, step), id)
    ensures id in Do(s, step).rows ==> id in s.rows
  {
    hide InsertBegun;
  }

  lemma {:induction false} GivenUpStays(steps: seq<Step>, from: State, to: State, id: Id)
    requires Runs(steps, from, to) && GivenUp(from, id) && id !in from.rows
    ensures GivenUp(to, id) && id !in to.rows
    decreases |steps|
  {
    hide Do, Enabled, GivenUp;
    if steps != [] {
      StaysGivenUp(from, steps[0], id);
      GivenUpStays(steps[1..], Do(from, steps[0]), to, id);
    }
  }

  /** A `put` that is cancelled while its file is being written never returns and never has a row. */
  lemma CancelledWriteComesToNothing(before: seq<Step>, s: State, later: seq<Step>, t: State, id: Id)
    requires Runs(before, START, s) && Enabled(s, CancelWrite(id)) && Runs(later, Do(s, CancelWrite(id)), t)
    ensures id in t.puts && t.puts[id].phase != Finished(true) && id !in t.rows
  {
    hide Runs, Inv;
    StartInv();
    RunKeeps(before, START, s);
    RowsHaveLanded(before, START, s);
    InvParts(s, id);
    assert GivenUp(Do(s, CancelWrite(id)), id) && id !in s.rows;
    GivenUpStays(later, Do(s, CancelWrite(id)), t, id);
  }
}
