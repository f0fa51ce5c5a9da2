/** Who is going to see to a stored file: its row, a sweep about to unlink it, its `put`, or an
    insert that may still land; and at which steps the last of them lets go of it. */
module FileStoreHolders {
  import opened FileStore
  import opened Options
  import opened Tables

  // ----- Holders -----

  /** A sweep whose DELETE is committed and that has the file still to unlink. */
  predicate Unlinks(s: State, k: nat, id: Id) {
    k in s.sweeps && s.sweeps[k].Unlinking? && id in s.sweeps[k].left
  }

  predicate ToUnlink(s: State, id: Id) {
    exists k :: k in s.sweeps && Unlinks(s, k, id)
  }

  /** The `put` has the file in hand, unless it has handed it to a row. */
  predicate InHand(s: State, id: Id) {
    id in s.puts && (InThread(s.puts[id]) || s.puts[id].phase.Discarding? || (s.puts[id].phase.Inserting? && !s.puts[id].landed))
  }

  predicate MayLand(s: State, id: Id) {
    id in s.puts && s.puts[id].queued
  }

  predicate Held(s: State, id: Id) {
    id in s.rows || ToUnlink(s, id) || InHand(s, id) || MayLand(s, id)
  }

  predicate UnlinksOther(s: State, k: nat, id: Id) {
    exists other :: other in s.sweeps && other != k && Unlinks(s, other, id)
  }

  // ----- Letting go -----

  /** The step takes the last holder from a file that is there, and leaves the file. */
  predicate LetsGo(s: State, step: Step, id: Id) {
    Final(id) in s.files &&
    match step
    case Crash => id !in s.rows
    case Callback(i, unlinked) => i == id && !unlinked && id !in s.rows && !ToUnlink(s, id) && !MayLand(s, id)
    case Discard(i, unlinked) => i == id && !unlinked && id !in s.rows && !ToUnlink(s, id) && !MayLand(s, id)
    case InsertIsUndone(i) => i == id && id !in s.rows && !ToUnlink(s, id) && !InHand(s, id)
    case UnlinkOne(k, i, unlinked) =>
      i == id && !unlinked && id !in s.rows && !UnlinksOther(s, k, id) && !InHand(s, id) && !MayLand(s, id)
    case CancelSweep(k, landed) =>
      && k in s.sweeps
      && (if s.sweeps[k].Deleting? then landed && id in s.sweeps[k].ids else id in s.sweeps[k].left && id !in s.rows)
      && !UnlinksOther(s, k, id) && !InHand(s, id) && !MayLand(s, id)
    case _ => false
  }

  /** A file that is there has a holder. */
  predicate Kempt(s: State, id: Id) {
    Final(id) in s.files ==> Held(s, id)
  }

  predicate IsSweeping(step: Step) {
    step.StartSweep? || step.DeleteLands? || step.DeleteFails? || step.UnlinkOne? || step.SweepEnds? || step.CancelSweep?
  }

  lemma KemptWriting(s: State, step: Step, id: Id)
    requires Kempt(s, id) && Exact(s, id) && Enabled(s, step) && IsWriting(step)
    ensures Kempt(Do(s, step), id)
  {
    assert Do(s, step).sweeps == s.sweeps && Do(s, step).rows == s.rows;
    if ToUnlink(s, id) {
      var k :| k in s.sweeps && Unlinks(s, k, id);
      assert Unlinks(Do(s, step), k, id);
    }
    hide ToUnlink;
  }

  lemma KemptSweeping(s: State, step: Step, id: Id)
    requires Kempt(s, id) && Enabled(s, step) && IsSweeping(step) && !LetsGo(s, step, id)
    ensures Kempt(Do(s, step), id)
  {
    var s' := Do(s, step);
    if ToUnlink(s, id) && !(step.UnlinkOne? && step.id == id) && !step.CancelSweep? {
      var k :| k in s.sweeps && Unlinks(s, k, id);
      assert Unlinks(s', k, id);
    }
    if (step.UnlinkOne? || step.CancelSweep?) && UnlinksOther(s, step.k, id) {
      var other :| other in s.sweeps && other != step.k && Unlinks(s, other, id);
      assert Unlinks(s', other, id);
    }
    if step.DeleteLands? && id in s.sweeps[step.k].ids {
      assert Unlinks(s', step.k, id);
    }
    if ToUnlink(s, id) && (step.UnlinkOne? || step.CancelSweep?) {
      var k :| k in s.sweeps && Unlinks(s, k, id);
      if k != step.k {
        assert UnlinksOther(s, step.k, id);
      } else if step.UnlinkOne? && step.id != id {
        assert Unlinks(s', k, id);
      }
    }
    hide ToUnlink, UnlinksOther;
  }

  lemma KemptPutting(s: State, step: Step, id: Id)
    requires Kempt(s, id) && Exact(s, id) && Written(s, id) && Enabled(s, step)
    requires !IsWriting(step) && !IsSweeping(step) && !step.Crash? && !LetsGo(s, step, id)
    ensures Kempt(Do(s, step), id)
  {
    if ToUnlink(s, id) {
      var k :| k in s.sweeps && Unlinks(s, k, id);
      assert Unlinks(Do(s, step), k, id);
    }
    hide ToUnlink, InsertBegun;
  }

  /** Until a step lets go of it a file has a holder. */
  lemma StepKeepsHolder(s: State, step: Step, id: Id)
    requires Kempt(s, id) && Inv(s) && Enabled(s, step) && !LetsGo(s, step, id)
    ensures Kempt(Do(s, step), id)
  {
    InvParts(s, id);
    hide Kempt, Inv, Do, Enabled, Exact, Written;
    if IsWriting(step) {
      KemptWriting(s, step, id);
    } else if IsSweeping(step) {
      KemptSweeping(s, step, id);
    } else if step.Crash? {
      KemptCrash(s, id);
    } else {
      KemptPutting(s, step, id);
    }
  }

  lemma KemptCrash(s: State, id: Id)
    requires !LetsGo(s, Crash, id)
    ensures Kempt(Do(s, Crash), id)
  {
  }

  // ----- For good -----

  /** No row of the file will ever be inserted again. */
  predicate Lost(s: State, id: Id) {
    id in s.puts && id !in s.rows && !s.puts[id].queued && (s.puts[id].phase.Finished? || s.puts[id].landed)
  }

  lemma LetGoIsLost(s: State, step: Step, id: Id)
    requires Inv(s) && Enabled(s, step) && LetsGo(s, step, id)
    ensures Lost(Do(s, step), id)
  {
    InvParts(s, id);
    hide Inv, Kept, SweepsTouched, ToUnlink, UnlinksOther;
  }

  lemma LostStays(s: State, step: Step, id: Id)
    requires Lost(s, id) && Enabled(s, step)
    ensures Lost(Do(s, step), id)
  {
    hide InsertBegun;
  }

  // ----- Temporary files -----

  /** The thread leaves its temporary file behind. */
  predicate DropsTemp(s: State, step: Step, id: Id) {
    Temp(id) in s.files && (step == WriteFails(id, false) || step.Crash?)
  }

  /** The thread will see to the temporary file. */
  predicate TempKempt(s: State, id: Id) {
    Temp(id) in s.files ==>
      id in s.puts && InThread(s.puts[id]) && (s.puts[id].writing.PartTemp? || s.puts[id].writing.WholeTemp?)
  }

  /** Nothing will. */
  predicate TempLost(s: State, id: Id) {
    Temp(id) in s.files && id in s.puts && (s.puts[id].writing.WriteFailed? || !InThread(s.puts[id]))
  }

  lemma TempKeeps(s: State, step: Step, id: Id)
    requires TempKempt(s, id) && Enabled(s, step) && !DropsTemp(s, step, id)
    ensures TempKempt(Do(s, step), id)
  {
    hide InsertBegun;
  }

  lemma DroppedIsLost(s: State, step: Step, id: Id)
    requires Exact(s, id) && Enabled(s, step) && DropsTemp(s, step, id)
    ensures TempLost(Do(s, step), id)
  {
  }

  lemma TempLostStays(s: State, step: Step, id: Id)
    requires TempLost(s, id) && Enabled(s, step)
    ensures TempLost(Do(s, step), id)
  {
    hide InsertBegun;
  }

  // ----- Causes -----

  /** What has to happen for anything to be left behind: a crash, a cancelled sweep, or an unlink
      that fails on a file that is there. */
  predicate Spoils(s: State, step: Step) {
    match step
    case Crash => true
    case CancelSweep(_, _) => true
    case WriteFails(id, unlinked) => !unlinked && Temp(id) in s.files
    case Callback(id, unlinked) => !unlinked && Final(id) in s.files
    case Discard(id, unlinked) => !unlinked && Final(id) in s.files
    case UnlinkOne(_, id, unlinked) => !unlinked && Final(id) in s.files
    case _ => false
  }

  /** The `put` is over and has left its file to an insert that may still land. */
  predicate LeftToInsert(s: State, id: Id) {
    Final(id) in s.files && MayLand(s, id) && s.puts[id].phase.Finished?
  }

  lemma NothingLeftToInsert(s: State, step: Step, id: Id)
    requires Exact(s, id) && Written(s, id) && Enabled(s, step) && !Spoils(s, step) && !LeftToInsert(s, id)
    ensures !LeftToInsert(Do(s, step), id)
  {
    hide InsertBegun;
  }

  lemma LettingGoSpoils(s: State, step: Step, id: Id)
    requires Written(s, id) && Enabled(s, step) && !LeftToInsert(s, id)
    ensures LetsGo(s, step, id) || DropsTemp(s, step, id) ==> Spoils(s, step)
  {
    hide ToUnlink, UnlinksOther;
  }
}
