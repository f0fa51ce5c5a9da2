/** What holds of the slots, permits and names of background tasks over every run. */
module SchedulerRuns {
  import opened Options
  import opened Scheduler

  ghost predicate IsRun(states: seq<State>, steps: seq<Step>, maxConcurrent: int, maxQueued: nat) {
    && |states| == |steps| + 1 && states[0] == Start(maxConcurrent)
    && forall i :: 0 <= i < |steps| ==>
         Enabled(states[i], steps[i]) && states[i + 1] == Do(states[i], steps[i], maxConcurrent + maxQueued)
  }

  lemma {:induction false} RunKeeps(states: seq<State>, steps: seq<Step>, maxConcurrent: int, maxQueued: nat, n: nat)
    requires IsRun(states, steps, maxConcurrent, maxQueued) && maxConcurrent >= 1 && n < |states|
    ensures Inv(states[n], maxConcurrent, maxQueued)
    decreases n
  {
    hide Enabled, Do;
    if n > 0 {
      RunKeeps(states, steps, maxConcurrent, maxQueued, n - 1);
      assert Enabled(states[n - 1], steps[n - 1]);
      StepKeeps(states[n - 1], steps[n - 1], maxConcurrent, maxQueued);
    }
  }

  /** At every suspension point of every run: the slots in use are exactly the holders, none has
      two, there are never more than the cap, and never more permits out than were made. */
  lemma SlotsAreConserved(states: seq<State>, steps: seq<Step>, maxConcurrent: int, maxQueued: nat, n: nat)
    requires IsRun(states, steps, maxConcurrent, maxQueued) && maxConcurrent >= 1 && n < |states|
    ensures InFlight(states[n].pool) == |Holders(states[n])| <= maxConcurrent + maxQueued
    ensures Claims(states[n]) !! states[n].pool.tasks.Keys && forall r :: r in Holders(states[n]) <==> Holds(states[n], r)
    ensures |WithPermit(states[n].pool)| <= maxConcurrent && states[n].pool.free == maxConcurrent - |WithPermit(states[n].pool)|
  {
    RunKeeps(states, steps, maxConcurrent, maxQueued, n);
    Disjoint(Claims(states[n]), states[n].pool.tasks.Keys);
    assert |states[n].pool.tasks| == |states[n].pool.tasks.Keys|;
  }

  lemma Disjoint(a: set<Id>, b: set<Id>)
    requires a !! b
    ensures |a + b| == |a| + |b|
  {
  }

  predicate EndsClaim(step: Step, r: Id) {
    (step.Abort? || step.Cleanup?) && step.r == r
  }

  /** One step: a request's slot begins at its own arrival, when there is room, and ends at its
      own abort or at the cleanup of its own task, and at nothing else. */
  lemma SlotSteps(s: State, step: Step, maxConcurrent: int, maxQueued: nat, r: Id)
    requires Inv(s, maxConcurrent, maxQueued) && Enabled(s, step)
    ensures var s' := Do(s, step, maxConcurrent + maxQueued);
            && (Holds(s, r) ==> step != Arrive(r) && (Holds(s', r) <==> !EndsClaim(step, r)))
            && (!Holds(s, r) ==> (Holds(s', r) <==> step == Arrive(r) && HasRoom(s.pool, maxConcurrent + maxQueued)))
  {
    assert r in s.pool.tasks ==> r in s.requests && s.requests[r].Handed?;
    assert step.r in s.pool.tasks ==> step.r in s.requests && s.requests[step.r].Handed?;
    hide Inv, Counted, Named, WithPermit, HasRoom, InFlight;
  }

  predicate Keeps(steps: seq<Step>, i: nat, k: nat, r: Id)
    requires i <= k <= |steps|
  {
    forall j :: i <= j < k ==> !EndsClaim(steps[j], r)
  }

  lemma Returns(states: seq<State>, steps: seq<Step>, maxConcurrent: int, maxQueued: nat, k: nat, r: Id)
    requires IsRun(states, steps, maxConcurrent, maxQueued) && maxConcurrent >= 1 && k < |steps|
    requires r in states[k].requests
    ensures r in states[k + 1].requests && steps[k] != Arrive(r)
  {
    assert Enabled(states[k], steps[k]);
  }

  lemma RunStep(states: seq<State>, steps: seq<Step>, maxConcurrent: int, maxQueued: nat, k: nat, r: Id)
    requires IsRun(states, steps, maxConcurrent, maxQueued) && maxConcurrent >= 1 && k < |steps|
    ensures Inv(states[k], maxConcurrent, maxQueued) && Enabled(states[k], steps[k])
    ensures states[k + 1] == Do(states[k], steps[k], maxConcurrent + maxQueued)
  {
    RunKeeps(states, steps, maxConcurrent, maxQueued, k);
    hide Inv, Do, Enabled;
  }

  lemma KeepsSnoc(steps: seq<Step>, i: nat, k: nat, r: Id)
    requires i <= k < |steps|
    ensures (Keeps(steps, i, k + 1, r) <==> Keeps(steps, i, k, r) && !EndsClaim(steps[k], r))
  {
    hide EndsClaim;
  }

  lemma KeepsNothing(steps: seq<Step>, i: nat, r: Id)
    requires i <= |steps|
    ensures Keeps(steps, i, i, r)
  {
  }

  lemma RunLength(states: seq<State>, steps: seq<Step>, maxConcurrent: int, maxQueued: nat)
    requires IsRun(states, steps, maxConcurrent, maxQueued)
    ensures |states| == |steps| + 1
  {
  }

  lemma HolderIsKnown(s: State, maxConcurrent: int, maxQueued: nat, r: Id)
    requires Inv(s, maxConcurrent, maxQueued) && Holds(s, r)
    ensures r in s.requests
  {
    hide Counted;
  }

  /** Over every run: an admitted request holds its slot until its reservation is left without a
      submit or its task is cleaned up, and never again. */
  lemma {:induction false} SlotIsKept(states: seq<State>, steps: seq<Step>, maxConcurrent: int, maxQueued: nat, i: nat, k: nat, r: Id)
    requires IsRun(states, steps, maxConcurrent, maxQueued) && maxConcurrent >= 1 && i <= k < |states|
    requires Holds(states[i], r)
    ensures |states| == |steps| + 1 && r in states[k].requests && (Holds(states[k], r) <==> Keeps(steps, i, k, r))
    decreases k
  {
    hide *;
    RunLength(states, steps, maxConcurrent, maxQueued);
    if i == k {
      RunKeeps(states, steps, maxConcurrent, maxQueued, i);
      HolderIsKnown(states[i], maxConcurrent, maxQueued, r);
      KeepsNothing(steps, i, r);
    } else {
      SlotIsKept(states, steps, maxConcurrent, maxQueued, i, k - 1, r);
      RunStep(states, steps, maxConcurrent, maxQueued, k - 1, r);
      SlotSteps(states[k - 1], steps[k - 1], maxConcurrent, maxQueued, r);
      Returns(states, steps, maxConcurrent, maxQueued, k - 1, r);
      KeepsSnoc(steps, i, k - 1, r);
    }
  }

  /** A name finds a live task exactly while the task last submitted under it is live; an older
      task that ends later takes nothing away. */
  lemma NamesFindTheLatest(states: seq<State>, steps: seq<Step>, maxConcurrent: int, maxQueued: nat, n: nat, name: string)
    requires IsRun(states, steps, maxConcurrent, maxQueued) && maxConcurrent >= 1 && n < |states|
    ensures var s := states[n];
            Cancellable(s.pool, name) <==>
              name in s.latest && s.latest[name] in s.pool.tasks && !s.pool.tasks[s.latest[name]].stage.Over?
    ensures Cancellable(states[n].pool, name) ==> states[n].pool.byName[name] == states[n].latest[name]
  {
    RunKeeps(states, steps, maxConcurrent, maxQueued, n);
  }

  /** Between the submit and the way out of `with slot` the slot is counted twice, with no
      suspension point in between: one over the cap at most. */
  lemma CountedTwice(s: State, r: Id, name: Option<string>, maxConcurrent: int, maxQueued: nat)
    requires Inv(s, maxConcurrent, maxQueued) && Enabled(s, HandOver(r, name))
    ensures InFlight(Submitted(s.pool, r, name)) == InFlight(s.pool) + 1 <= maxConcurrent + maxQueued + 1
    ensures InFlight(Do(s, HandOver(r, name), maxConcurrent + maxQueued).pool) == InFlight(s.pool)
  {
    assert Submitted(s.pool, r, name).tasks.Keys == s.pool.tasks.Keys + {r};
    assert |Submitted(s.pool, r, name).tasks.Keys| == |s.pool.tasks.Keys| + 1;
    assert |Submitted(s.pool, r, name).tasks| == |Submitted(s.pool, r, name).tasks.Keys|;
    assert |s.pool.tasks| == |s.pool.tasks.Keys|;
  }
}
