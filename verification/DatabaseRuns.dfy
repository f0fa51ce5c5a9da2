/** What holds of the shared connection over every run of its writers and its worker. */
module DatabaseRuns {
  import opened Database
  import opened Options
  import opened Tables

  ghost predicate IsRun(states: seq<State>, steps: seq<Step>) {
    && |states| == |steps| + 1
    && forall i :: 0 <= i < |steps| ==> Enabled(states[i], steps[i]) && states[i + 1] == Next(states[i], steps[i])
  }

  lemma {:induction false} RunKeeps(states: seq<State>, steps: seq<Step>, t: Tables, n: nat)
    requires IsRun(states, steps) && Inv(states[0], t) && n < |states|
    ensures Inv(states[n], t)
    decreases n
  {
    hide Inv, Enabled, Next;
    if n > 0 {
      RunKeeps(states, steps, t, n - 1);
      assert Enabled(states[n - 1], steps[n - 1]);
      StepKeeps(states[n - 1], steps[n - 1], t);
    }
  }

  lemma {:induction false} RunSettles(states: seq<State>, steps: seq<Step>, m: nat, n: nat)
    requires IsRun(states, steps) && m <= n < |states|
    ensures Settled(states[m]) <= Settled(states[n]) && states[m].landed <= states[n].landed
    decreases n
  {
    hide Enabled, Next, Settled;
    if m < n {
      RunSettles(states, steps, m, n - 1);
      assert Enabled(states[n - 1], steps[n - 1]);
      StepSettles(states[n - 1], steps[n - 1]);
    }
  }

  /** In every state of every run the committed tables are the result of whole blocks, in lock
      order and from the first: a block is in with every statement it asked for or not at all.
      The list of blocks only grows, and so does the part of it that is committed. */
  lemma CommittedIsWholeBlocks(states: seq<State>, steps: seq<Step>, t: Tables, n: nat)
    requires IsRun(states, steps) && states[0] == Start(t) && n < |states|
    ensures var s := states[n];
            && 0 <= Settled(s) <= |s.landed|
            && s.conn.committed == ApplyBlocks(s.landed[..Settled(s)], t)
            && (forall j, k :: 0 <= j < k < |s.landed| ==> s.landed[j].block < s.landed[k].block)
    ensures forall m :: 0 <= m <= n ==> Settled(states[m]) <= Settled(states[n]) && states[m].landed <= states[n].landed
  {
    hide ApplyBlocks, Enabled, Next;
    StartInv(t);
    RunKeeps(states, steps, t, n);
    TrailLength(states[n].conn);
    forall m | 0 <= m <= n ensures Settled(states[m]) <= Settled(states[n]) && states[m].landed <= states[n].landed {
      RunSettles(states, steps, m, n);
    }
  }

  /** No writer's commit adopts another's statements: whoever takes the lock starts, once the
      queue is worked off, with nothing uncommitted. */
  lemma NothingIsAdopted(states: seq<State>, steps: seq<Step>, t: Tables, n: nat)
    requires IsRun(states, steps) && states[0] == Start(t) && n < |states|
    ensures states[n].holder.None? ==> Drain(states[n].conn).working == Drain(states[n].conn).committed
    ensures states[n].holder == Some(Open) ==>
              Drain(states[n].conn).working == ApplyAll(states[n].asked, Drain(states[n].conn).committed)
  {
    StartInv(t);
    RunKeeps(states, steps, t, n);
  }

  /** A commit that came back is in the committed tables, with everything that landed before it. */
  lemma ReturnedCommitIsIn(states: seq<State>, steps: seq<Step>, t: Tables, n: nat)
    requires IsRun(states, steps) && states[0] == Start(t) && n < |states|
    requires states[n].holder == Some(Committing(true)) && CanRelease(states[n])
    ensures var s := states[n];
            && s.conn.committed == ApplyBlocks(s.landed, t)
            && s.landed != [] && s.landed[|s.landed| - 1].block == s.begun
  {
    StartInv(t);
    RunKeeps(states, steps, t, n);
    TrailLength(states[n].conn);
    assert states[n].landed[..|states[n].landed|] == states[n].landed;
  }
}
