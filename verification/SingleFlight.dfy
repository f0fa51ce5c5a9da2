/** At most one live task per key (`infra/tasks.py`, `SingleFlight`). */
module SingleFlights {
  import opened Options

  type Id = nat

  /** `byKey` is `_tasks`, and `awaited` what a `cancel_all` under way is waiting for. The rest is
      history: the key each task was started for, and which tasks are done. */
  datatype State = State(byKey: map<string, Id>, keyOf: map<Id, string>, done: set<Id>, awaited: Option<set<Id>>)

  const EMPTY := State(map[], map[], {}, None)

  predicate Alive(s: State, id: Id) {
    id in s.keyOf && id !in s.done
  }

  datatype Step =
    | Join(key: string, id: Id)      // `id` is the task a start would create
    | Finish(id: Id)                 // returns, raises or is cancelled
    | Forget(id: Id)                 // the done-callback
    | CancelAll                      // asks every task to stop, and waits
    | Clear                          // what `cancel_all` does once they have

  predicate Enabled(s: State, step: Step) {
    match step
    case Join(_, id) => id !in s.keyOf
    case Finish(id) => Alive(s, id)
    case Forget(id) => id in s.keyOf && id in s.done
    case CancelAll => s.awaited.None? && s.byKey != map[]
    case Clear => s.awaited.Some? && s.awaited.value <= s.done
  }

  function Forgotten(byKey: map<string, Id>, key: string, id: Id): map<string, Id> {
    if key in byKey && byKey[key] == id then byKey - {key} else byKey
  }

  function Do(s: State, step: Step): State
    requires Enabled(s, step)
  {
    match step
    case Join(key, id) =>
      if key in s.byKey then s else s.(byKey := s.byKey[key := id], keyOf := s.keyOf[id := key])
    case Finish(id) => s.(done := s.done + {id})
    case Forget(id) => s.(byKey := Forgotten(s.byKey, s.keyOf[id], id))
    case CancelAll => s.(awaited := Some(s.byKey.Values))
    case Clear => s.(byKey := map[], awaited := None)
  }

  /** `_tasks` and what is done to it. */
  class SingleFlight {
    var tasks: map<string, Id>

    constructor ()
      ensures tasks == map[]
    {
      tasks := map[];
    }

    /** `created` names the task a start would create. */
    method JoinOrStart(key: string, created: Id) returns (task: Id)
      modifies this
      ensures task == if key in old(tasks) then old(tasks)[key] else created
      ensures tasks == if key in old(tasks) then old(tasks) else old(tasks)[key := created]
    {
      if key in tasks {
        return tasks[key];
      }
      tasks := tasks[key := created];
      task := created;
    }

    method Forget(key: string, finished: Id)
      modifies this
      ensures tasks == Forgotten(old(tasks), key, finished)
    {
      if key in tasks && tasks[key] == finished {
        tasks := tasks - {key};
      }
    }
  }

  ghost predicate Inv(s: State) {
    && (forall key :: key in s.byKey ==> s.byKey[key] in s.keyOf && s.keyOf[s.byKey[key]] == key)
    && s.done <= s.keyOf.Keys
    && (s.awaited.Some? ==> s.awaited.value <= s.keyOf.Keys)
  }

  lemma StepKeeps(s: State, step: Step)
    requires Inv(s) && Enabled(s, step)
    ensures Inv(Do(s, step))
  {
    if step.CancelAll? {
      forall id | id in s.byKey.Values ensures id in s.keyOf {
        var key :| key in s.byKey && s.byKey[key] == id;
      }
    }
  }

  ghost predicate Runs(steps: seq<Step>, from: State, to: State)
    decreases |steps|
  {
    if steps == [] then to == from else Enabled(from, steps[0]) && Runs(steps[1..], Do(from, steps[0]), to)
  }

  lemma {:induction false} RunKeeps(steps: seq<Step>, from: State, to: State)
    requires Runs(steps, from, to) && Inv(from)
    ensures Inv(to) && from.done <= to.done && from.keyOf.Keys <= to.keyOf.Keys
    ensures forall id :: id in from.keyOf ==> to.keyOf[id] == from.keyOf[id]
    decreases |steps|
  {
    if steps != [] {
      StepKeeps(from, steps[0]);
      var next := Do(from, steps[0]);
      assert from.done <= next.done && from.keyOf.Keys <= next.keyOf.Keys;
      assert forall id :: id in from.keyOf ==> next.keyOf[id] == from.keyOf[id];
      hide Inv, Do, Enabled;
      RunKeeps(steps[1..], next, to);
    }
  }

  // ----- Which live task its key finds -----

  /** A caller of the task's key joins it. */
  predicate Found(s: State, id: Id) {
    id in s.keyOf && s.keyOf[id] in s.byKey && s.byKey[s.keyOf[id]] == id
  }

  /** At some step of the run a `cancel_all` ended while the task was alive. */
  ghost predicate OutlivesClear(steps: seq<Step>, from: State, id: Id)
    decreases |steps|
  {
    && steps != [] && Enabled(from, steps[0])
    && ((steps[0].Clear? && Alive(from, id)) || OutlivesClear(steps[1..], Do(from, steps[0]), id))
  }

  lemma StepFinds(s: State, step: Step, id: Id)
    requires Inv(s) && Enabled(s, step) && Alive(Do(s, step), id)
    ensures Found(Do(s, step), id) <==> (id in s.keyOf ==> Found(s, id)) && !(step.Clear? && Alive(s, id))
  {
  }

  lemma {:induction false} RunFinds(steps: seq<Step>, from: State, to: State, id: Id)
    requires Runs(steps, from, to) && Inv(from) && Alive(to, id)
    ensures Found(to, id) <==> (id in from.keyOf ==> Found(from, id)) && !OutlivesClear(steps, from, id)
    decreases |steps|
  {
    if steps != [] {
      var next := Do(from, steps[0]);
      StepKeeps(from, steps[0]);
      RunKeeps(steps[1..], next, to);
      RunFinds(steps[1..], next, to, id);
      if id in next.keyOf {
        StepFinds(from, steps[0], id);
      }
      hide Inv, Enabled;
    }
  }

  /** Over every interleaving of joins, ends, callbacks and `cancel_all`: callers of a live task's
      key join it exactly when no `cancel_all` has ended while it was alive. */
  lemma FoundExactlyWhen(steps: seq<Step>, s: State, a: Id, created: Id)
    requires Runs(steps, EMPTY, s) && Alive(s, a)
    ensures Found(s, a) <==> !OutlivesClear(steps, EMPTY, a)
    ensures Found(s, a) && created !in s.keyOf ==> Do(s, Join(s.keyOf[a], created)) == s
  {
    RunFinds(steps, EMPTY, s, a);
  }

  /** So of the live tasks of one key all but one have outlived a `cancel_all`. */
  lemma OneLiveTaskPerKey(steps: seq<Step>, s: State, a: Id, b: Id)
    requires Runs(steps, EMPTY, s) && Alive(s, a) && Alive(s, b) && s.keyOf[a] == s.keyOf[b] && a != b
    ensures OutlivesClear(steps, EMPTY, a) || OutlivesClear(steps, EMPTY, b)
  {
    RunFinds(steps, EMPTY, s, a);
    RunFinds(steps, EMPTY, s, b);
  }

  // ----- When a live task can get a twin -----

  ghost predicate HasTwin(s: State, a: Id)
    requires a in s.keyOf
  {
    exists b :: b != a && Alive(s, b) && s.keyOf[b] == s.keyOf[a]
  }

  /** Some continuation has a second live task for the key while `a` is alive. */
  ghost predicate CanGetTwin(s: State, a: Id) {
    exists more, t :: Runs(more, s, t) && Alive(t, a) && HasTwin(t, a)
  }

  /** A `cancel_all` is under way and does not wait for the task. */
  predicate IsPassedOver(s: State, a: Id) {
    s.awaited.Some? && a !in s.awaited.value
  }

  lemma StepLeavesAlone(s: State, step: Step, a: Id)
    requires Inv(s) && Enabled(s, step) && Found(s, a) && !IsPassedOver(s, a) && !HasTwin(s, a)
    requires Alive(s, a) && Alive(Do(s, step), a)
    ensures Found(Do(s, step), a) && !IsPassedOver(Do(s, step), a) && !HasTwin(Do(s, step), a)
  {
    var s' := Do(s, step);
    StepFinds(s, step, a);
    if step.CancelAll? {
      assert s.keyOf[a] in s.byKey && s.byKey[s.keyOf[a]] == a;
      assert a in s.byKey.Values;
    }
    forall b | b != a && Alive(s', b) ensures s'.keyOf[b] != s'.keyOf[a] {
      assert b in s.keyOf ==> Alive(s, b);
    }
  }

  lemma {:induction false} RunLeavesAlone(steps: seq<Step>, from: State, to: State, a: Id)
    requires Runs(steps, from, to) && Inv(from) && Alive(from, a) && Alive(to, a)
    requires Found(from, a) && !IsPassedOver(from, a) && !HasTwin(from, a)
    ensures !HasTwin(to, a)
    decreases |steps|
  {
    if steps != [] {
      var next := Do(from, steps[0]);
      StepKeeps(from, steps[0]);
      RunKeeps(steps[1..], next, to);
      assert a in next.keyOf;
      StepLeavesAlone(from, steps[0], a);
      hide Inv, Enabled, Do, HasTwin, Found;
      RunLeavesAlone(steps[1..], next, to, a);
    }
  }

  lemma {:induction false} Unused(ids: set<Id>) returns (id: Id)
    ensures id !in ids && forall x :: x in ids ==> x < id
    decreases ids
  {
    if ids == {} {
      id := 0;
    } else {
      var x :| x in ids;
      var above := Unused(ids - {x});
      id := if above > x then above else x + 1;
      assert forall y :: y in ids && y != x ==> y in ids - {x};
    }
  }

  lemma {:induction false} RunsOn(steps: seq<Step>, from: State, mid: State, more: seq<Step>, to: State)
    requires Runs(steps, from, mid) && Runs(more, mid, to)
    ensures Runs(steps + more, from, to)
    decreases |steps|
  {
    hide Do, Enabled;
    if steps == [] {
      assert steps + more == more;
    } else {
      assert (steps + more)[1..] == steps[1..] + more;
      RunsOn(steps[1..], Do(from, steps[0]), mid, more, to);
    }
  }

  lemma OneStep(s: State, step: Step)
    requires Enabled(s, step)
    ensures Runs([step], s, Do(s, step))
  {
    assert [step][1..] == [];
  }

  /** A key that finds nothing starts a new task. */
  lemma JoinTwins(s: State, a: Id)
    requires Alive(s, a) && s.keyOf[a] !in s.byKey
    ensures CanGetTwin(s, a)
  {
    var b := Unused(s.keyOf.Keys + s.done);
    var t := Do(s, Join(s.keyOf[a], b));
    OneStep(s, Join(s.keyOf[a], b));
    assert b != a && Alive(t, b) && t.keyOf[b] == t.keyOf[a];
  }

  lemma LaterTwins(s: State, steps: seq<Step>, m: State, a: Id)
    requires Runs(steps, s, m) && CanGetTwin(m, a)
    ensures CanGetTwin(s, a)
  {
    hide HasTwin;
    var more, t :| Runs(more, m, t) && Alive(t, a) && HasTwin(t, a);
    RunsOn(steps, s, m, more, t);
  }

  lemma LostTwins(s: State, a: Id)
    requires Inv(s) && Alive(s, a) && !Found(s, a)
    ensures CanGetTwin(s, a)
  {
    var key := s.keyOf[a];
    if key !in s.byKey {
      JoinTwins(s, a);
    } else {
      var b := s.byKey[key];
      if Alive(s, b) {
        assert Runs([], s, s) && HasTwin(s, a);
      } else {
        OneStep(s, Forget(b));
        JoinTwins(Do(s, Forget(b)), a);
        LaterTwins(s, [Forget(b)], Do(s, Forget(b)), a);
      }
    }
  }

  /** Everybody a `cancel_all` waits for can end before the one it does not. */
  lemma {:induction false} PassedOverTwins(s: State, a: Id)
    requires Inv(s) && Alive(s, a) && IsPassedOver(s, a)
    ensures CanGetTwin(s, a)
    decreases s.awaited.value - s.done
  {
    if s.awaited.value <= s.done {
      OneStep(s, Clear);
      JoinTwins(Do(s, Clear), a);
      LaterTwins(s, [Clear], Do(s, Clear), a);
    } else {
      var b :| b in s.awaited.value && b !in s.done;
      StepKeeps(s, Finish(b));
      OneStep(s, Finish(b));
      PassedOverTwins(Do(s, Finish(b)), a);
      LaterTwins(s, [Finish(b)], Do(s, Finish(b)), a);
    }
  }

  /** After any run, a live task can get a twin before it ends exactly when it has one, or has
      outlived a `cancel_all`, or one is under way that does not wait for it. */
  lemma TwinExactlyWhen(steps: seq<Step>, s: State, a: Id)
    requires Runs(steps, EMPTY, s) && Alive(s, a)
    ensures CanGetTwin(s, a) <==> HasTwin(s, a) || OutlivesClear(steps, EMPTY, a) || IsPassedOver(s, a)
  {
    RunKeeps(steps, EMPTY, s);
    RunFinds(steps, EMPTY, s, a);
    if HasTwin(s, a) {
      assert Runs([], s, s);
    } else if !Found(s, a) {
      LostTwins(s, a);
    } else if IsPassedOver(s, a) {
      PassedOverTwins(s, a);
    } else {
      forall more, t | Runs(more, s, t) && Alive(t, a) ensures !HasTwin(t, a) {
        RunLeavesAlone(more, s, t, a);
      }
    }
  }

  /** It happens, for every key: a task is cancelled and ends, another caller starts the key anew
      before `cancel_all` has come back, and a third finds nothing. */
  lemma TwinsHappen(key: string) returns (s: State)
    ensures Runs([Join(key, 0), CancelAll, Finish(0), Forget(0), Join(key, 1), Clear, Join(key, 2)], EMPTY, s)
    ensures Alive(s, 1) && Alive(s, 2) && s.keyOf[1] == key == s.keyOf[2]
  {
    var joined := Do(EMPTY, Join(key, 0));
    var asked := Do(joined, CancelAll);
    assert joined.byKey == map[key := 0] && key in joined.byKey;
    assert asked.awaited.value == {0};
    var ended := Do(Do(asked, Finish(0)), Forget(0));
    assert ended.byKey == map[];
    var again := Do(ended, Join(key, 1));
    var cleared := Do(again, Clear);
    s := Do(cleared, Join(key, 2));
    var tail := [Join(key, 1), Clear, Join(key, 2)];
    assert tail[1..] == [Clear, Join(key, 2)] && tail[1..][1..] == [Join(key, 2)] && tail[1..][1..][1..] == [];
    assert Runs(tail[1..][1..][1..], s, s);
    assert Runs(tail[1..][1..], cleared, s);
    assert Runs(tail[1..], again, s);
    assert Runs(tail, ended, s);
    var steps := [Finish(0), Forget(0)] + tail;
    assert steps[1..] == [Forget(0)] + tail && steps[1..][1..] == tail;
    assert Runs(steps[1..], Do(asked, Finish(0)), s);
    assert Runs(steps, asked, s);
    var all := [Join(key, 0), CancelAll] + steps;
    assert all == [Join(key, 0), CancelAll, Finish(0), Forget(0), Join(key, 1), Clear, Join(key, 2)];
    assert all[1..] == [CancelAll] + steps && all[1..][1..] == steps;
    assert Runs(all[1..], joined, s);
  }
}
