/** Waiting for a ComfyUI run (`backends/comfyui/client.py`, `poll_completion`): an interval that
    eases out, a deadline, and the verdict that the upstream dropped the prompt.

    The upstream and the clock are a function from the round to what that round brings. Times are
    exact, sleeps last at least as long as asked and the clock never goes back. */
module CompletionPoll {
  import opened Durations

  type Duration = d: real | d >= 0.0 witness 0.0

  const QUEUE_RECHECK_INTERVAL := 30.0
  const POLL_BACKOFF_FACTOR := 1.5
  const QUEUE_MISS_THRESHOLD := 3

  datatype History = Succeeded | RunFailed | NotThere | Broken

  datatype Queue = Tracked | Missing | Flaky | QueueBroken

  /** `spent` is what the round takes beyond the sleep it asks for. */
  datatype Round = Round(history: History, queue: Queue, spent: Duration)

  datatype Outcome = Done | Failed | TimedOut | Dropped | Errored

  /** `floor` is the client's `poll_interval`, `ceiling` the larger of it and what the caller set. */
  datatype Config = Config(floor: real, ceiling: real, timeout: real)

  predicate Valid(c: Config) {
    0.0 < c.floor <= c.ceiling
  }

  /** The client's own ceiling is clamped up to its interval, and so is one the caller passes. */
  datatype Ceiling = Client | Caller(max: real)

  function ConfigFor(floor: real, clientMax: real, ceiling: Ceiling, timeout: real): (c: Config)
    requires floor > 0.0
    ensures Valid(c)
  {
    var wanted := if ceiling.Client? then clientMax else ceiling.max;
    Config(floor, if wanted < floor then floor else wanted, timeout)
  }

  /** The loop's variables at the top of a round. */
  datatype Loop = Loop(elapsed: real, lastCheck: real, misses: nat, interval: real)

  datatype Turn = Stop(outcome: Outcome) | Go(next: Loop)

  predicate Rechecks(l: Loop) {
    l.elapsed - l.lastCheck > QUEUE_RECHECK_INTERVAL
  }

  function Slept(c: Config, l: Loop, r: Round): Loop {
    l.(elapsed := l.elapsed + l.interval + r.spent, interval := Min(l.interval * POLL_BACKOFF_FACTOR, c.ceiling))
  }

  function TurnOf(c: Config, l: Loop, r: Round): Turn {
    if l.elapsed > c.timeout then Stop(TimedOut)
    else match r.history
      case Succeeded => Stop(Done)
      case RunFailed => Stop(Failed)
      case Broken => Stop(Errored)
      case NotThere =>
        if !Rechecks(l) then Go(Slept(c, l, r))
        else
          var checked := l.(lastCheck := l.elapsed);
          match r.queue
          case Tracked => Go(Slept(c, checked.(misses := 0), r))
          case Flaky => Go(Slept(c, checked, r))
          case QueueBroken => Stop(Errored)
          case Missing =>
            if l.misses + 1 >= QUEUE_MISS_THRESHOLD then Stop(Dropped) else Go(Slept(c, checked.(misses := l.misses + 1), r))
  }

  function Begin(c: Config, first: Duration): Loop {
    Loop(first, 0.0, 0, c.floor)
  }

  /** The loop at the top of round `k`, if it gets there. */
  function At(c: Config, first: Duration, env: nat -> Round, k: nat): Turn {
    if k == 0 then Go(Begin(c, first))
    else
      match At(c, first, env, k - 1)
      case Stop(o) => Stop(o)
      case Go(l) => TurnOf(c, l, env(k - 1))
  }

  predicate Reached(c: Config, first: Duration, env: nat -> Round, k: nat) {
    At(c, first, env, k).Go?
  }

  function Top(c: Config, first: Duration, env: nat -> Round, k: nat): Loop
    requires Reached(c, first, env, k)
  {
    At(c, first, env, k).next
  }

  /** The loop runs until the first round that stops it, and it does stop. */
  method PollCompletion(c: Config, first: Duration, env: nat -> Round) returns (outcome: Outcome, last: nat)
    requires Valid(c)
    ensures Reached(c, first, env, last) && TurnOf(c, Top(c, first, env, last), env(last)) == Stop(outcome)
  {
    var elapsed, lastCheck, misses, interval := first, 0.0, 0, c.floor;
    last := 0;
    ghost var bound := Bound(c);
    while true
      invariant At(c, first, env, last) == Go(Loop(elapsed, lastCheck, misses, interval))
      decreases bound - last
    {
      var round := env(last);
      if elapsed > c.timeout {
        return TimedOut, last;
      }
      match round.history {
        case Succeeded => return Done, last;
        case RunFailed => return Failed, last;
        case Broken => return Errored, last;
        case NotThere =>
      }
      InTime(c, first, env, last);
      if elapsed - lastCheck > QUEUE_RECHECK_INTERVAL {
        lastCheck := elapsed;
        match round.queue {
          case Tracked => misses := 0;
          case Flaky =>
          case QueueBroken => return Errored, last;
          case Missing =>
            misses := misses + 1;
            if misses >= QUEUE_MISS_THRESHOLD {
              return Dropped, last;
            }
        }
      }
      elapsed := elapsed + interval + round.spent;
      interval := Min(interval * POLL_BACKOFF_FACTOR, c.ceiling);
      last := last + 1;
    }
  }

  // ----- Intervals and the number of polls -----

  /** `start` times 1.5 to the `k`. */
  function Eased(start: real, k: nat): real {
    if k == 0 then start else Eased(start, k - 1) * POLL_BACKOFF_FACTOR
  }

  lemma Steps(c: Config, first: Duration, env: nat -> Round, k: nat)
    requires Reached(c, first, env, k + 1)
    ensures Reached(c, first, env, k)
    ensures Top(c, first, env, k + 1).interval == Min(Top(c, first, env, k).interval * POLL_BACKOFF_FACTOR, c.ceiling)
    ensures Top(c, first, env, k + 1).elapsed >= Top(c, first, env, k).elapsed + Top(c, first, env, k).interval
  {
  }

  /** The interval of round `k` is the start times 1.5 to the `k`, or the ceiling if that is less. */
  lemma {:induction false} IntervalIs(c: Config, first: Duration, env: nat -> Round, k: nat)
    requires Valid(c) && Reached(c, first, env, k)
    ensures Top(c, first, env, k).interval == Min(Eased(c.floor, k), c.ceiling)
    ensures Eased(c.floor, k) >= c.floor
    decreases k
  {
    if k > 0 {
      Steps(c, first, env, k - 1);
      IntervalIs(c, first, env, k - 1);
      hide At, Reached, Top;
    }
  }

  /** Intervals never shrink, and stay between the starting one and the ceiling. */
  lemma IntervalsNeverShrink(c: Config, first: Duration, env: nat -> Round, k: nat)
    requires Valid(c) && Reached(c, first, env, k + 1)
    ensures Reached(c, first, env, k)
    ensures c.floor <= Top(c, first, env, k).interval <= Top(c, first, env, k + 1).interval <= c.ceiling
  {
    Steps(c, first, env, k);
    IntervalIs(c, first, env, k);
    hide At, Reached, Top;
  }

  function Multiple(k: nat, floor: real): real {
    if k == 0 then 0.0 else Multiple(k - 1, floor) + floor
  }

  lemma {:induction false} MultipleIs(k: nat, floor: real)
    ensures Multiple(k, floor) == k as real * floor
    decreases k
  {
    if k > 0 {
      MultipleIs(k - 1, floor);
      OneMore(k - 1, floor);
    }
  }

  lemma OneMore(k: nat, floor: real)
    ensures (k + 1) as real * floor == k as real * floor + floor
  {
  }

  /** Every round takes at least the starting interval. */
  lemma {:induction false} Elapses(c: Config, first: Duration, env: nat -> Round, k: nat)
    requires Valid(c) && Reached(c, first, env, k)
    ensures Top(c, first, env, k).elapsed >= Multiple(k, c.floor)
    decreases k
  {
    if k > 0 {
      Steps(c, first, env, k - 1);
      Elapses(c, first, env, k - 1);
      IntervalIs(c, first, env, k - 1);
      hide At, Reached, Top;
    }
  }

  /** A round that asks the history at all is one of at most timeout / start + 1. */
  lemma PollsAreBounded(c: Config, first: Duration, env: nat -> Round, k: nat)
    requires Valid(c) && Reached(c, first, env, k) && TurnOf(c, Top(c, first, env, k), env(k)) != Stop(TimedOut)
    ensures (k + 1) as real <= c.timeout / c.floor + 1.0
  {
    Elapses(c, first, env, k);
    MultipleIs(k, c.floor);
    Divides(k as real, c.floor, c.timeout);
  }

  lemma Divides(k: real, floor: real, timeout: real)
    requires floor > 0.0 && k * floor <= timeout
    ensures k <= timeout / floor
  {
    var q := timeout / floor;
    assert q * floor == timeout;
    assert (q - k) * floor >= 0.0;
    Positive(q - k, floor);
  }

  lemma Positive(a: real, b: real)
    requires a * b >= 0.0 && b > 0.0
    ensures a >= 0.0
  {
  }

  function Bound(c: Config): int
    requires Valid(c)
  {
    if c.timeout < 0.0 then 0 else (c.timeout / c.floor).Floor + 1
  }

  lemma InTime(c: Config, first: Duration, env: nat -> Round, k: nat)
    requires Valid(c) && Reached(c, first, env, k) && Top(c, first, env, k).elapsed <= c.timeout
    ensures k < Bound(c)
  {
    Elapses(c, first, env, k);
    MultipleIs(k, c.floor);
    Divides(k as real, c.floor, c.timeout);
    Nonnegative(k as real, c.floor);
    assert c.timeout >= 0.0;
    assert k as real <= c.timeout / c.floor;
    assert k <= (c.timeout / c.floor).Floor;
  }

  lemma Nonnegative(a: real, b: real)
    requires a >= 0.0 && b > 0.0
    ensures a * b >= 0.0
  {
  }

  // ----- Dropped prompts -----

  /** The queue's answers in the rounds before `k` that asked it. */
  function Answers(c: Config, first: Duration, env: nat -> Round, k: nat): seq<Queue>
    requires Reached(c, first, env, k)
  {
    if k == 0 then []
    else
      var l := Top(c, first, env, k - 1);
      Answers(c, first, env, k - 1) + if Rechecks(l) then [env(k - 1).queue] else []
  }

  /** Successful negative checks at the end, with no positive one among them; a check that failed
      to get an answer says nothing. */
  function MissesAtEnd(answers: seq<Queue>): nat {
    if answers == [] then 0
    else
      var n := |answers| - 1;
      match answers[n]
      case Missing => MissesAtEnd(answers[..n]) + 1
      case Flaky => MissesAtEnd(answers[..n])
      case _ => 0
  }

  lemma {:induction false} MissesAre(c: Config, first: Duration, env: nat -> Round, k: nat)
    requires Valid(c) && Reached(c, first, env, k)
    ensures var l, answers := Top(c, first, env, k), Answers(c, first, env, k);
            && l.misses == MissesAtEnd(answers) < QUEUE_MISS_THRESHOLD
            && l.lastCheck >= QUEUE_RECHECK_INTERVAL * |answers| as real
            && (answers != [] ==> l.lastCheck > QUEUE_RECHECK_INTERVAL * |answers| as real)
    decreases k
  {
    if k > 0 {
      MissesAre(c, first, env, k - 1);
      var before := Answers(c, first, env, k - 1);
      var l := Top(c, first, env, k - 1);
      if Rechecks(l) {
        assert (before + [env(k - 1).queue])[..|before|] == before;
      } else {
        assert before + [] == before;
      }
    }
  }

  lemma {:induction false} EnoughAnswers(answers: seq<Queue>)
    ensures MissesAtEnd(answers) <= |answers|
    decreases |answers|
  {
    if answers != [] {
      EnoughAnswers(answers[..|answers| - 1]);
    }
  }

  /** The last `n` answers that are not flaky are all negative. */
  lemma {:induction false} MissesMean(answers: seq<Queue>, n: nat)
    requires MissesAtEnd(answers) >= n
    ensures exists from: nat :: from <= |answers| && CountMissing(answers[from..]) == n
                                && forall i :: from <= i < |answers| ==> answers[i].Missing? || answers[i].Flaky?
    decreases |answers|
  {
    if n == 0 {
      assert answers[|answers|..] == [];
    } else {
      var m := |answers| - 1;
      MissesMean(answers[..m], if answers[m].Missing? then n - 1 else n);
      var need := if answers[m].Missing? then n - 1 else n;
      var from: nat :| from <= m && CountMissing(answers[..m][from..]) == need
        && forall i :: from <= i < m ==> answers[..m][i].Missing? || answers[..m][i].Flaky?;
      assert answers[from..][..m - from] == answers[..m][from..];
      forall i | from <= i < |answers| ensures answers[i].Missing? || answers[i].Flaky? {
        if i < m {
          assert answers[..m][i] == answers[i];
        }
      }
    }
  }

  function CountMissing(answers: seq<Queue>): nat {
    if answers == [] then 0
    else CountMissing(answers[..|answers| - 1]) + if answers[|answers| - 1].Missing? then 1 else 0
  }

  /** A run is declared dropped exactly at a check that makes three negative ones with no
      positive one between. */
  lemma DroppedWhen(c: Config, first: Duration, env: nat -> Round, k: nat)
    requires Valid(c) && Reached(c, first, env, k)
    ensures TurnOf(c, Top(c, first, env, k), env(k)) == Stop(Dropped) <==>
              && Top(c, first, env, k).elapsed <= c.timeout && env(k).history.NotThere?
              && Rechecks(Top(c, first, env, k)) && env(k).queue.Missing?
              && MissesAtEnd(Answers(c, first, env, k) + [env(k).queue]) == QUEUE_MISS_THRESHOLD
  {
    MissesAre(c, first, env, k);
    var answers := Answers(c, first, env, k);
    assert (answers + [env(k).queue])[..|answers|] == answers;
  }

  /** And never before 90 seconds have gone by. */
  lemma DroppedIsLate(c: Config, first: Duration, env: nat -> Round, k: nat)
    requires Valid(c) && Reached(c, first, env, k) && TurnOf(c, Top(c, first, env, k), env(k)) == Stop(Dropped)
    ensures Top(c, first, env, k).elapsed > 90.0
    ensures exists from: nat ::
              var answers := Answers(c, first, env, k) + [Missing];
              && from <= |answers| && CountMissing(answers[from..]) == 3
              && forall i :: from <= i < |answers| ==> answers[i].Missing? || answers[i].Flaky?
  {
    MissesAre(c, first, env, k);
    DroppedWhen(c, first, env, k);
    var answers := Answers(c, first, env, k);
    EnoughAnswers(answers);
    MissesMean(answers + [Missing], 3);
  }
}
