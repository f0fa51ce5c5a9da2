/** The ceiling on request bodies (`api/_limits.py`) around an arbitrary application.

    What the application does is a list of receives and sends, each receive with the message the
    server hands over, and the way it ends; it may swallow what a receive raises and go on. */
module BodyLimit {
  import opened Options

  type Bytes = seq<bv8>

  datatype Message = Request(body: Bytes, more: bool) | Disconnect

  /** The 413's text names the length a request declared; a body refused while it was being received
      is told the limit only. */
  datatype Sent = ResponseStart(status: int) | ResponseBody(data: Bytes) | TooLargeBody(declared: Option<int>)

  datatype Act = Receive(message: Message) | Send(sent: Sent)

  /** `Propagates` is the middleware's own error coming back out of the application. */
  datatype End = Returns | Raises | Propagates

  /** The nested functions' variables, what went out, and what the application was given. */
  datatype State = State(received: int, exceeded: int, started: bool, wire: seq<Sent>, delivered: seq<Message>)

  const CLEAN := State(0, 0, false, [], [])

  function TooLarge(declared: Option<int>): seq<Sent> {
    [ResponseStart(413), TooLargeBody(declared)]
  }

  function SizeOf(m: Message): nat {
    if m.Request? then |m.body| else 0
  }

  function AfterReceive(s: State, m: Message, max: int): State {
    var received := s.received + SizeOf(m);
    if m.Request? && received > max then s.(received := received, exceeded := received)
    else s.(received := received, delivered := s.delivered + [m])
  }

  function AfterSend(s: State, sent: Sent): State {
    if s.exceeded != 0 && !s.started then s.(started := true, wire := s.wire + TooLarge(None))
    else if s.exceeded != 0 then s
    else s.(started := s.started || sent.ResponseStart?, wire := s.wire + [sent])
  }

  function AfterAct(s: State, act: Act, max: int): State {
    match act
    case Receive(m) => AfterReceive(s, m, max)
    case Send(sent) => AfterSend(s, sent)
  }

  function AfterActs(acts: seq<Act>, max: int): State {
    if acts == [] then CLEAN else AfterAct(AfterActs(acts[..|acts| - 1], max), acts[|acts| - 1], max)
  }

  function AfterEnd(s: State, end: End): State {
    if end.Propagates? && !s.started then s.(started := true, wire := s.wire + TooLarge(None)) else s
  }

  /** The middleware of one request. */
  class BodySizeLimit {
    const max: int
    var received: int
    var exceeded: int
    var started: bool
    var wire: seq<Sent>
    var delivered: seq<Message>

    constructor (max: int)
      ensures this.max == max && View() == CLEAN
    {
      this.max := max;
      received, exceeded, started, wire, delivered := 0, 0, false, [], [];
    }

    ghost function View(): State
      reads this
    {
      State(received, exceeded, started, wire, delivered)
    }

    /** `None` where it raises. */
    method LimitedReceive(m: Message) returns (given: Option<Message>)
      modifies this
      ensures View() == AfterReceive(old(View()), m, max)
      ensures given == if delivered == old(delivered) then None else Some(m)
    {
      if m.Request? {
        received := received + |m.body|;
        if received > max {
          exceeded := received;
          return None;
        }
      }
      delivered := delivered + [m];
      given := Some(m);
    }

    method GuardedSend(sent: Sent)
      modifies this
      ensures View() == AfterSend(old(View()), sent)
    {
      if exceeded != 0 && !started {
        started := true;
        wire := wire + TooLarge(None);
        return;
      }
      if exceeded != 0 {
        return;
      }
      if sent.ResponseStart? {
        started := true;
      }
      wire := wire + [sent];
    }

    method Run(acts: seq<Act>, end: End)
      requires View() == CLEAN
      modifies this
      ensures View() == AfterEnd(AfterActs(acts, max), end)
    {
      for i := 0 to |acts|
        invariant View() == AfterActs(acts[..i], max)
      {
        assert acts[..i + 1][..i] == acts[..i];
        match acts[i]
        case Receive(m) =>
          var _ := LimitedReceive(m);
        case Send(sent) => GuardedSend(sent);
      }
      assert acts[..|acts|] == acts;
      if end.Propagates? {
        if started {
          return;
        }
        started := true;
        wire := wire + TooLarge(None);
      }
    }
  }

  /** `__call__`: what reaches the wire and the application, and whether the application ran. */
  method Call(http: bool, max: int, declared: Option<int>, acts: seq<Act>, end: End)
    returns (wire: seq<Sent>, delivered: seq<Message>, ran: bool)
    ensures !http || max <= 0 ==> ran && wire == Sends(acts) && delivered == Receives(acts)
    ensures http && max > 0 && declared.Some? && declared.value > max ==>
              !ran && wire == TooLarge(declared) && delivered == []
    ensures http && max > 0 && !(declared.Some? && declared.value > max) ==>
              var s := AfterEnd(AfterActs(acts, max), end);
              ran && wire == s.wire && delivered == s.delivered
  {
    if !http || max <= 0 {
      return Sends(acts), Receives(acts), true;
    }
    if declared.Some? && declared.value > max {
      return TooLarge(declared), [], false;
    }
    var middleware := new BodySizeLimit(max);
    middleware.Run(acts, end);
    return middleware.wire, middleware.delivered, true;
  }

  // ----- What the application does, seen from outside -----

  function Sends(acts: seq<Act>): seq<Sent> {
    if acts == [] then []
    else
      var last := acts[|acts| - 1];
      Sends(acts[..|acts| - 1]) + if last.Send? then [last.sent] else []
  }

  function Receives(acts: seq<Act>): seq<Message> {
    if acts == [] then []
    else
      var last := acts[|acts| - 1];
      Receives(acts[..|acts| - 1]) + if last.Receive? then [last.message] else []
  }

  function Size(messages: seq<Message>): nat {
    if messages == [] then 0 else Size(messages[..|messages| - 1]) + SizeOf(messages[|messages| - 1])
  }

  predicate HasStart(wire: seq<Sent>) {
    exists i :: 0 <= i < |wire| && wire[i].ResponseStart?
  }

  function Starts(wire: seq<Sent>): nat {
    if wire == [] then 0 else Starts(wire[..|wire| - 1]) + if wire[|wire| - 1].ResponseStart? then 1 else 0
  }

  predicate Crosses(acts: seq<Act>, max: int) {
    Size(Receives(acts)) > max
  }

  /** The receive that takes the body over the cap. */
  predicate CrossesAt(acts: seq<Act>, max: int, c: nat) {
    c < |acts| && !Crosses(acts[..c], max) && Crosses(acts[..c + 1], max)
  }

  predicate SendsAfter(acts: seq<Act>, c: nat) {
    exists i :: c < i < |acts| && acts[i].Send?
  }

  /** The 413, once or not at all. */
  predicate IsAnswer(answer: seq<Sent>, sent: bool) {
    answer == if sent then TooLarge(None) else []
  }

  function Disconnects(messages: seq<Message>): seq<Message> {
    if messages == [] then []
    else
      var n := |messages| - 1;
      Disconnects(messages[..n]) + if messages[n].Disconnect? then [messages[n]] else []
  }

  // ----- Before the cap is crossed -----

  lemma Snoc(acts: seq<Act>, act: Act)
    ensures (acts + [act])[..|acts|] == acts
    ensures Sends(acts + [act]) == Sends(acts) + (if act.Send? then [act.sent] else [])
    ensures Receives(acts + [act]) == Receives(acts) + (if act.Receive? then [act.message] else [])
  {
    assert (acts + [act])[..|acts|] == acts;
  }

  lemma SizeSnoc(messages: seq<Message>, m: Message)
    ensures Size(messages + [m]) == Size(messages) + SizeOf(m)
    ensures Disconnects(messages + [m]) == Disconnects(messages) + (if m.Disconnect? then [m] else [])
  {
    assert (messages + [m])[..|messages|] == messages;
  }

  /** One more act, by what it is. */
  lemma ActSnoc(acts: seq<Act>, act: Act, max: int)
    ensures AfterActs(acts + [act], max) == AfterAct(AfterActs(acts, max), act, max)
    ensures act.Send? ==> Sends(acts + [act]) == Sends(acts) + [act.sent] && Receives(acts + [act]) == Receives(acts)
    ensures act.Receive? ==> Sends(acts + [act]) == Sends(acts) && Receives(acts + [act]) == Receives(acts) + [act.message]
                             && Size(Receives(acts + [act])) == Size(Receives(acts)) + SizeOf(act.message)
  {
    Snoc(acts, act);
    if act.Receive? {
      SizeSnoc(Receives(acts), act.message);
      assert Sends(acts) + [] == Sends(acts);
    } else {
      assert Receives(acts) + [] == Receives(acts);
    }
  }

  lemma StartSnoc(wire: seq<Sent>, sent: Sent)
    ensures HasStart(wire + [sent]) <==> HasStart(wire) || sent.ResponseStart?
    ensures Starts(wire + [sent]) == Starts(wire) + if sent.ResponseStart? then 1 else 0
  {
    assert (wire + [sent])[..|wire|] == wire;
    if HasStart(wire) {
      var i :| 0 <= i < |wire| && wire[i].ResponseStart?;
      assert (wire + [sent])[i].ResponseStart?;
    }
    assert (wire + [sent])[|wire|] == sent;
  }

  /** While the body stays within the cap the middleware cannot be told from its absence. */
  lemma {:induction false} Transparent(acts: seq<Act>, max: int)
    requires max > 0 && !Crosses(acts, max)
    ensures AfterActs(acts, max) == State(Size(Receives(acts)), 0, HasStart(Sends(acts)), Sends(acts), Receives(acts))
    decreases |acts|
  {
    if acts != [] {
      var n := |acts| - 1;
      ActSnoc(acts[..n], acts[n], max);
      assert acts == acts[..n] + [acts[n]];
      hide AfterActs, Sends, Receives, Size;
      Transparent(acts[..n], max);
      if acts[n].Send? {
        StartSnoc(Sends(acts[..n]), acts[n].sent);
      }
    }
  }

  // ----- From there on -----

  /** The state once the cap is crossed at `c`. */
  ghost predicate Over(s: State, acts: seq<Act>, max: int, c: nat)
    requires c < |acts|
  {
    Counted(s, acts, max) && Sent413(s.wire, s.started, acts, c) && Given(s.delivered, acts, c)
  }

  predicate Counted(s: State, acts: seq<Act>, max: int) {
    s.received == Size(Receives(acts)) && s.received > max && s.exceeded > max
  }

  ghost predicate Sent413(wire: seq<Sent>, started: bool, acts: seq<Act>, c: nat)
    requires c < |acts|
  {
    var before := Sends(acts[..c]);
    && (started <==> HasStart(before) || SendsAfter(acts, c))
    && before <= wire && IsAnswer(wire[|before|..], !HasStart(before) && SendsAfter(acts, c))
  }

  predicate Given(delivered: seq<Message>, acts: seq<Act>, c: nat)
    requires c < |acts|
  {
    delivered == Receives(acts[..c]) + Disconnects(Receives(acts[c..]))
  }

  lemma AtCrossing(acts: seq<Act>, max: int)
    requires max > 0 && acts != [] && CrossesAt(acts, max, |acts| - 1)
    ensures Over(AfterActs(acts, max), acts, max, |acts| - 1)
  {
    var n := |acts| - 1;
    var init := acts[..n];
    assert acts[..n + 1] == acts && acts == init + [acts[n]];
    ActSnoc(init, acts[n], max);
    Transparent(init, max);
    assert acts[n].Receive? && acts[n].message.Request?;
    GivenAtCrossing(init, acts[n]);
    SentAtCrossing(init, acts[n]);
    hide AfterActs, Sent413, Given, Size, Receives, Sends;
  }

  lemma GivenAtCrossing(init: seq<Act>, act: Act)
    requires act.Receive? && act.message.Request?
    ensures Given(Receives(init), init + [act], |init|)
  {
    var acts := init + [act];
    assert acts[..|init|] == init && acts[|init|..] == [] + [act];
    Snoc([], act);
    NoDisconnects(Receives(init));
    GivenSnoc(Receives(init), [], act.message);
    assert Receives([]) + [act.message] == [] + [act.message];
    hide Disconnects, Sends;
  }

  lemma SentAtCrossing(init: seq<Act>, act: Act)
    ensures Sent413(Sends(init), HasStart(Sends(init)), init + [act], |init|)
  {
    assert (init + [act])[..|init|] == init;
    assert Sends(init)[|Sends(init)|..] == [];
    hide Sends, HasStart;
  }

  lemma NoDisconnects(given: seq<Message>)
    ensures given + Disconnects([]) == given
  {
  }

  /** After the crossing nothing of the application's gets through; its next send, if nothing
      was started, becomes the 413. */
  lemma {:induction false} AfterCrossing(acts: seq<Act>, max: int, c: nat)
    requires max > 0 && CrossesAt(acts, max, c)
    ensures Over(AfterActs(acts, max), acts, max, c)
    decreases |acts|
  {
    var n := |acts| - 1;
    CrossedBefore(acts, max, c);
    hide *;
    if c == n {
      AtCrossing(acts, max);
    } else {
      AfterCrossing(acts[..n], max, c);
      OverSteps(acts[..n], acts[n], max, c);
    }
  }

  lemma CrossedBefore(acts: seq<Act>, max: int, c: nat)
    requires CrossesAt(acts, max, c)
    ensures c < |acts| && acts == acts[..|acts| - 1] + [acts[|acts| - 1]]
    ensures c < |acts| - 1 ==> CrossesAt(acts[..|acts| - 1], max, c)
  {
    var init := acts[..|acts| - 1];
    if c < |init| {
      assert init[..c] == acts[..c] && init[..c + 1] == acts[..c + 1];
    }
    hide Crosses;
  }

  lemma OverSteps(init: seq<Act>, act: Act, max: int, c: nat)
    requires max > 0 && c < |init| && Over(AfterActs(init, max), init, max, c)
    ensures Over(AfterActs(init + [act], max), init + [act], max, c)
  {
    ActSnoc(init, act, max);
    hide *;
    if act.Receive? {
      OverReceives(AfterActs(init, max), init, act, max, c);
    } else {
      OverSends(AfterActs(init, max), init, act, max, c);
    }
  }

  lemma GivenSnoc(given: seq<Message>, rest: seq<Message>, m: Message)
    ensures given + Disconnects(rest + [m]) == (if m.Disconnect? then given + Disconnects(rest) + [m] else given + Disconnects(rest))
  {
    SizeSnoc(rest, m);
    hide Disconnects;
    assert Disconnects(rest) + [] == Disconnects(rest);
  }

  lemma Longer(init: seq<Act>, act: Act, c: nat)
    requires c < |init|
    ensures (init + [act])[..c] == init[..c] && (init + [act])[c..] == init[c..] + [act]
    ensures SendsAfter(init + [act], c) <==> SendsAfter(init, c) || act.Send?
  {
    LaterSends(init + [act], c);
    assert (init + [act])[..|init|] == init;
  }

  lemma ReceiveKeepsWire(wire: seq<Sent>, started: bool, init: seq<Act>, act: Act, c: nat)
    requires c < |init| && act.Receive? && Sent413(wire, started, init, c)
    ensures Sent413(wire, started, init + [act], c)
  {
    Longer(init, act, c);
    hide Sends, HasStart, SendsAfter, IsAnswer;
  }

  lemma ReceiveGives(delivered: seq<Message>, init: seq<Act>, act: Act, c: nat)
    requires c < |init| && act.Receive? && Given(delivered, init, c)
    ensures Given(if act.message.Disconnect? then delivered + [act.message] else delivered, init + [act], c)
  {
    Longer(init, act, c);
    ActSnoc(init[c..], act, 0);
    hide Receives, Disconnects, SendsAfter;
    GivenSnoc(Receives(init[..c]), Receives(init[c..]), act.message);
  }

  lemma OverReceives(s: State, init: seq<Act>, act: Act, max: int, c: nat)
    requires max > 0 && c < |init| && Over(s, init, max, c) && act.Receive?
    ensures Over(AfterAct(s, act, max), init + [act], max, c)
  {
    ActSnoc(init, act, max);
    ReceiveKeepsWire(s.wire, s.started, init, act, c);
    ReceiveGives(s.delivered, init, act, c);
    hide AfterActs, Sent413, Given, Size, Receives, Sends;
  }

  lemma SendAnswers(wire: seq<Sent>, started: bool, init: seq<Act>, act: Act, c: nat)
    requires c < |init| && act.Send? && Sent413(wire, started, init, c)
    ensures Sent413(if started then wire else wire + TooLarge(None), true, init + [act], c)
  {
    Longer(init, act, c);
    hide Sends, HasStart, SendsAfter, TooLarge;
    var before := Sends(init[..c]);
    if !started {
      assert wire[|before|..] == [] && wire == before;
      assert (wire + TooLarge(None))[|before|..] == TooLarge(None);
    }
  }

  lemma SendGivesNothing(delivered: seq<Message>, init: seq<Act>, act: Act, c: nat)
    requires c < |init| && act.Send? && Given(delivered, init, c)
    ensures Given(delivered, init + [act], c)
  {
    Longer(init, act, c);
    ActSnoc(init[c..], act, 0);
    hide Receives, Disconnects, SendsAfter;
  }

  lemma OverSends(s: State, init: seq<Act>, act: Act, max: int, c: nat)
    requires max > 0 && c < |init| && Over(s, init, max, c) && act.Send?
    ensures Over(AfterAct(s, act, max), init + [act], max, c)
  {
    ActSnoc(init, act, max);
    SendAnswers(s.wire, s.started, init, act, c);
    SendGivesNothing(s.delivered, init, act, c);
    hide AfterActs, Sent413, Given, Size, Receives, Sends;
  }

  lemma LaterSends(acts: seq<Act>, c: nat)
    requires c + 1 < |acts|
    ensures SendsAfter(acts, c) <==> SendsAfter(acts[..|acts| - 1], c) || acts[|acts| - 1].Send?
  {
    var init := acts[..|acts| - 1];
    if SendsAfter(init, c) {
      var i :| c < i < |init| && init[i].Send?;
      assert acts[i].Send?;
    }
    if SendsAfter(acts, c) && !acts[|acts| - 1].Send? {
      var i :| c < i < |acts| && acts[i].Send?;
      assert init[i].Send?;
    }
  }

  lemma {:induction false} FindCrossing(acts: seq<Act>, max: int) returns (c: nat)
    requires max > 0 && Crosses(acts, max)
    ensures CrossesAt(acts, max, c)
    decreases |acts|
  {
    var n := |acts| - 1;
    if Crosses(acts[..n], max) {
      c := FindCrossing(acts[..n], max);
      assert acts[..n][..c] == acts[..c] && acts[..n][..c + 1] == acts[..c + 1];
    } else {
      c := n;
      assert acts[..n + 1] == acts;
    }
  }

  // ----- What is promised -----

  lemma {:induction false} SizeOfDisconnects(messages: seq<Message>)
    ensures Size(Disconnects(messages)) == 0
    decreases |messages|
  {
    if messages != [] {
      var n := |messages| - 1;
      SizeOfDisconnects(messages[..n]);
      if messages[n].Disconnect? {
        SizeSnoc(Disconnects(messages[..n]), messages[n]);
      } else {
        assert Disconnects(messages[..n]) + [] == Disconnects(messages[..n]);
      }
    }
  }

  lemma {:induction false} SizeOfSum(a: seq<Message>, b: seq<Message>)
    ensures Size(a + b) == Size(a) + Size(b)
    decreases |b|
  {
    if b == [] {
      assert a + b == a;
    } else {
      assert (a + b)[..|a + b| - 1] == a + b[..|b| - 1];
      SizeOfSum(a, b[..|b| - 1]);
    }
  }

  /** Whatever the application does and however the body is cut up, it is never given more than
      the cap; it is given all of a body within it, and of one over it all that came before. */
  lemma NeverOverfed(acts: seq<Act>, max: int, end: End)
    requires max > 0
    ensures var s := AfterEnd(AfterActs(acts, max), end);
            && Size(s.delivered) <= max
            && (!Crosses(acts, max) ==> s.delivered == Receives(acts))
            && (forall c: nat :: CrossesAt(acts, max, c) ==>
                  s.delivered == Receives(acts[..c]) + Disconnects(Receives(acts[c..])))
  {
    if Crosses(acts, max) {
      var c := FindCrossing(acts, max);
      AfterCrossing(acts, max, c);
      SizeOfDisconnects(Receives(acts[c..]));
      SizeOfSum(Receives(acts[..c]), Disconnects(Receives(acts[c..])));
    } else {
      Transparent(acts, max);
    }
    forall c: nat | CrossesAt(acts, max, c)
      ensures AfterActs(acts, max).delivered == Receives(acts[..c]) + Disconnects(Receives(acts[c..]))
    {
      AfterCrossing(acts, max, c);
    }
  }

  /** If the cap is never crossed the wire carries exactly what the application sends. */
  lemma WithinTheCap(acts: seq<Act>, max: int, end: End)
    requires max > 0 && !Crosses(acts, max) && !end.Propagates?
    ensures AfterEnd(AfterActs(acts, max), end).wire == Sends(acts)
  {
    Transparent(acts, max);
  }

  /** If it is, the wire carries what was sent before and, when no response was started by then,
      one 413: as soon as the application sends anything or lets the error out. */
  lemma OverTheCap(acts: seq<Act>, max: int, end: End, c: nat)
    requires max > 0 && CrossesAt(acts, max, c)
    ensures var wire, before := AfterEnd(AfterActs(acts, max), end).wire, Sends(acts[..c]);
            && before <= wire
            && IsAnswer(wire[|before|..], !HasStart(before) && (end.Propagates? || SendsAfter(acts, c)))
  {
    AfterCrossing(acts, max, c);
    var s, before := AfterActs(acts, max), Sends(acts[..c]);
    if end.Propagates? && !s.started {
      assert s.wire == before;
      assert (s.wire + TooLarge(None))[|before|..] == TooLarge(None);
    }
  }

  /** Crossed before anything was sent: the wire has the 413 and nothing else, or nothing. */
  lemma NothingButTheAnswer(acts: seq<Act>, max: int, end: End, c: nat)
    requires max > 0 && CrossesAt(acts, max, c) && Sends(acts[..c]) == []
    ensures IsAnswer(AfterEnd(AfterActs(acts, max), end).wire, end.Propagates? || SendsAfter(acts, c))
  {
    OverTheCap(acts, max, end, c);
    var wire := AfterEnd(AfterActs(acts, max), end).wire;
    assert wire[0..] == wire;
  }

  lemma {:induction false} NoStarts(wire: seq<Sent>)
    ensures HasStart(wire) <==> Starts(wire) > 0
    decreases |wire|
  {
    if wire != [] {
      var n := |wire| - 1;
      NoStarts(wire[..n]);
      assert wire == wire[..n] + [wire[n]];
      StartSnoc(wire[..n], wire[n]);
    }
  }

  lemma AnswerHasOneStart(before: seq<Sent>)
    ensures Starts(before + TooLarge(None)) == Starts(before) + 1
  {
    hide Starts, HasStart;
    StartSnoc(before, ResponseStart(413));
    StartSnoc(before + [ResponseStart(413)], TooLargeBody(None));
    assert before + TooLarge(None) == before + [ResponseStart(413)] + [TooLargeBody(None)];
  }

  lemma AnswerAddsNone(wire: seq<Sent>, before: seq<Sent>, sent: bool)
    requires before <= wire && IsAnswer(wire[|before|..], sent) && (sent ==> !HasStart(before))
    ensures Starts(wire) <= 1 <==> Starts(before) <= 1
  {
    hide Starts, HasStart;
    assert wire == before + wire[|before|..];
    NoStarts(before);
    if sent {
      AnswerHasOneStart(before);
    } else {
      assert wire == before;
    }
  }

  /** The middleware never adds a second response start: there is more than one on the wire
      exactly when the application itself had sent more than one before the cap was crossed. */
  lemma AtMostOneStart(acts: seq<Act>, max: int, end: End, c: nat)
    requires max > 0 && (end.Propagates? ==> Crosses(acts, max))
    requires if Crosses(acts, max) then CrossesAt(acts, max, c) else c == |acts|
    ensures Starts(AfterEnd(AfterActs(acts, max), end).wire) <= 1 <==> Starts(Sends(acts[..c])) <= 1
  {
    if Crosses(acts, max) {
      assert c < |acts|;
      hide *;
      OverTheCap(acts, max, end, c);
      AnswerAddsNone(AfterEnd(AfterActs(acts, max), end).wire, Sends(acts[..c]),
                     !HasStart(Sends(acts[..c])) && (end.Propagates? || SendsAfter(acts, c)));
    } else {
      assert acts[..c] == acts;
      WithinTheCap(acts, max, end);
    }
  }
}
