/** The nerve: in-process publish and subscribe. A subscriber's fiber keeps what its reader has
    yet to take; one that falls further behind than its backlog is cut off, never skipped ahead. */
module Nerves {
  import opened Wrappers

  datatype ThreadKey = ThreadKey(channel: string, chatType: string, chat: string, thread: Option<string>)

  datatype Address = Address(key: ThreadKey, user: string, shared: bool)

  datatype Topic = ChannelTopic(channel: string) | ThreadTopic(key: ThreadKey) | UserTopic(user: string)

  datatype Impulse = Impulse(event: string, address: Option<Address>, private: bool, origin: Option<ThreadKey>)

  // ---------------------------------------------------------------- one subscriber's stream

  /** A read that finds nothing waits; an impulse sent meanwhile goes straight to its hands. */
  datatype Reader = Idle | Waiting | Handed(impulse: Impulse)

  /** `took` is what the reader has had; a backlog of None is unbounded. */
  datatype Stream = Stream(
    topic: Topic, backlog: Option<nat>, subscribed: bool, open: bool,
    buffer: seq<Impulse>, reader: Reader, took: seq<Impulse>)

  type FiberId = nat

  datatype Step =
    | Subscribe(topic: Topic, backlog: Option<nat>)
    | Leave(fiber: FiberId)
    | Deliver(topic: Topic, impulse: Impulse)
    | Receive(fiber: FiberId)
    | PickUp(fiber: FiberId)
    | GiveUp(fiber: FiberId)

  datatype Read = Got(impulse: Impulse) | EndOfStream | ClosedResource | Suspended

  function Fresh(topic: Topic, backlog: Option<nat>): Stream {
    Stream(topic, backlog, true, true, [], Idle, [])
  }

  /** `send_nowait`, with its three exceptions as `deliver` handles them. */
  function Sent(f: Stream, impulse: Impulse): Stream {
    if !f.open then f
    else if f.reader.Waiting? then f.(reader := Handed(impulse))
    else if Behind(f) then f.(open := false)
    else f.(buffer := f.buffer + [impulse])
  }

  /** The fiber holds all it was asked to hold, and nobody waits to take more. */
  predicate Behind(f: Stream) {
    !f.reader.Waiting? && f.backlog.Some? && |f.buffer| >= f.backlog.value
  }

  function Answer(f: Stream): Read {
    if !f.subscribed then ClosedResource
    else if f.buffer != [] then Got(f.buffer[0])
    else if !f.open then EndOfStream
    else Suspended
  }

  function Received(f: Stream): Stream {
    match Answer(f)
    case Got(impulse) => f.(buffer := f.buffer[1..], took := f.took + [impulse])
    case Suspended => f.(reader := Waiting)
    case _ => f
  }

  function Left(f: Stream): Stream {
    f.(subscribed := false, open := false, reader := if f.reader.Waiting? then Idle else f.reader)
  }

  function Next(f: Stream, id: FiberId, step: Step): Stream {
    match step
    case Subscribe(_, _) => f
    case Deliver(topic, impulse) => if f.subscribed && f.topic == topic then Sent(f, impulse) else f
    case Leave(g) => if g == id && f.subscribed then Left(f) else f
    case Receive(g) => if g == id && f.reader.Idle? then Received(f) else f
    case PickUp(g) =>
      if g == id && f.reader.Handed? then f.(took := f.took + [f.reader.impulse], reader := Idle) else f
    case GiveUp(g) => if g == id && f.reader.Waiting? then f.(reader := Idle) else f
  }

  function After(s: seq<Stream>, step: Step): seq<Stream> {
    if step.Subscribe? then s + [Fresh(step.topic, step.backlog)]
    else seq(|s|, i requires 0 <= i < |s| => Next(s[i], i, step))
  }

  function Run(s: seq<Stream>, steps: seq<Step>): seq<Stream>
    decreases |steps|
  {
    if steps == [] then s else Run(After(s, steps[0]), steps[1..])
  }

  function Follow(f: Stream, id: FiberId, steps: seq<Step>): Stream
    decreases |steps|
  {
    if steps == [] then f else Follow(Next(f, id, steps[0]), id, steps[1..])
  }

  /** Nothing that happens to another subscriber touches this one's stream. */
  lemma {:induction false} EachItsOwn(s: seq<Stream>, id: FiberId, steps: seq<Step>)
    requires id < |s|
    ensures |s| <= |Run(s, steps)| && Run(s, steps)[id] == Follow(s[id], id, steps)
    decreases |steps|
  {
    if steps != [] {
      EachItsOwn(After(s, steps[0]), id, steps[1..]);
    }
  }

  // ---------------------------------------------------------------- nothing skipped

  /** What was delivered to a topic, in order. */
  function Said(steps: seq<Step>, topic: Topic): seq<Impulse>
    decreases |steps|
  {
    if steps == [] then []
    else (if steps[0].Deliver? && steps[0].topic == topic then [steps[0].impulse] else []) + Said(steps[1..], topic)
  }

  function Held(f: Stream): seq<Impulse> {
    (if f.reader.Handed? then [f.reader.impulse] else []) + f.buffer
  }

  function Heard(f: Stream): seq<Impulse> {
    f.took + Held(f)
  }

  ghost predicate Consistent(f: Stream) {
    && (f.reader.Waiting? ==> f.open && f.buffer == [])
    && (f.open ==> f.subscribed)
    && (f.backlog.Some? ==> |f.buffer| <= f.backlog.value)
    && (f.subscribed && !f.open ==> f.backlog.Some?)
  }

  lemma SentHears(f: Stream, impulse: Impulse)
    requires Consistent(f)
    ensures var g := Sent(f, impulse);
            && Consistent(g)
            && Heard(g) == if g.open then Heard(f) + [impulse] else Heard(f)
  {
    if f.open && f.reader.Waiting? {
      assert Heard(f) == f.took + [] && Heard(Sent(f, impulse)) == f.took + [impulse];
    } else if f.open && !Behind(f) {
      assert Held(Sent(f, impulse)) == Held(f) + [impulse];
      assert f.took + (Held(f) + [impulse]) == (f.took + Held(f)) + [impulse];
    }
  }

  lemma ReadHears(f: Stream, id: FiberId, step: Step)
    requires Consistent(f) && !step.Deliver?
    ensures var g := Next(f, id, step);
            Consistent(g) && Heard(g) == Heard(f)
  {
    var g := Next(f, id, step);
    if step.Receive? && f.reader.Idle? && f.buffer != [] {
      assert f.buffer == [f.buffer[0]] + f.buffer[1..];
      assert f.took + ([f.buffer[0]] + f.buffer[1..]) == (f.took + [f.buffer[0]]) + f.buffer[1..];
      assert Held(f) == f.buffer && Held(g) == g.buffer;
    } else if step.PickUp? && f.reader.Handed? {
      assert f.took + ([f.reader.impulse] + f.buffer) == (f.took + [f.reader.impulse]) + f.buffer;
      assert Held(g) == g.buffer || g == f;
    } else {
      assert Held(g) == Held(f);
    }
  }

  /** A step adds what it delivers to what the subscriber heard, unless it is cut off then. */
  lemma NextHears(f: Stream, id: FiberId, step: Step)
    requires Consistent(f)
    ensures var g := Next(f, id, step);
            && Consistent(g) && g.topic == f.topic && g.backlog == f.backlog && (g.open ==> f.open)
            && Heard(g) == Heard(f) + if g.open then Said([step], f.topic) else []
  {
    assert Said([step], f.topic)
           == (if step.Deliver? && step.topic == f.topic then [step.impulse] else []) + Said([], f.topic);
    hide Heard, Consistent, Said;
    if step.Deliver? {
      SentHears(f, step.impulse);
      assert Said([], f.topic) == [];
    } else {
      ReadHears(f, id, step);
    }
  }

  lemma SaidNext(steps: seq<Step>, topic: Topic)
    requires steps != []
    ensures Said(steps, topic) == Said([steps[0]], topic) + Said(steps[1..], topic)
  {
    assert [steps[0]][1..] == [];
  }

  lemma {:induction false} FollowHears(f: Stream, id: FiberId, steps: seq<Step>)
    requires Consistent(f)
    ensures var end := Follow(f, id, steps);
            && Consistent(end) && end.topic == f.topic && end.backlog == f.backlog
            && Heard(f) <= Heard(end) <= Heard(f) + Said(steps, f.topic)
            && (end.open ==> f.open && Heard(end) == Heard(f) + Said(steps, f.topic))
            && (!f.open ==> Heard(end) == Heard(f))
    decreases |steps|
  {
    if steps == [] {
      assert Heard(f) == Heard(f) + [];
    } else {
      NextHears(f, id, steps[0]);
      var g := Next(f, id, steps[0]);
      FollowHears(g, id, steps[1..]);
      SaidNext(steps, f.topic);
      assert Heard(f) + Said(steps, f.topic) == (Heard(f) + Said([steps[0]], f.topic)) + Said(steps[1..], f.topic);
    }
  }

  /** What a subscriber of any run has read, and what is held for it, is what was delivered to
      its topic since it subscribed, from the first on and with no gap; all of it as long as it
      is not cut off, and it is never cut off without a bound on its backlog. */
  lemma NothingIsSkipped(before: seq<Step>, topic: Topic, backlog: Option<nat>, steps: seq<Step>)
    ensures var s := Run([], before + [Subscribe(topic, backlog)]);
            var end := Run(s, steps);
            && s != [] && |s| <= |end|
            && var f := end[|s| - 1];
               && Heard(f) <= Said(steps, topic)
               && (f.open ==> Heard(f) == Said(steps, topic))
               && (f.subscribed && backlog.None? ==> Heard(f) == Said(steps, topic))
  {
    var first := Run([], before);
    LastStep([], before, Subscribe(topic, backlog));
    var s := Run([], before + [Subscribe(topic, backlog)]);
    assert s == first + [Fresh(topic, backlog)];
    var id := |first|;
    EachItsOwn(s, id, steps);
    FollowHears(Fresh(topic, backlog), id, steps);
    assert Heard(Fresh(topic, backlog)) == [];
  }

  lemma {:induction false} LastStep(s: seq<Stream>, steps: seq<Step>, step: Step)
    ensures Run(s, steps + [step]) == After(Run(s, steps), step)
    decreases |steps|
  {
    if steps == [] {
      assert Run(s, [step]) == Run(After(s, step), []);
      assert steps + [step] == [step];
    } else {
      assert (steps + [step])[0] == steps[0] && (steps + [step])[1..] == steps[1..] + [step];
      LastStep(After(s, steps[0]), steps[1..], step);
    }
  }

  /** Cut off, a stream is never longer again. */
  lemma CutOffStaysSo(f: Stream, id: FiberId, steps: seq<Step>)
    requires Consistent(f) && !f.open
    ensures !Follow(f, id, steps).open && Heard(Follow(f, id, steps)) == Heard(f)
  {
    FollowHears(f, id, steps);
  }

  /** The delivery at `n` found the fiber full. */
  ghost predicate CutAt(f: Stream, id: FiberId, steps: seq<Step>, n: nat) {
    && n < |steps| && steps[n].Deliver? && steps[n].topic == f.topic
    && Follow(f, id, steps[..n]).open && Behind(Follow(f, id, steps[..n]))
  }

  /** A subscriber still there is cut off exactly when a delivery found it all its backlog behind. */
  lemma {:induction false} CutOffExactly(f: Stream, id: FiberId, steps: seq<Step>)
    requires Consistent(f) && f.open
    requires Follow(f, id, steps).subscribed
    ensures !Follow(f, id, steps).open <==> exists n: nat :: CutAt(f, id, steps, n)
    decreases |steps|
  {
    if steps != [] {
      var g := Next(f, id, steps[0]);
      var rest := steps[1..];
      NextHears(f, id, steps[0]);
      FollowHears(g, id, rest);
      assert Follow(f, id, []) == f && steps[..0] == [];
      if !g.open {
        StaysAway(g, id, rest);
        assert CutAt(f, id, steps, 0);
      } else {
        CutOffExactly(g, id, rest);
        forall n: nat | CutAt(g, id, rest, n) ensures CutAt(f, id, steps, n + 1) {
          assert steps[..n + 1][1..] == rest[..n] && steps[n + 1] == rest[n];
        }
        forall n: nat | CutAt(f, id, steps, n) ensures n > 0 && CutAt(g, id, rest, n - 1) {
          if n == 0 {
            assert false;
          }
          assert steps[..n][1..] == rest[..n - 1] && steps[n] == rest[n - 1];
        }
      }
    }
  }

  lemma {:induction false} StaysAway(f: Stream, id: FiberId, steps: seq<Step>)
    ensures !f.subscribed ==> !Follow(f, id, steps).subscribed
    decreases |steps|
  {
    if steps != [] {
      StaysAway(Next(f, id, steps[0]), id, steps[1..]);
    }
  }

  function Reads(id: FiberId, n: nat): seq<Step> {
    seq(n, i => Receive(id))
  }

  /** Cut off, a reader is given all that was held for it, and only then the end. */
  lemma {:induction false} ReadsOutThenEnds(f: Stream, id: FiberId)
    requires f.subscribed && !f.open && f.reader.Idle?
    ensures var end := Follow(f, id, Reads(id, |f.buffer|));
            end.took == Heard(f) && Answer(end) == EndOfStream
    decreases |f.buffer|
  {
    if f.buffer == [] {
      assert Heard(f) == f.took;
    } else {
      var g := Next(f, id, Receive(id));
      var steps := Reads(id, |f.buffer|);
      assert steps[1..] == Reads(id, |g.buffer|);
      ReadsOutThenEnds(g, id);
      assert f.buffer == [f.buffer[0]] + f.buffer[1..];
      assert Heard(g) == Heard(f);
    }
  }

  /** A read by a reader that is not reading takes what is held first; finds the stream ended, when it is
      cut off and nothing is held, or closed, once it has left; and waits otherwise. */
  lemma ReadsExactly(f: Stream, id: FiberId)
    requires f.reader == Idle
    ensures var after := Next(f, id, Receive(id));
            if !f.subscribed then Answer(f) == ClosedResource && after == f
            else if |f.buffer| > 0 then
              && Answer(f) == Got(f.buffer[0])
              && after == f.(buffer := f.buffer[1..], took := f.took + f.buffer[..1])
            else if f.open then Answer(f) == Suspended && after == f.(reader := Waiting)
            else Answer(f) == EndOfStream && after == f
  {
  }

  /** What comes to a reader that waits goes straight to it, is taken when it resumes, and is lost to
      nobody if it gives up before; one that leaves neither hears nor waits for more. */
  lemma WaitsExactly(f: Stream, id: FiberId, impulse: Impulse)
    requires f.subscribed && f.open && f.reader == Waiting
    ensures var sent := Next(f, id, Deliver(f.topic, impulse));
            && sent == f.(reader := Handed(impulse))
            && Next(sent, id, PickUp(id)) == f.(reader := Idle, took := f.took + [impulse])
            && Next(sent, id, GiveUp(id)) == sent
            && Next(f, id, GiveUp(id)) == f.(reader := Idle)
            && Next(f, id, Leave(id)) == f.(subscribed := false, open := false, reader := Idle)
            && Next(sent, id, Leave(id)) == sent.(subscribed := false, open := false)
  {
  }

  /** A subscriber begins with an empty stream of the bound it asked for, open to all that follows; what is
      delivered is held in order up to that bound, and one too many closes it. */
  lemma HoldsUpToItsBacklog(s: seq<Stream>, topic: Topic, backlog: Option<nat>, impulse: Impulse)
    ensures var after := After(s, Subscribe(topic, backlog));
            && |after| == |s| + 1 && after[..|s|] == s
            && var begun := after[|s|];
               && begun.topic == topic && begun.backlog == backlog && begun.subscribed && begun.open
               && begun.buffer == [] && begun.took == [] && begun.reader == Idle
    ensures forall id: FiberId, f: Stream :: f.subscribed && f.open && f.topic == topic && f.reader != Waiting ==>
              Next(f, id, Deliver(topic, impulse))
              == match f.backlog
                 case None => f.(buffer := f.buffer + [impulse])
                 case Some(bound) =>
                   if |f.buffer| < bound then f.(buffer := f.buffer + [impulse]) else f.(open := false)
    ensures forall id: FiberId, f: Stream :: !f.subscribed || !f.open || f.topic != topic ==>
              Next(f, id, Deliver(topic, impulse)) == f
  {
  }

  // ---------------------------------------------------------------- a publisher's stream

  /** How far a publisher's fiber may run ahead of the pump before it waits. */
  const FIBER_BUFFER: nat := 1024

  datatype Ending = Running | Drained | Killed

  /** `blocked` sends have yet to return; `sent` have, in that order; `routed` went out. */
  datatype Pipe = Pipe(
    buffer: seq<Impulse>, blocked: seq<Impulse>, open: bool, reader: Reader, ending: Ending,
    sent: seq<Impulse>, routed: seq<Impulse>)

  const OPENED := Pipe([], [], true, Idle, Running, [], [])

  /** `Kill`: whoever published is cancelled while it awaits the pump, which cancels the pump. */
  datatype Publishing = Send(impulse: Impulse) | GiveUpSend(k: nat) | Pump | CloseSend | Kill

  /** The next waiting send moves up. */
  function MovedUp(p: Pipe): Pipe {
    if p.blocked == [] then p
    else p.(buffer := p.buffer + [p.blocked[0]], sent := p.sent + [p.blocked[0]], blocked := p.blocked[1..])
  }

  /** The head of the buffer goes out; where there is none the pump waits, or is done. */
  function Popped(p: Pipe): Pipe {
    if p.buffer != [] then p.(routed := p.routed + [p.buffer[0]], buffer := p.buffer[1..])
    else if !p.open then p.(ending := Drained, reader := Idle)
    else p.(reader := Waiting)
  }

  function Pumped(p: Pipe): Pipe {
    if p.reader.Handed? then p.(routed := p.routed + [p.reader.impulse], reader := Idle) else Popped(MovedUp(p))
  }

  function Then(p: Pipe, step: Publishing): Pipe {
    match step
    case Send(impulse) =>
      if !p.open then p
      else if p.reader.Waiting? then p.(reader := Handed(impulse), sent := p.sent + [impulse])
      else if |p.buffer| < FIBER_BUFFER then p.(buffer := p.buffer + [impulse], sent := p.sent + [impulse])
      else p.(blocked := p.blocked + [impulse])
    case GiveUpSend(k) => if k < |p.blocked| then p.(blocked := p.blocked[..k] + p.blocked[k + 1..]) else p
    case Pump => if p.ending.Running? then Pumped(p) else p
    case CloseSend => p.(open := false)
    case Kill => if !p.open && p.ending.Running? then p.(ending := Killed) else p
  }

  function Publish(p: Pipe, steps: seq<Publishing>): Pipe
    decreases |steps|
  {
    if steps == [] then p else Publish(Then(p, steps[0]), steps[1..])
  }

  /** The pump takes what it was handed, or the head of the buffer, letting a waiting send move up; with
      nothing there it waits while the block lasts, and is done after. */
  lemma PumpsExactly(p: Pipe)
    ensures p.ending != Running ==> Then(p, Pump) == p
    ensures p.ending == Running ==>
              var after := Then(p, Pump);
              if p.reader.Handed? then after == p.(reader := Idle, routed := p.routed + [p.reader.impulse])
              else
                var held := p.buffer + if |p.blocked| > 0 then p.blocked[..1] else [];
                if held != [] then
                  && after.routed == p.routed + held[..1] && after.buffer == held[1..]
                  && after.blocked == p.blocked[if |p.blocked| > 0 then 1 else 0..]
                  && after.sent == p.sent + (if |p.blocked| > 0 then p.blocked[..1] else [])
                  && after.open == p.open && after.reader == p.reader && after.ending == Running
                else if p.open then after == p.(reader := Waiting)
                else after == p.(reader := Idle, ending := Drained)
  {
  }

  /** A send that gives up is the only one that goes; and only after the block has ended, and before the
      pump has, can cancellation reach it. */
  lemma GivesUpExactly(p: Pipe, k: nat)
    ensures k < |p.blocked| ==>
              var after := Then(p, GiveUpSend(k));
              && after == p.(blocked := after.blocked) && |after.blocked| == |p.blocked| - 1
              && (forall i :: 0 <= i < k ==> after.blocked[i] == p.blocked[i])
              && (forall i :: k <= i < |after.blocked| ==> after.blocked[i] == p.blocked[i + 1])
    ensures k >= |p.blocked| ==> Then(p, GiveUpSend(k)) == p
    ensures Then(p, Kill) == if p.open || p.ending != Running then p else p.(ending := Killed)
    ensures Then(p, CloseSend) == p.(open := false)
  {
  }

  function Ahead(p: Pipe): seq<Impulse> {
    (if p.reader.Handed? then [p.reader.impulse] else []) + p.buffer
  }

  ghost predicate InOrder(p: Pipe) {
    && p.sent == p.routed + Ahead(p)
    && |p.buffer| <= FIBER_BUFFER
    && (p.blocked != [] ==> |p.buffer| == FIBER_BUFFER)
    && (p.reader.Waiting? ==> p.buffer == [])
    && (p.ending.Drained? ==> Ahead(p) == [] && p.blocked == [] && !p.open)
  }

  lemma HandedOut(p: Pipe)
    requires InOrder(p) && p.reader.Handed?
    ensures InOrder(Pumped(p))
  {
    assert p.routed + ([p.reader.impulse] + p.buffer) == (p.routed + [p.reader.impulse]) + p.buffer;
    assert Ahead(Pumped(p)) == p.buffer;
  }

  lemma MovedUpInOrder(p: Pipe)
    requires InOrder(p) && !p.reader.Handed?
    ensures var q := MovedUp(p);
            && q.sent == q.routed + q.buffer && q.sent + q.blocked == p.sent + p.blocked
            && (if q.blocked == [] then |q.buffer| <= FIBER_BUFFER + 1 else |q.buffer| == FIBER_BUFFER + 1)
            && (q.buffer == [] ==> q == p && p.blocked == [])
  {
    assert Ahead(p) == p.buffer;
    if p.blocked != [] {
      assert p.blocked == [p.blocked[0]] + p.blocked[1..];
      assert (p.routed + p.buffer) + [p.blocked[0]] == p.routed + (p.buffer + [p.blocked[0]]);
      assert (p.sent + [p.blocked[0]]) + p.blocked[1..] == p.sent + p.blocked;
    }
  }

  lemma PumpedInOrder(p: Pipe)
    requires InOrder(p) && p.ending.Running?
    ensures InOrder(Pumped(p)) && Pumped(p).sent + Pumped(p).blocked == p.sent + p.blocked
  {
    if p.reader.Handed? {
      HandedOut(p);
    } else {
      MovedUpInOrder(p);
      var q := MovedUp(p);
      hide MovedUp;
      if q.buffer != [] {
        assert q.buffer == [q.buffer[0]] + q.buffer[1..];
        assert q.routed + ([q.buffer[0]] + q.buffer[1..]) == (q.routed + [q.buffer[0]]) + q.buffer[1..];
        assert Ahead(Popped(q)) == q.buffer[1..] || q.reader.Handed?;
      }
    }
  }

  lemma ThenInOrder(p: Pipe, step: Publishing)
    requires InOrder(p)
    ensures InOrder(Then(p, step))
  {
    if step.Pump? && p.ending.Running? {
      PumpedInOrder(p);
    } else if step.Send? {
      assert Ahead(Then(p, step)) == Ahead(p) || Ahead(Then(p, step)) == Ahead(p) + [step.impulse];
    } else {
      assert Ahead(Then(p, step)) == Ahead(p);
    }
  }

  lemma {:induction false} PublishInOrder(p: Pipe, steps: seq<Publishing>)
    requires InOrder(p)
    ensures InOrder(Publish(p, steps))
    decreases |steps|
  {
    if steps != [] {
      ThenInOrder(p, steps[0]);
      PublishInOrder(Then(p, steps[0]), steps[1..]);
    }
  }

  /** At any moment what went out is, in order and with no gap, what was sent so far up to what
      still waits in the fiber, which is never more than its buffer and one in hand. Once the
      pump ran dry that is everything that was sent. */
  lemma SentIsPublished(steps: seq<Publishing>)
    ensures var p := Publish(OPENED, steps);
            && p.routed <= p.sent && |p.sent| - |p.routed| <= FIBER_BUFFER + 1
            && (p.ending.Drained? ==> p.routed == p.sent && p.blocked == [])
  {
    PublishInOrder(OPENED, steps);
  }

  /** A send that has to wait keeps its turn. */
  lemma SendsKeepTheirTurn(steps: seq<Publishing>, step: Publishing)
    ensures var p := Publish(OPENED, steps);
            var q := Then(p, step);
            && (step.Send? && p.open ==> q.sent + q.blocked == p.sent + p.blocked + [step.impulse])
            && (step.Pump? ==> q.sent + q.blocked == p.sent + p.blocked)
            && (step.GiveUpSend? ==> q.sent == p.sent)
  {
    PublishInOrder(OPENED, steps);
    var p := Publish(OPENED, steps);
    if step.Pump? && p.ending.Running? {
      PumpedInOrder(p);
    }
  }

  lemma PumpShrinks(p: Pipe)
    requires InOrder(p) && !p.open && p.ending.Running?
    ensures var left, q := |Ahead(p)| + |p.blocked|, Pumped(p);
            if left == 0 then q.ending.Drained?
            else q.ending.Running? && |Ahead(q)| + |q.blocked| == left - 1
    ensures !Pumped(p).open
  {
    if p.reader.Handed? {
      assert Ahead(Pumped(p)) == p.buffer;
    } else {
      assert Ahead(p) == p.buffer && Ahead(Pumped(p)) == Pumped(p).buffer;
    }
  }

  /** Once the block has ended, the pump left alone publishes the rest and stops. */
  lemma {:induction false} ClosingDrains(p: Pipe)
    requires InOrder(p) && !p.open && p.ending.Running?
    ensures var n := |Ahead(p)| + |p.blocked| + 1;
            var end := Publish(p, seq(n, i => Pump));
            end.ending.Drained? && end.routed == p.sent + p.blocked
    decreases |Ahead(p)| + |p.blocked|
  {
    var n := |Ahead(p)| + |p.blocked| + 1;
    var steps: seq<Publishing> := seq(n, i => Pump);
    assert steps[1..] == seq(n - 1, i => Pump);
    PumpedInOrder(p);
    PumpShrinks(p);
    var q := Pumped(p);
    assert Then(p, Pump) == q;
    hide Pumped, Ahead;
    assert Publish(p, steps) == Publish(q, steps[1..]);
    if n > 1 {
      ClosingDrains(q);
    } else {
      assert Publish(q, []) == q;
      DrainedSentAll(q);
    }
  }

  lemma DrainedSentAll(p: Pipe)
    requires InOrder(p) && p.ending.Drained?
    ensures p.routed == p.sent == p.sent + p.blocked
  {
  }

  lemma {:induction false} NothingAfterKill(p: Pipe, steps: seq<Publishing>)
    requires !p.open && p.ending.Killed?
    ensures var end := Publish(p, steps);
            !end.open && end.ending.Killed? && end.routed == p.routed && end.sent == p.sent
    decreases |steps|
  {
    if steps != [] {
      NothingAfterKill(Then(p, steps[0]), steps[1..]);
    }
  }

  /** Cancelled while it closes, a publication publishes nothing more, whatever comes after. Everything
      that was sent has been published exactly if the pump had got to all of it by then, and every
      send begun in the block exactly if none was waiting besides. */
  lemma CancelledClosingExactly(p: Pipe, steps: seq<Publishing>)
    requires InOrder(p) && !p.open && p.ending.Running?
    ensures var end := Publish(Then(p, Kill), steps);
            && end.routed == p.routed && end.sent == p.sent
            && (end.routed == end.sent <==> Ahead(p) == [])
            && (end.routed == p.sent + p.blocked <==> Ahead(p) == [] && p.blocked == [])
  {
    NothingAfterKill(Then(p, Kill), steps);
    assert |p.sent| == |p.routed| + |Ahead(p)|;
    assert p.routed + [] == p.routed && p.sent + [] == p.sent;
  }

  /** So it loses what the pump had not got to. */
  lemma CancelledClosingLoses(impulse: Impulse)
    ensures var end := Publish(OPENED, [Send(impulse), CloseSend, Kill]);
            end.ending.Killed? && end.sent == [impulse] && end.routed == []
  {
    var steps := [Send(impulse), CloseSend, Kill];
    assert steps[1..] == [CloseSend, Kill] && steps[1..][1..] == [Kill] && steps[1..][1..][1..] == [];
    var sent := OPENED.(buffer := [impulse], sent := [impulse]);
    assert Then(OPENED, steps[0]) == sent;
    assert Publish(sent, [CloseSend, Kill]) == Publish(sent.(open := false), [Kill]);
    assert Publish(sent.(open := false), [Kill]) == Publish(sent.(open := false, ending := Killed), []);
  }

  // ---------------------------------------------------------------- from a publisher to its hearers

  function Stamped(impulse: Impulse, asked: Option<ThreadKey>): Impulse {
    impulse.(origin := asked)
  }

  /** The topics an impulse goes out on: its channel, its thread, and the asking thread unless
      it is private. Where the two threads are one, so is the topic. */
  function Topics(impulse: Impulse, asked: Option<ThreadKey>): set<Topic> {
    (if impulse.address.Some?
     then {ChannelTopic(impulse.address.value.key.channel), ThreadTopic(impulse.address.value.key)}
     else {})
    + (if !impulse.private && asked.Some? then {ThreadTopic(asked.value)} else {})
  }

  /** A channel hears what happens on it; a thread what happens there, and what was asked there
      unless it is private; a user's topic is never published to. */
  lemma ConcernedExactly(impulse: Impulse, asked: Option<ThreadKey>, topic: Topic)
    ensures match topic
            case ChannelTopic(channel) =>
              topic in Topics(impulse, asked) <==> impulse.address.Some? && impulse.address.value.key.channel == channel
            case ThreadTopic(key) =>
              topic in Topics(impulse, asked) <==>
                (impulse.address.Some? && impulse.address.value.key == key) || (asked == Some(key) && !impulse.private)
            case UserTopic(_) => topic !in Topics(impulse, asked)
    ensures |Topics(impulse, asked)| <= 3
    ensures impulse.address.Some? && asked == Some(impulse.address.value.key) ==> |Topics(impulse, asked)| == 2
  {
    if impulse.address.Some? {
      var channel, thread := ChannelTopic(impulse.address.value.key.channel), ThreadTopic(impulse.address.value.key);
      assert |{channel, thread}| == 2 by { assert {channel, thread} - {channel} == {thread}; }
      if asked == Some(impulse.address.value.key) {
        assert Topics(impulse, asked) == {channel, thread};
      } else if asked.Some? && !impulse.private {
        assert Topics(impulse, asked) == {channel, thread} + {ThreadTopic(asked.value)};
      } else {
        assert Topics(impulse, asked) == {channel, thread};
      }
    } else if asked.Some? && !impulse.private {
      assert Topics(impulse, asked) == {ThreadTopic(asked.value)};
    } else {
      assert Topics(impulse, asked) == {};
    }
  }

  /** One delivery to each topic, in whatever order the set gives them. */
  ghost predicate Enumerates(steps: seq<Step>, topics: set<Topic>, impulse: Impulse) {
    && (forall i :: 0 <= i < |steps| ==> steps[i].Deliver? && steps[i].impulse == impulse && steps[i].topic in topics)
    && (forall i, j :: 0 <= i < j < |steps| ==> steps[i].topic != steps[j].topic)
    && (forall topic :: topic in topics ==> exists i :: 0 <= i < |steps| && steps[i].topic == topic)
  }

  /** The pump routed `items` one after the other, while subscribers read, came and went. */
  ghost predicate Routing(steps: seq<Step>, items: seq<Impulse>, asked: Option<ThreadKey>)
    decreases |steps| + |items|
  {
    if steps != [] && !steps[0].Deliver? then Routing(steps[1..], items, asked)
    else if items == [] then steps == []
    else exists n: nat :: n <= |steps| && Enumerates(steps[..n], Topics(items[0], asked), Stamped(items[0], asked))
                          && Routing(steps[n..], items[1..], asked)
  }

  function Concerning(items: seq<Impulse>, asked: Option<ThreadKey>, topic: Topic): seq<Impulse> {
    if items == [] then []
    else (if topic in Topics(items[0], asked) then [Stamped(items[0], asked)] else [])
         + Concerning(items[1..], asked, topic)
  }

  lemma {:induction false} SaidIn(first: seq<Step>, rest: seq<Step>, topic: Topic)
    ensures Said(first + rest, topic) == Said(first, topic) + Said(rest, topic)
    decreases |first|
  {
    if first == [] {
      assert first + rest == rest;
    } else {
      assert (first + rest)[1..] == first[1..] + rest;
      SaidIn(first[1..], rest, topic);
    }
  }

  lemma {:induction false} NotSaid(steps: seq<Step>, topic: Topic)
    requires forall i :: 0 <= i < |steps| ==> steps[i].Deliver? && steps[i].topic != topic
    ensures Said(steps, topic) == []
    decreases |steps|
  {
    if steps != [] {
      NotSaid(steps[1..], topic);
    }
  }

  ghost predicate OnceEach(steps: seq<Step>, impulse: Impulse) {
    && (forall i :: 0 <= i < |steps| ==> steps[i].Deliver? && steps[i].impulse == impulse)
    && (forall i, j :: 0 <= i < j < |steps| ==> steps[i].topic != steps[j].topic)
  }

  lemma {:induction false} SaidOnceEach(steps: seq<Step>, impulse: Impulse, topic: Topic)
    requires OnceEach(steps, impulse)
    ensures Said(steps, topic) == if exists i :: 0 <= i < |steps| && steps[i].topic == topic then [impulse] else []
    decreases |steps|
  {
    if steps != [] {
      var rest := steps[1..];
      assert forall i :: 0 <= i < |rest| ==> rest[i] == steps[i + 1];
      if steps[0].topic == topic {
        NotSaid(rest, topic);
      } else {
        SaidOnceEach(rest, impulse, topic);
        assert forall i :: 0 < i < |steps| ==> steps[i] == rest[i - 1];
      }
    }
  }

  lemma SaidOnce(steps: seq<Step>, topics: set<Topic>, impulse: Impulse, topic: Topic)
    requires Enumerates(steps, topics, impulse)
    ensures Said(steps, topic) == if topic in topics then [impulse] else []
  {
    SaidOnceEach(steps, impulse, topic);
    hide Said;
  }

  lemma {:induction false} RoutedIsSaid(steps: seq<Step>, items: seq<Impulse>, asked: Option<ThreadKey>, topic: Topic)
    requires Routing(steps, items, asked)
    ensures Said(steps, topic) == Concerning(items, asked, topic)
    decreases |steps| + |items|
  {
    if steps != [] && !steps[0].Deliver? {
      RoutedIsSaid(steps[1..], items, asked, topic);
    } else if items != [] {
      var n: nat :| n <= |steps| && Enumerates(steps[..n], Topics(items[0], asked), Stamped(items[0], asked))
                    && Routing(steps[n..], items[1..], asked);
      hide Routing, Enumerates, Topics, Stamped;
      SaidOnce(steps[..n], Topics(items[0], asked), Stamped(items[0], asked), topic);
      RoutedIsSaid(steps[n..], items[1..], asked, topic);
      assert steps == steps[..n] + steps[n..];
      SaidIn(steps[..n], steps[n..], topic);
    }
  }

  /** The impulse happened on the channel or thread, or was asked for on the thread and is not private. */
  ghost predicate Concerns(impulse: Impulse, asked: Option<ThreadKey>, topic: Topic) {
    match topic
    case ChannelTopic(channel) => impulse.address.Some? && impulse.address.value.key.channel == channel
    case ThreadTopic(key) =>
      (impulse.address.Some? && impulse.address.value.key == key) || (asked == Some(key) && !impulse.private)
    case UserTopic(_) => false
  }

  /** What was heard is those of `items` at `at`, in that order, each as it was sent but for the thread
      it was asked for on, and `at` has all that concern the topic. */
  ghost predicate HeardAt(heard: seq<Impulse>, items: seq<Impulse>, asked: Option<ThreadKey>, topic: Topic,
                          at: seq<nat>)
  {
    && |at| == |heard|
    && (forall k :: 0 <= k < |at| ==> at[k] < |items|)
    && (forall j, k :: 0 <= j < k < |at| ==> at[j] < at[k])
    && (forall i: nat :: i in at <==> i < |items| && Concerns(items[i], asked, topic))
    && (forall k :: 0 <= k < |at| ==>
          && heard[k].event == items[at[k]].event && heard[k].address == items[at[k]].address
          && heard[k].private == items[at[k]].private && heard[k].origin == asked)
  }

  ghost predicate HeardInOrder(heard: seq<Impulse>, items: seq<Impulse>, asked: Option<ThreadKey>, topic: Topic) {
    exists at: seq<nat> :: HeardAt(heard, items, asked, topic, at)
  }

  lemma {:induction false} ConcerningGrows(items: seq<Impulse>, last: Impulse, asked: Option<ThreadKey>, topic: Topic)
    ensures Concerning(items + [last], asked, topic)
            == Concerning(items, asked, topic) + if topic in Topics(last, asked) then [Stamped(last, asked)] else []
    decreases |items|
  {
    hide Topics, Stamped;
    if items == [] {
      assert [last][1..] == [];
    } else {
      var head := if topic in Topics(items[0], asked) then [Stamped(items[0], asked)] else [];
      var tail := if topic in Topics(last, asked) then [Stamped(last, asked)] else [];
      assert (items + [last])[1..] == items[1..] + [last];
      assert Concerning(items + [last], asked, topic) == head + Concerning(items[1..] + [last], asked, topic);
      assert Concerning(items, asked, topic) == head + Concerning(items[1..], asked, topic);
      ConcerningGrows(items[1..], last, asked, topic);
      hide Concerning;
      assert head + (Concerning(items[1..], asked, topic) + tail) == head + Concerning(items[1..], asked, topic) + tail;
    }
  }

  /** One more impulse that does not concern the topic changes nothing. */
  lemma PassedOver(heard: seq<Impulse>, items: seq<Impulse>, last: Impulse, asked: Option<ThreadKey>, topic: Topic,
                   at: seq<nat>)
    requires HeardAt(heard, items, asked, topic, at) && !Concerns(last, asked, topic)
    ensures HeardAt(heard, items + [last], asked, topic, at)
  {
    hide Concerns;
    var more := items + [last];
    assert forall i :: 0 <= i < |items| ==> more[i] == items[i];
  }

  lemma HeardToo(heard: seq<Impulse>, items: seq<Impulse>, last: Impulse, asked: Option<ThreadKey>, topic: Topic,
                 at: seq<nat>, stamped: Impulse)
    requires HeardAt(heard, items, asked, topic, at) && Concerns(last, asked, topic)
    requires stamped.event == last.event && stamped.address == last.address && stamped.private == last.private
    requires stamped.origin == asked
    ensures HeardAt(heard + [stamped], items + [last], asked, topic, at + [|items|])
  {
    hide Concerns;
    var more, longer := items + [last], at + [|items|];
    assert forall i :: 0 <= i < |items| ==> more[i] == items[i];
    assert forall k :: 0 <= k < |at| ==> longer[k] == at[k];
    forall i: nat ensures i in longer <==> i < |more| && Concerns(more[i], asked, topic) {
      assert i in longer <==> i in at || i == |items|;
    }
  }

  lemma ConcernsIs(impulse: Impulse, asked: Option<ThreadKey>, topic: Topic)
    ensures Concerns(impulse, asked, topic) <==> topic in Topics(impulse, asked)
  {
    ConcernedExactly(impulse, asked, topic);
    hide Topics;
  }

  lemma OneMoreHeard(front: seq<Impulse>, last: Impulse, asked: Option<ThreadKey>, topic: Topic, at: seq<nat>)
    requires HeardAt(Concerning(front, asked, topic), front, asked, topic, at)
    ensures HeardInOrder(Concerning(front + [last], asked, topic), front + [last], asked, topic)
  {
    hide Topics, Concerning, HeardAt, Concerns;
    ConcerningGrows(front, last, asked, topic);
    ConcernsIs(last, asked, topic);
    if topic in Topics(last, asked) {
      HeardToo(Concerning(front, asked, topic), front, last, asked, topic, at, Stamped(last, asked));
    } else {
      PassedOver(Concerning(front, asked, topic), front, last, asked, topic, at);
      assert Concerning(front, asked, topic) + [] == Concerning(front, asked, topic);
    }
  }

  lemma NothingIsHeard(asked: Option<ThreadKey>, topic: Topic)
    ensures HeardInOrder([], [], asked, topic)
  {
    assert HeardAt([], [], asked, topic, []);
  }

  lemma {:induction false} ConcerningIsHeard(items: seq<Impulse>, asked: Option<ThreadKey>, topic: Topic)
    ensures HeardInOrder(Concerning(items, asked, topic), items, asked, topic)
    decreases |items|
  {
    hide Topics, HeardAt;
    if items == [] {
      NothingIsHeard(asked, topic);
    } else {
      hide Concerning;
      var front, last := items[..|items| - 1], items[|items| - 1];
      ConcerningIsHeard(front, asked, topic);
      var at: seq<nat> :| HeardAt(Concerning(front, asked, topic), front, asked, topic, at);
      OneMoreHeard(front, last, asked, topic, at);
      assert items == front + [last];
    }
  }

  /** A subscriber with no bound on its backlog, there from before to the end, hears of what was
      published exactly what concerns its topic: each impulse once, stamped, in the order sent. */
  lemma PublishedIsHeardOnce(before: seq<Step>, topic: Topic, steps: seq<Step>, items: seq<Impulse>,
                             asked: Option<ThreadKey>)
    requires Routing(steps, items, asked)
    ensures var s := Run([], before + [Subscribe(topic, None)]);
            var end := Run(s, steps);
            s != [] && |s| <= |end|
            && (end[|s| - 1].subscribed ==> HeardInOrder(Heard(end[|s| - 1]), items, asked, topic))
  {
    ConcerningIsHeard(items, asked, topic);
    NothingIsSkipped(before, topic, None, steps);
    RoutedIsSaid(steps, items, asked, topic);
  }

  // ---------------------------------------------------------------- the nerve

  class Fiber {
    const topic: Topic
    const backlog: Option<nat>
    var subscribed: bool
    var open: bool
    var buffer: seq<Impulse>
    var reader: Reader
    ghost var took: seq<Impulse>

    constructor (topic: Topic, backlog: Option<nat>)
      ensures View() == Fresh(topic, backlog)
    {
      this.topic, this.backlog := topic, backlog;
      subscribed, open, buffer, reader, took := true, true, [], Idle, [];
    }

    ghost function View(): Stream
      reads this
    {
      Stream(topic, backlog, subscribed, open, buffer, reader, took)
    }

    method SendNowait(impulse: Impulse)
      modifies this
      ensures View() == Sent(old(View()), impulse)
    {
      if !open {
        return;
      }
      if reader.Waiting? {
        reader := Handed(impulse);
      } else if backlog.None? || |buffer| < backlog.value {
        buffer := buffer + [impulse];
      } else {
        open := false;
      }
    }

    method Close()
      modifies this
      ensures View() == Left(old(View()))
    {
      subscribed, open := false, false;
      if reader.Waiting? {
        reader := Idle;
      }
    }
  }

  class Nerve {
    var subscribers: map<Topic, set<Fiber>>

    constructor ()
      ensures Valid() && subscribers == map[]
    {
      subscribers := map[];
    }

    ghost function Fibers(): set<Fiber>
      reads this
    {
      set topic, f | topic in subscribers && f in subscribers[topic] :: f
    }

    /** A topic nobody hears has no entry; a fiber stands under its own topic. */
    ghost predicate Valid()
      reads this, Fibers()
    {
      && (forall topic :: topic in subscribers ==> subscribers[topic] != {})
      && (forall topic, f :: topic in subscribers && f in subscribers[topic] ==> f.topic == topic && f.subscribed)
    }

    function Hearing(topic: Topic): set<Fiber>
      reads this
    {
      if topic in subscribers then subscribers[topic] else {}
    }

    method Subscribe(topic: Topic, backlog: Option<nat>) returns (fiber: Fiber)
      requires Valid()
      modifies this
      ensures Valid() && fresh(fiber) && fiber.View() == Fresh(topic, backlog)
      ensures forall t :: Hearing(t) == if t == topic then old(Hearing(t)) + {fiber} else old(Hearing(t))
    {
      fiber := new Fiber(topic, backlog);
      subscribers := subscribers[topic := Hearing(topic) + {fiber}];
    }

    method Leave(fiber: Fiber)
      requires Valid() && fiber in Hearing(fiber.topic)
      modifies this, fiber
      ensures Valid() && fiber.View() == Left(old(fiber.View()))
      ensures forall t :: Hearing(t) == old(Hearing(t)) - {fiber}
    {
      subscribers := subscribers[fiber.topic := subscribers[fiber.topic] - {fiber}];
      if subscribers[fiber.topic] == {} {
        subscribers := subscribers - {fiber.topic};
      }
      fiber.Close();
    }

    /** Every subscriber of the topic is sent the impulse once; nobody else hears of it. */
    method Deliver(topic: Topic, impulse: Impulse)
      requires Valid()
      modifies Hearing(topic)
      ensures Valid()
      ensures forall f :: f in Hearing(topic) ==> f.View() == Sent(old(f.View()), impulse)
    {
      var todo := Hearing(topic);
      while todo != {}
        invariant todo <= Hearing(topic) && Valid()
        invariant forall f :: f in Hearing(topic) ==>
                    f.View() == if f in todo then old(f.View()) else Sent(old(f.View()), impulse)
        decreases |todo|
      {
        var f :| f in todo;
        f.SendNowait(impulse);
        todo := todo - {f};
      }
    }

    /** Every fiber under one of the topics is sent the impulse once. */
    method DeliverEach(topics: set<Topic>, impulse: Impulse)
      requires Valid()
      modifies Fibers()
      ensures Valid()
      ensures forall f :: f in Fibers() ==>
                f.View() == if f.topic in topics then Sent(old(f.View()), impulse) else old(f.View())
    {
      hide Sent;
      var todo := topics;
      while todo != {}
        invariant todo <= topics && Valid()
        invariant forall f :: f in Fibers() ==>
                    f.View() == if f.topic in topics - todo then Sent(old(f.View()), impulse) else old(f.View())
        decreases |todo|
      {
        var topic :| topic in todo;
        label before:
        assert Hearing(topic) <= Fibers();
        Deliver(topic, impulse);
        forall f | f in Fibers()
          ensures f.View() == if f.topic == topic then Sent(old@before(f.View()), impulse) else old@before(f.View())
        {
          FiledUnderItsTopic(f);
        }
        todo := todo - {topic};
      }
    }

    lemma FiledUnderItsTopic(f: Fiber)
      requires Valid() && f in Fibers()
      ensures forall topic :: f in Hearing(topic) <==> topic == f.topic
    {
    }

    /** The pump's body: each fiber hears the stamped impulse once if its topic is concerned, and
        is left alone if not. */
    method Route(sent: Impulse, asked: Option<ThreadKey>)
      requires Valid()
      modifies Fibers()
      ensures Valid()
      ensures forall f :: f in Fibers() ==>
                f.View() == if f.topic in Topics(sent, asked) then Sent(old(f.View()), Stamped(sent, asked))
                            else old(f.View())
    {
      hide Sent;
      var impulse := sent.(origin := asked);
      var topics: set<Topic> := {};
      if impulse.address.Some? {
        topics := topics + {ChannelTopic(impulse.address.value.key.channel)};
        topics := topics + {ThreadTopic(impulse.address.value.key)};
      }
      if !impulse.private && asked.Some? {
        topics := topics + {ThreadTopic(asked.value)};
      }
      assert topics == Topics(sent, asked);
      DeliverEach(topics, impulse);
    }
  }
}
