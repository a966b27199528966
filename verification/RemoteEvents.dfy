/** The order of events across the handshake: what a consumer reads is what the server
    sent, in the order of the wire. */
module RemoteEvents {
  import opened Prelude
  import opened JsonRpc
  import opened RemoteWorker

  const INITIALIZE := StringId("initialize")

  /** The events in the first `n` frames, in wire order. */
  function Stream(frames: seq<Frame>, n: nat): seq<Event>
    requires n <= |frames|
  {
    if n == 0 then []
    else Keep(Stream(frames, n - 1), frames[n - 1])
  }

  function Keep(events: seq<Event>, f: Frame): seq<Event> {
    match EventOf(f) case Some(e) => events + [e] case None => events
  }

  /** The frames that carry an event: a known notification or a known request. */
  predicate Carries(f: Frame) {
    match f
    case Text(Notification(Some(_))) => true
    case Text(Request(_, Some(_))) => true
    case _ => false
  }

  /** How many of the first `n` frames carry an event. */
  function Carrying(frames: seq<Frame>, n: nat): nat
    requires n <= |frames|
  { if n == 0 then 0 else Carrying(frames, n - 1) + if Carries(frames[n - 1]) then 1 else 0 }

  /** The events of the wire, by the kinds of frame: as many as frames carry one, and the one
      of frame `k` stands after those of the frames before it. */
  lemma {:induction false} StreamByKind(frames: seq<Frame>, n: nat, k: nat)
    requires k < n <= |frames|
    ensures |Stream(frames, n)| == Carrying(frames, n)
    ensures Carries(frames[k]) ==>
      && Carrying(frames, k) < Carrying(frames, n)
      && Stream(frames, n)[Carrying(frames, k)] ==
           if frames[k].message.Notification? then Notified(frames[k].message.body.value)
           else Asked(frames[k].message.id, frames[k].message.body.value)
    decreases n
  {
    if n == 1 {
      assert Stream(frames, 0) == [];
    } else if k < n - 1 {
      StreamByKind(frames, n - 1, k);
    } else {
      StreamByKind(frames, n - 1, k - 1);
    }
  }

  // ----- the handshake -----

  /** What the handshake makes of one frame; `written` is the outcome of the refusal it may
      have to send. */
  datatype Verdict = Accepted | Rejected | Continue

  function Judge(f: Frame, written: bool): Verdict {
    match f
    case Text(Response(id, _)) => if id == INITIALIZE then Accepted else Continue
    case Text(ErrorResponse(id, _)) => if id == INITIALIZE then Rejected else Continue
    case Text(Notification(_)) => Continue
    case Text(Request(_, body)) => if body.Some? || written then Continue else Rejected
    case Skipped => Continue
    case _ => Rejected
  }

  datatype Handshake = Connected(events: seq<Event>, used: nat) | Failed

  /** Reads frames until the answer to `initialize`, keeping the events that come before. */
  function Shake(frames: seq<Frame>, written: seq<bool>, k: nat, events: seq<Event>): Handshake
    requires k <= |frames| == |written|
    decreases |frames| - k
  {
    if k == |frames| then Failed
    else
      match Judge(frames[k], written[k])
      case Accepted => Connected(events, k + 1)
      case Rejected => Failed
      case Continue => Shake(frames, written, k + 1, Keep(events, frames[k]))
  }

  /** `sent` and `announced` are the outcomes of writing `initialize` and `initialized`. A
      timeout is the end of `frames`. */
  method InitializeRemoteConnection(frames: seq<Frame>, written: seq<bool>, sent: bool, announced: bool)
    returns (r: Handshake)
    requires |frames| == |written|
    ensures !sent || !announced ==> r == Failed
    ensures sent && announced ==> r == Shake(frames, written, 0, [])
  {
    if !sent { return Failed; }
    var pending: seq<Event> := [];
    for k := 0 to |frames|
      invariant Shake(frames, written, 0, []) == Shake(frames, written, k, pending)
    {
      match frames[k] {
        case Text(Response(id, _)) =>
          if id == INITIALIZE { return if announced then Connected(pending, k + 1) else Failed; }
        case Text(ErrorResponse(id, _)) => if id == INITIALIZE { return Failed; }
        case Text(Notification(body)) => if body.Some? { pending := pending + [Notified(body.value)]; }
        case Text(Request(id, body)) =>
          if body.Some? {
            pending := pending + [Asked(id, body.value)];
          } else if !written[k] {
            return Failed;
          }
        case Skipped =>
        case _ => return Failed;
      }
    }
    return Failed;
  }

  /** Nothing from `k` up to `stop` decides the handshake. */
  ghost predicate Undecided(frames: seq<Frame>, written: seq<bool>, k: nat, stop: nat)
    requires |frames| == |written|
  {
    k <= stop <= |frames| && forall i | k <= i < stop :: Judge(frames[i], written[i]) == Continue
  }

  /** The first deciding frame decides; with its acceptance the client holds the events of
      all frames read. */
  lemma {:induction false} ShakeKeepsOrder(frames: seq<Frame>, written: seq<bool>, k: nat) returns (stop: nat)
    requires k <= |frames| == |written|
    ensures Undecided(frames, written, k, stop)
    ensures match Shake(frames, written, k, Stream(frames, k))
      case Connected(events, used) =>
        && used == stop + 1 <= |frames| && events == Stream(frames, used)
        && Judge(frames[stop], written[stop]) == Accepted
      case Failed => stop == |frames| || Judge(frames[stop], written[stop]) == Rejected
    decreases |frames| - k
  {
    stop := k;
    if k < |frames| && Judge(frames[k], written[k]) == Continue {
      stop := ShakeKeepsOrder(frames, written, k + 1);
    }
  }

  /** The handshake reads on after such a frame. */
  predicate Harmless(f: Frame, written: bool) {
    match f
    case Skipped => true
    case Text(Notification(_)) => true
    case Text(Request(_, Some(_))) => true
    case Text(Request(_, None)) => written
    case Text(Response(id, _)) => id != INITIALIZE
    case Text(ErrorResponse(id, _)) => id != INITIALIZE
    case _ => false
  }

  /** The handshake succeeds at frame `k` if and only if that is the answer to `initialize`
      and every frame before it is harmless; it then holds the events of those. */
  lemma {:induction false} HandshakeByKind(frames: seq<Frame>, written: seq<bool>, k: nat)
    requires k < |frames| == |written|
    ensures Shake(frames, written, 0, []) == Connected(Stream(frames, k), k + 1) <==>
      && frames[k].Text? && frames[k].message.Response? && frames[k].message.id == INITIALIZE
      && forall i | 0 <= i < k :: Harmless(frames[i], written[i])
  {
    var stop := ShakeKeepsOrder(frames, written, 0);
    forall i | 0 <= i < |frames| ensures Harmless(frames[i], written[i]) <==> Judge(frames[i], written[i]) == Continue {}
  }

  // ----- the worker -----

  /** The frames the worker has taken off the wire. */
  function Received(inputs: seq<Input>, n: nat): seq<Frame>
    requires n <= |inputs|
  {
    if n == 0 then []
    else
      Received(inputs, n - 1) +
      if Run(inputs, n - 1).running && inputs[n - 1].Receive? then [inputs[n - 1].frame] else []
  }

  /** Delivered so far: every event received. A stopped worker has in addition delivered one
      `Disconnected` or not; or else it stopped because it could not deliver the last. */
  ghost predicate Delivered(events: seq<Event>, running: bool, frames: seq<Frame>) {
    || events == Stream(frames, |frames|)
    || (!running && events == Stream(frames, |frames|) + [Disconnected])
    || (!running && frames != [] && EventOf(frames[|frames| - 1]).Some? && events == Stream(frames, |frames| - 1))
  }

  lemma {:induction false} StreamSame(a: seq<Frame>, b: seq<Frame>, n: nat)
    requires n <= |a| && n <= |b| && forall i | 0 <= i < n :: a[i] == b[i]
    ensures Stream(a, n) == Stream(b, n)
  {
    if n > 0 { StreamSame(a, b, n - 1); }
  }

  lemma StreamPush(frames: seq<Frame>, f: Frame)
    ensures Stream(frames + [f], |frames|) == Stream(frames, |frames|)
    ensures Stream(frames + [f], |frames| + 1) == Keep(Stream(frames, |frames|), f)
  {
    StreamSame(frames + [f], frames, |frames|);
  }

  lemma {:induction false} FrameDelivers(s: State, frames: seq<Frame>, f: Frame, written: bool, listening: bool)
    requires s.running && s.events == Stream(frames, |frames|)
    ensures var s' := OnFrame(s, f, written, listening);
      Delivered(s'.events, s'.running, frames + [f])
  {
    StreamPush(frames, f);
  }

  lemma {:induction false} WorkerDelivers(inputs: seq<Input>, n: nat)
    requires n <= |inputs|
    ensures Delivered(Run(inputs, n).events, Run(inputs, n).running, Received(inputs, n))
  {
    if n > 0 {
      WorkerDelivers(inputs, n - 1);
      var s, i, fs := Run(inputs, n - 1), inputs[n - 1], Received(inputs, n - 1);
      if s.running {
        match i
        case Receive(f, written, listening) => FrameDelivers(s, fs, f, written, listening);
        case _ =>
          assert Received(inputs, n) == fs;
          assert Run(inputs, n).events in {s.events, s.events + [Disconnected]};
      } else {
        assert Received(inputs, n) == fs;
      }
    }
  }

  /** How a worker ends, for its consumer: until then it has seen every event received, and
      the last turn shows `Disconnected` exactly if the connection was found lost and the
      consumer was there. */
  lemma {:induction false} HowItEnds(inputs: seq<Input>, n: nat)
    requires n < |inputs| && Run(inputs, n).running && !Run(inputs, n + 1).running
    ensures Run(inputs, n).events == Stream(Received(inputs, n), |Received(inputs, n)|)
    ensures Run(inputs, n + 1).events ==
      Run(inputs, n).events + if Breaks(Run(inputs, n), inputs[n]) && inputs[n].listening then [Disconnected] else []
  {
    WorkerDelivers(inputs, n);
    TurnShows(inputs, n);
  }

  // ----- the consumer -----

  /** The client's end: what the handshake left, then what the worker delivers. */
  class Client {
    var pendingEvents: seq<Event>
    var channel: seq<Event>
    ghost var yielded: seq<Event>

    ghost function Total(): seq<Event>
      reads this
    { yielded + pendingEvents + channel }

    constructor (handshake: seq<Event>)
      ensures yielded == [] && pendingEvents == handshake && channel == []
    {
      pendingEvents, channel, yielded := handshake, [], [];
    }

    /** The worker delivers an event. */
    method Arrive(e: Event)
      modifies this`channel
      ensures Total() == old(Total()) + [e]
    {
      channel := channel + [e];
    }

    /** `None` only when there is nothing left of either kind. */
    method NextEvent() returns (e: Option<Event>)
      modifies this
      ensures Total() == old(Total()) && yielded == old(yielded) + match e case Some(x) => [x] case None => []
      ensures e.None? <==> old(pendingEvents) == [] && old(channel) == []
    {
      if pendingEvents != [] {
        e := Some(pendingEvents[0]);
        assert yielded + pendingEvents == (yielded + [pendingEvents[0]]) + pendingEvents[1..];
        yielded := yielded + [pendingEvents[0]];
        pendingEvents := pendingEvents[1..];
        return;
      }
      if channel == [] { return None; }
      e := Some(channel[0]);
      assert yielded + pendingEvents + channel == (yielded + [channel[0]]) + pendingEvents + channel[1..];
      yielded := yielded + [channel[0]];
      channel := channel[1..];
    }
  }

  lemma {:induction false} StreamConcat(a: seq<Frame>, b: seq<Frame>, k: nat)
    requires k <= |b|
    ensures Stream(a + b, |a| + k) == Stream(a, |a|) + Stream(b, k)
  {
    if k == 0 {
      StreamSame(a + b, a, |a|);
    } else {
      StreamConcat(a, b, k - 1);
      assert (a + b)[|a| + k - 1] == b[k - 1];
    }
  }

  lemma Append(a: seq<Event>, b: seq<Event>, e: Event)
    ensures a + (b + [e]) == (a + b) + [e]
  {
  }

  lemma {:induction false} DeliveredAfter(first: seq<Frame>, frames: seq<Frame>, events: seq<Event>, running: bool)
    requires Delivered(events, running, frames)
    ensures Delivered(Stream(first, |first|) + events, running, first + frames)
  {
    var wire := first + frames;
    if events == Stream(frames, |frames|) {
      StreamConcat(first, frames, |frames|);
    } else if events == Stream(frames, |frames|) + [Disconnected] {
      StreamConcat(first, frames, |frames|);
      Append(Stream(first, |first|), Stream(frames, |frames|), Disconnected);
    } else {
      StreamConcat(first, frames, |frames| - 1);
      assert wire[|wire| - 1] == frames[|frames| - 1];
    }
  }

  /** Everything that reaches the consumer, in the order it does: the events of the wire,
      all of them or all but the last, then perhaps, after all, one `Disconnected`. */
  lemma {:induction false} AllEvents(frames: seq<Frame>, written: seq<bool>, inputs: seq<Input>, n: nat)
    requires |frames| == |written| && n <= |inputs| && Shake(frames, written, 0, []).Connected?
    ensures var h := Shake(frames, written, 0, []);
      h.used <= |frames| &&
      Delivered(h.events + Run(inputs, n).events, Run(inputs, n).running, frames[..h.used] + Received(inputs, n))
  {
    var _ := ShakeKeepsOrder(frames, written, 0);
    var h := Shake(frames, written, 0, []);
    StreamSame(frames, frames[..h.used], h.used);
    WorkerDelivers(inputs, n);
    DeliveredAfter(frames[..h.used], Received(inputs, n), Run(inputs, n).events, Run(inputs, n).running);
  }

  lemma PrefixOfPush(y: seq<Event>, b: seq<Event>, e: Event)
    requires y <= b + [e]
    ensures y <= b || y == b + [e]
  {
    if |y| <= |b| {
      assert forall i | 0 <= i < |y| :: y[i] == (b + [e])[i];
    }
  }

  lemma PrefixTransitive(a: seq<Event>, b: seq<Event>, c: seq<Event>)
    requires a <= b && b <= c
    ensures a <= c
  {
    assert forall i | 0 <= i < |a| :: a[i] == b[i];
  }

  lemma {:induction false} PrefixInOrder(yielded: seq<Event>, events: seq<Event>, running: bool, wire: seq<Frame>)
    requires yielded <= events && Delivered(events, running, wire)
    ensures InWireOrder(yielded, wire)
  {
    if events == Stream(wire, |wire|) {
    } else if events == Stream(wire, |wire|) + [Disconnected] {
      PrefixOfPush(yielded, Stream(wire, |wire|), Disconnected);
    } else {
      PrefixTransitive(yielded, Stream(wire, |wire| - 1), Stream(wire, |wire|));
    }
  }

  /** What `next_event` yields, at any time and for any interleaving of commands and
      frames: a beginning of the events of the wire, each once and in order, across the
      switch from handshake to worker; or all of them and then a single `Disconnected`. */
  lemma {:induction false} EventOrder(frames: seq<Frame>, written: seq<bool>, inputs: seq<Input>, n: nat,
                                      yielded: seq<Event>)
    requires |frames| == |written| && n <= |inputs| && Shake(frames, written, 0, []).Connected?
    requires yielded <= Shake(frames, written, 0, []).events + Run(inputs, n).events
    ensures var h := Shake(frames, written, 0, []);
      h.used <= |frames| && InWireOrder(yielded, frames[..h.used] + Received(inputs, n))
  {
    AllEvents(frames, written, inputs, n);
    var h := Shake(frames, written, 0, []);
    var s, wire := Run(inputs, n), frames[..h.used] + Received(inputs, n);
    PrefixInOrder(yielded, h.events + s.events, s.running, wire);
  }

  ghost predicate InWireOrder(yielded: seq<Event>, wire: seq<Frame>) {
    yielded <= Stream(wire, |wire|) || yielded == Stream(wire, |wire|) + [Disconnected]
  }

  lemma {:induction false} StepEvents(s: State, i: Input)
    ensures s.events <= Step(s, i).events && |Step(s, i).events| <= |s.events| + 1
  {
  }

  /** Asks for up to `n` events, and gets as many as there are. */
  method NextEvents(client: Client, n: nat) returns (es: seq<Event>)
    modifies client
    ensures client.Total() == old(client.Total()) && client.yielded == old(client.yielded) + es
    ensures |es| == Min(n, |old(client.Total())| - |old(client.yielded)|)
  {
    es := [];
    for k := 0 to n
      invariant client.Total() == old(client.Total()) && client.yielded == old(client.yielded) + es
      invariant |es| == Min(k, |old(client.Total())| - |old(client.yielded)|)
    {
      var e := client.NextEvent();
      if e.Some? { es := es + [e.value]; }
    }
  }

  /** A turn of the worker, if it still runs, and the arrival of the event it delivers. */
  method TurnAndDeliver(worker: Worker, client: Client, i: Input, ghost first: seq<Event>)
    requires client.Total() == first + worker.events
    modifies worker, client
    ensures worker.Value() == Step(old(worker.Value()), i)
    ensures client.Total() == first + worker.events && client.yielded == old(client.yielded)
  {
    ghost var before := worker.Value();
    var count := |worker.events|;
    if worker.running { worker.Turn(i); }
    StepEvents(before, i);
    if count < |worker.events| {
      client.Arrive(worker.events[count]);
      assert worker.events == before.events + [worker.events[count]];
      Append(first, before.events, worker.events[count]);
    } else {
      assert worker.events == before.events;
    }
  }

  /** A session: the handshake, then the worker's turns, with the consumer asking for up to
      `wants[n]` events after turn `n`. What the consumer gets is in the order of the wire. */
  method Session(frames: seq<Frame>, written: seq<bool>, sent: bool, announced: bool, inputs: seq<Input>, wants: seq<nat>)
    returns (r: Option<seq<Event>>)
    requires |frames| == |written| && |inputs| == |wants|
    ensures r.Some? <==> sent && announced && Shake(frames, written, 0, []).Connected?
    ensures r.Some? ==> var h := Shake(frames, written, 0, []);
      h.used <= |frames| && InWireOrder(r.value, frames[..h.used] + Received(inputs, |inputs|))
    ensures r.Some? && inputs != [] ==> var events := Shake(frames, written, 0, []).events + Run(inputs, |inputs|).events;
      |r.value| >= Min(wants[|inputs| - 1], |events|) && r.value <= events
  {
    var h := InitializeRemoteConnection(frames, written, sent, announced);
    if h.Failed? { return None; }
    var client := new Client(h.events);
    var worker := new Worker();
    var yielded: seq<Event> := [];
    for n := 0 to |inputs|
      invariant fresh(client) && fresh(worker) && worker.Value() == Run(inputs, n)
      invariant client.yielded == yielded && client.Total() == h.events + worker.events
      invariant n > 0 ==> |yielded| >= Min(wants[n - 1], |client.Total()|)
    {
      TurnAndDeliver(worker, client, inputs[n], h.events);
      var more := NextEvents(client, wants[n]);
      yielded := yielded + more;
    }
    assert yielded <= client.Total();
    EventOrder(frames, written, inputs, |inputs|, yielded);
    return Some(yielded);
  }

  /** `Disconnected` is made by the worker alone. */
  lemma {:induction false} StreamNeverDisconnects(frames: seq<Frame>, n: nat)
    requires n <= |frames|
    ensures Disconnected !in Stream(frames, n)
  {
    if n > 0 { StreamNeverDisconnects(frames, n - 1); }
  }
}
