/** The worker that forwards app-server events to an in-process consumer through a
    bounded channel: some events must arrive, the others may be dropped, and drops are
    counted and reported. */
module EventForwarder {
  import opened Prelude

  datatype Notification =
    | TurnCompleted(body: string)
    | ItemCompleted(body: string)
    | AgentMessageDelta(body: string)
    | PlanDelta(body: string)
    | ReasoningSummaryTextDelta(body: string)
    | ReasoningTextDelta(body: string)
    | Other(name: string, body: string)

  datatype ServerRequest = AuthTokensRefresh(id: string) | Supported(id: string, name: string)

  datatype Event = Lagged(count: nat) | Notify(notification: Notification) | Ask(request: ServerRequest)

  /** Transcript and completion notifications survive backpressure. */
  predicate RequiresDelivery(e: Event) { e.Notify? && !e.notification.Other? }

  predicate AuthRefresh(e: Event) { e.Ask? && e.request.AuthTokensRefresh? }

  /** What the worker puts on the channel: an event of the source, with its position there,
      or a lag marker of its own. */
  datatype Item = Passed(index: nat, event: Event) | Marker(skipped: nat)

  const USIZE_MAX: nat := 0xFFFF_FFFF_FFFF_FFFF

  /** How the channel answers a send; a blocking send never answers `Full`. */
  datatype Answer = Fits | Full | Gone

  /** `seen` are the events taken from the source, `out` everything ever put on the
      channel, `rejected` the positions of the requests answered with an error. `lost`
      counts the drops that the saturating counter could not count. The stream is
      disabled, with the last event still in hand, once the consumer is found gone. */
  datatype Log = Log(seen: seq<Event>, out: seq<Item>, skipped: nat, rejected: seq<nat>, lost: nat, enabled: bool)

  const EMPTY_LOG := Log([], [], 0, [], 0, true)

  function Drop(l: Log, e: Event): Log
    requires l.seen != []
  {
    l.(skipped := Min(l.skipped + 1, USIZE_MAX),
       lost := if l.skipped >= USIZE_MAX then l.lost + 1 else l.lost,
       rejected := if e.Ask? then l.rejected + [|l.seen| - 1] else l.rejected)
  }

  /** Sends the event in hand, once lag has been reported. */
  function SendOwn(l: Log, e: Event, own: Answer): Log
    requires l.seen != []
  {
    if own == Gone then l.(enabled := false)
    else if own == Full && !RequiresDelivery(e) then Drop(l, e)
    else l.(out := l.out + [Passed(|l.seen| - 1, e)])
  }

  /** One event through the worker; `marker` and `own` are the channel's answers to the lag
      marker and to the event itself. */
  function Forward(l: Log, e: Event, marker: Answer, own: Answer): Log {
    var taken := l.(seen := l.seen + [e]);
    if AuthRefresh(e) then taken.(rejected := l.rejected + [|l.seen|])
    else if l.skipped == 0 then SendOwn(taken, e, own)
    else if marker == Gone then taken.(enabled := false)
    else if marker == Full && !RequiresDelivery(e) then Drop(taken, e)
    else SendOwn(taken.(out := l.out + [Marker(l.skipped)], skipped := 0), e, own)
  }

  datatype Input = Input(event: Event, marker: Answer, own: Answer)

  /** The worker reads no more events once the stream is disabled. */
  function Run(inputs: seq<Input>): Log {
    if inputs == [] then EMPTY_LOG
    else
      var l := Run(inputs[..|inputs| - 1]);
      var i := inputs[|inputs| - 1];
      if l.enabled then Forward(l, i.event, i.marker, i.own) else l
  }

  lemma RunPush(inputs: seq<Input>, i: Input)
    requires Run(inputs).enabled
    ensures Run(inputs + [i]) == Forward(Run(inputs), i.event, i.marker, i.own)
  {
    assert (inputs + [i])[..|inputs|] == inputs;
  }

  lemma ForwardSees(l: Log, i: Input)
    ensures Forward(l, i.event, i.marker, i.own).seen == l.seen + [i.event]
    ensures AuthRefresh(i.event) ==> Forward(l, i.event, i.marker, i.own).enabled == l.enabled
  {
  }

  // ----- what is counted, among the first `n` -----

  /** Events handed to the channel logic: all but the refresh requests. */
  function Handed(es: seq<Event>, n: nat): nat
    requires n <= |es|
  { if n == 0 then 0 else Handed(es, n - 1) + if AuthRefresh(es[n - 1]) then 0 else 1 }

  /** Events of the source that were passed on. */
  function Reals(items: seq<Item>, n: nat): nat
    requires n <= |items|
  { if n == 0 then 0 else Reals(items, n - 1) + if items[n - 1].Passed? then 1 else 0 }

  /** Losses that markers report. */
  function Marked(items: seq<Item>, n: nat): nat
    requires n <= |items|
  { if n == 0 then 0 else Marked(items, n - 1) + if items[n - 1].Marker? then items[n - 1].skipped else 0 }

  /** The notifications that must arrive, in order. */
  function MustIn(es: seq<Event>, n: nat): seq<Event>
    requires n <= |es|
  { if n == 0 then [] else MustIn(es, n - 1) + if RequiresDelivery(es[n - 1]) then [es[n - 1]] else [] }

  function MustOut(items: seq<Item>, n: nat): seq<Event>
    requires n <= |items|
  {
    if n == 0 then []
    else
      var i := items[n - 1];
      MustOut(items, n - 1) + if i.Passed? && RequiresDelivery(i.event) then [i.event] else []
  }

  lemma {:induction false} SameItems(a: seq<Item>, b: seq<Item>, n: nat)
    requires n <= |a| && n <= |b| && forall i | 0 <= i < n :: a[i] == b[i]
    ensures Reals(a, n) == Reals(b, n) && Marked(a, n) == Marked(b, n) && MustOut(a, n) == MustOut(b, n)
  {
    if n > 0 { SameItems(a, b, n - 1); }
  }

  lemma {:induction false} SameEvents(a: seq<Event>, b: seq<Event>, n: nat)
    requires n <= |a| && n <= |b| && forall i | 0 <= i < n :: a[i] == b[i]
    ensures Handed(a, n) == Handed(b, n) && MustIn(a, n) == MustIn(b, n)
  {
    if n > 0 { SameEvents(a, b, n - 1); }
  }

  // ----- the invariant of a run -----

  /** The event still in hand when the consumer was found gone. */
  function InHand(l: Log): nat { if l.enabled then 0 else 1 }

  /** Every event handed over is on the channel, covered by a marker, waiting to be
      reported, uncounted, or in hand. */
  ghost predicate Balanced(l: Log) {
    && Handed(l.seen, |l.seen|) == Reals(l.out, |l.out|) + Marked(l.out, |l.out|) + l.skipped + l.lost + InHand(l)
    && l.skipped <= USIZE_MAX && (l.lost > 0 ==> Handed(l.seen, |l.seen|) > USIZE_MAX)
    && (!l.enabled ==> l.seen != [] && !AuthRefresh(l.seen[|l.seen| - 1]))
  }

  /** The events of the source before the one passed at `k` are those that were passed and
      those that markers report. */
  ghost predicate CountedAt(l: Log, k: nat) {
    k < |l.out| && l.out[k].Passed? && l.out[k].index <= |l.seen| && l.lost == 0 ==>
      Handed(l.seen, l.out[k].index) == Reals(l.out, k) + Marked(l.out, k)
  }

  /** Each passed event comes from where the count of what precedes it says. */
  ghost predicate Placed(l: Log) {
    && (forall k | 0 <= k < |l.out| && l.out[k].Passed? ::
          l.out[k].index < |l.seen| - InHand(l) && l.out[k].event == l.seen[l.out[k].index] && !AuthRefresh(l.out[k].event))
    && (forall k: nat :: CountedAt(l, k))
  }

  /** Events keep their order and none is passed twice. */
  ghost predicate InOrder(l: Log) {
    forall j, k | 0 <= j < k < |l.out| && l.out[j].Passed? && l.out[k].Passed? :: l.out[j].index < l.out[k].index
  }

  ghost predicate Lossless(l: Log) {
    MustOut(l.out, |l.out|) == MustIn(l.seen, if l.enabled || l.seen == [] then |l.seen| else |l.seen| - 1)
  }

  predicate OnChannel(l: Log, i: nat) { exists k | 0 <= k < |l.out| :: l.out[k].Passed? && l.out[k].index == i }

  predicate Stranded(l: Log, i: nat) { !l.enabled && i == |l.seen| - 1 }

  predicate ExactlyOne(a: bool, b: bool, c: bool) { (a || b || c) && !(a && b) && !(a && c) && !(b && c) }

  /** Every request is delivered, rejected or stranded, and only one of these. */
  ghost predicate Conserved(l: Log) { forall i: nat :: Resolved(l, i) }

  ghost predicate Resolved(l: Log, i: nat) {
    i < |l.seen| && l.seen[i].Ask? ==> ExactlyOne(i in l.rejected, OnChannel(l, i), Stranded(l, i))
  }

  /** Only requests are rejected, each once, and refresh requests always are. */
  ghost predicate RejectedRightly(l: Log) {
    && (forall j | 0 <= j < |l.rejected| :: l.rejected[j] < |l.seen| - InHand(l) && l.seen[l.rejected[j]].Ask?)
    && (forall j, k | 0 <= j < k < |l.rejected| :: l.rejected[j] < l.rejected[k])
    && (forall i: nat :: RefreshRejected(l, i))
  }

  ghost predicate RefreshRejected(l: Log, i: nat) { i < |l.seen| && AuthRefresh(l.seen[i]) ==> i in l.rejected }

  ghost predicate Inv(l: Log) {
    Balanced(l) && Placed(l) && InOrder(l) && Lossless(l) && Conserved(l) && RejectedRightly(l)
  }

  // ----- each step keeps it -----

  /** The log with `e` in hand: taken from the source and not dealt with. */
  ghost predicate Holding(l: Log, e: Event) {
    && l.enabled && l.seen != [] && l.seen[|l.seen| - 1] == e && !AuthRefresh(e)
    && Inv(l.(enabled := false))
  }

  /** Taking an event leaves everything about earlier ones as it was. */
  lemma TakePlaced(l: Log, m: Log, e: Event)
    requires Placed(l) && l.enabled && m.seen == l.seen + [e] && m.out == l.out && m.lost == l.lost
    ensures Placed(m)
    ensures forall i :: OnChannel(m, i) <==> OnChannel(l, i)
    ensures !OnChannel(m, |l.seen|)
  {
    forall k: nat ensures CountedAt(m, k) {
      assert CountedAt(l, k);
      if k < |l.out| && l.out[k].Passed? { SameEvents(m.seen, l.seen, l.out[k].index); }
    }
  }

  lemma TakeConserves(l: Log, m: Log, e: Event)
    requires Conserved(l) && RejectedRightly(l) && l.enabled && !AuthRefresh(e)
    requires m == l.(seen := l.seen + [e], enabled := false)
    requires (forall i :: OnChannel(m, i) <==> OnChannel(l, i)) && !OnChannel(m, |l.seen|)
    ensures Conserved(m) && RejectedRightly(m)
  {
    assert forall i | 0 <= i < |l.seen| :: m.seen[i] == l.seen[i];
    forall i: nat ensures Resolved(m, i) && RefreshRejected(m, i) {
      assert Resolved(l, i) && RefreshRejected(l, i);
    }
  }

  lemma TakeCounts(l: Log, m: Log, e: Event)
    requires Balanced(l) && Lossless(l) && l.enabled && !AuthRefresh(e)
    requires m == l.(seen := l.seen + [e], enabled := false)
    ensures Balanced(m) && Lossless(m)
  {
    SameEvents(m.seen, l.seen, |l.seen|);
  }

  lemma TakeHolds(l: Log, e: Event)
    requires Inv(l) && l.enabled && !AuthRefresh(e)
    ensures Holding(l.(seen := l.seen + [e]), e)
  {
    var m := l.(seen := l.seen + [e], enabled := false);
    TakeCounts(l, m, e);
    TakePlaced(l, m, e);
    TakeConserves(l, m, e);
  }

  lemma RefreshRejects(l: Log, m: Log, e: Event)
    requires Conserved(l) && RejectedRightly(l) && l.enabled && AuthRefresh(e)
    requires m == l.(seen := l.seen + [e], rejected := l.rejected + [|l.seen|])
    requires (forall i :: OnChannel(m, i) <==> OnChannel(l, i)) && !OnChannel(m, |l.seen|)
    ensures Conserved(m) && RejectedRightly(m)
  {
    assert forall i | 0 <= i < |l.seen| :: m.seen[i] == l.seen[i];
    RejectPush(l.rejected, |l.seen|);
    forall i: nat ensures Resolved(m, i) && RefreshRejected(m, i) {
      assert Resolved(l, i) && RefreshRejected(l, i);
    }
  }

  lemma RefreshKeeps(l: Log, e: Event)
    requires Inv(l) && l.enabled && AuthRefresh(e)
    ensures Inv(l.(seen := l.seen + [e], rejected := l.rejected + [|l.seen|]))
  {
    var m := l.(seen := l.seen + [e], rejected := l.rejected + [|l.seen|]);
    SameEvents(m.seen, l.seen, |l.seen|);
    TakePlaced(l, m, e);
    RefreshRejects(l, m, e);
  }

  lemma RejectPush(rejected: seq<nat>, n: nat)
    ensures forall i :: i in rejected + [n] <==> i in rejected || i == n
  {
    assert (rejected + [n])[|rejected|] == n;
  }

  /** Putting an item on the channel leaves the places of earlier ones. */
  lemma PushKeepsPlaces(a: Log, m: Log, k: nat)
    requires Placed(a) && m.seen == a.seen && m.lost == a.lost && InHand(m) <= InHand(a)
    requires k < |a.out| <= |m.out| && forall j | 0 <= j < |a.out| :: m.out[j] == a.out[j]
    ensures CountedAt(m, k)
  {
    assert CountedAt(a, k);
    SameItems(m.out, a.out, k);
  }

  lemma FlushPlaced(a: Log, m: Log)
    requires Placed(a) && InOrder(a) && m == a.(out := a.out + [Marker(a.skipped)], skipped := 0)
    ensures Placed(m) && InOrder(m)
  {
    forall k: nat ensures CountedAt(m, k) {
      if k < |a.out| { PushKeepsPlaces(a, m, k); }
    }
  }

  lemma FlushCounts(a: Log, m: Log)
    requires Balanced(a) && Lossless(a) && m == a.(out := a.out + [Marker(a.skipped)], skipped := 0)
    ensures Balanced(m) && Lossless(m)
  {
    SameItems(m.out, a.out, |a.out|);
  }

  lemma FlushHolds(l: Log, e: Event)
    requires Holding(l, e)
    ensures Holding(l.(out := l.out + [Marker(l.skipped)], skipped := 0), e)
  {
    var a := l.(enabled := false);
    var m := a.(out := l.out + [Marker(l.skipped)], skipped := 0);
    FlushCounts(a, m);
    FlushPlaced(a, m);
    FlushConserves(a, m);
  }

  lemma FlushConserves(a: Log, m: Log)
    requires Conserved(a) && RejectedRightly(a) && m == a.(out := a.out + [Marker(a.skipped)], skipped := 0)
    ensures Conserved(m) && RejectedRightly(m)
  {
    SameDelivered(a, m);
    forall i: nat ensures Resolved(m, i) && RefreshRejected(m, i) {
      assert Resolved(a, i) && RefreshRejected(a, i);
    }
  }

  /** Markers deliver nothing. */
  lemma SameDelivered(a: Log, m: Log)
    requires |m.out| == |a.out| + 1 && m.out[..|a.out|] == a.out && m.out[|a.out|].Marker?
    ensures forall i :: OnChannel(m, i) <==> OnChannel(a, i)
  {
    assert forall k | 0 <= k < |a.out| :: m.out[k] == a.out[k];
  }

  lemma PassPlaced(a: Log, m: Log, e: Event)
    requires Inv(a) && !a.enabled && a.skipped == 0 && a.seen[|a.seen| - 1] == e
    requires m == a.(enabled := true, out := a.out + [Passed(|a.seen| - 1, e)])
    ensures Placed(m)
  {
    var n := |a.out|;
    forall k: nat ensures CountedAt(m, k) {
      if k < n { PushKeepsPlaces(a, m, k); } else if k == n { SameItems(m.out, a.out, n); }
    }
  }

  lemma PassOrder(a: Log, m: Log, e: Event)
    requires Placed(a) && InOrder(a) && !a.enabled && a.seen != []
    requires m == a.(enabled := true, out := a.out + [Passed(|a.seen| - 1, e)])
    ensures InOrder(m)
  {
    assert forall k | 0 <= k < |a.out| && a.out[k].Passed? :: m.out[k] == a.out[k] && a.out[k].index < |a.seen| - 1;
  }

  lemma PassCounts(a: Log, m: Log, e: Event)
    requires Balanced(a) && Lossless(a) && !a.enabled && a.seen[|a.seen| - 1] == e
    requires m == a.(enabled := true, out := a.out + [Passed(|a.seen| - 1, e)])
    ensures Balanced(m) && Lossless(m)
  {
    SameItems(m.out, a.out, |a.out|);
  }

  lemma PassKeeps(l: Log, e: Event)
    requires Holding(l, e) && l.skipped == 0
    ensures Inv(l.(out := l.out + [Passed(|l.seen| - 1, e)]))
  {
    var a := l.(enabled := false);
    var m := l.(out := l.out + [Passed(|l.seen| - 1, e)]);
    PassPlaced(a, m, e);
    PassOrder(a, m, e);
    PassCounts(a, m, e);
    PassConserves(l, e);
  }

  lemma PassConserves(l: Log, e: Event)
    requires Holding(l, e)
    ensures Conserved(l.(out := l.out + [Passed(|l.seen| - 1, e)]))
    ensures RejectedRightly(l.(out := l.out + [Passed(|l.seen| - 1, e)]))
  {
    var a := l.(enabled := false);
    var n := |l.seen| - 1;
    var m := l.(out := l.out + [Passed(n, e)]);
    assert forall k | 0 <= k < |l.out| :: m.out[k] == l.out[k];
    assert m.out[|l.out|] == Passed(n, e);
    assert forall i :: OnChannel(m, i) <==> i == n || OnChannel(a, i);
    forall i: nat ensures Resolved(m, i) && RefreshRejected(m, i) {
      assert Resolved(a, i) && RefreshRejected(a, i);
    }
  }

  lemma DropCounts(a: Log, m: Log, e: Event)
    requires Balanced(a) && Lossless(a) && !a.enabled
    requires a.seen[|a.seen| - 1] == e && !RequiresDelivery(e) && m == Drop(a.(enabled := true), e)
    ensures Balanced(m) && Lossless(m)
  {
  }

  lemma DropPlaced(a: Log, m: Log)
    requires Placed(a) && InOrder(a) && m.out == a.out && m.seen == a.seen && m.lost >= a.lost && InHand(m) <= InHand(a)
    ensures Placed(m) && InOrder(m)
  {
    forall k: nat ensures CountedAt(m, k) { assert CountedAt(a, k); }
  }

  lemma DropConserves(a: Log, m: Log, e: Event)
    requires Conserved(a) && RejectedRightly(a) && !a.enabled
    requires a.seen != [] && a.seen[|a.seen| - 1] == e && !AuthRefresh(e)
    requires m == Drop(a.(enabled := true), e)
    ensures Conserved(m) && RejectedRightly(m)
  {
    var n := |a.seen| - 1;
    RejectPush(a.rejected, n);
    assert forall i :: OnChannel(m, i) <==> OnChannel(a, i);
    forall i: nat ensures Resolved(m, i) && RefreshRejected(m, i) {
      assert Resolved(a, i) && RefreshRejected(a, i);
    }
  }

  lemma DropKeeps(l: Log, e: Event)
    requires Holding(l, e) && !RequiresDelivery(e)
    ensures Inv(Drop(l, e))
  {
    var a := l.(enabled := false);
    assert a.(enabled := true) == l;
    DropCounts(a, Drop(l, e), e);
    DropPlaced(a, Drop(l, e));
    DropConserves(a, Drop(l, e), e);
  }

  lemma SendOwnKeeps(l: Log, e: Event, own: Answer)
    requires Holding(l, e) && (l.skipped == 0 || (own == Full && !RequiresDelivery(e)))
    ensures Inv(SendOwn(l, e, own))
  {
    if own == Gone {
    } else if own == Full && !RequiresDelivery(e) {
      DropKeeps(l, e);
    } else {
      PassKeeps(l, e);
    }
  }

  lemma ForwardKeeps(l: Log, e: Event, marker: Answer, own: Answer)
    requires Inv(l) && l.enabled
    ensures Inv(Forward(l, e, marker, own))
  {
    if AuthRefresh(e) {
      RefreshKeeps(l, e);
    } else {
      TakeHolds(l, e);
      var taken := l.(seen := l.seen + [e]);
      if l.skipped == 0 {
        SendOwnKeeps(taken, e, own);
      } else if marker == Full && !RequiresDelivery(e) {
        DropKeeps(taken, e);
      } else if marker != Gone {
        FlushHolds(taken, e);
        SendOwnKeeps(taken.(out := l.out + [Marker(l.skipped)], skipped := 0), e, own);
      }
    }
  }

  lemma {:induction false} RunKeeps(inputs: seq<Input>)
    ensures Inv(Run(inputs))
  {
    if inputs != [] {
      var init, i := inputs[..|inputs| - 1], inputs[|inputs| - 1];
      RunKeeps(init);
      if Run(init).enabled { ForwardKeeps(Run(init), i.event, i.marker, i.own); }
    }
  }

  // ----- what every run guarantees -----

  /** Exact loss accounting. The consumer's log is a beginning of what was put on the
      channel; each event of the source in it stood, among the events handed over, at the
      position given by the real events before it plus the losses the markers before it
      report. This holds of every run that hands over fewer events than the counter can
      hold, whatever the capacity and however the consumer keeps up. */
  lemma LossAccounting(inputs: seq<Input>, consumed: seq<Item>, k: nat)
    requires consumed <= Run(inputs).out && k < |consumed| && consumed[k].Passed?
    requires Handed(Run(inputs).seen, |Run(inputs).seen|) <= USIZE_MAX
    ensures var l, i := Run(inputs), consumed[k].index;
      && i < |l.seen| && consumed[k].event == l.seen[i]
      && Handed(l.seen, i) == Reals(consumed, k) + Marked(consumed, k)
  {
    RunKeeps(inputs);
    assert CountedAt(Run(inputs), k);
    SameItems(consumed, Run(inputs).out, k);
  }

  /** Conservation, for runs of any length: what was handed over is on the channel,
      reported, waiting to be reported, uncounted by the saturated counter, or in hand. */
  lemma LossBalance(inputs: seq<Input>)
    ensures var l := Run(inputs);
      && Handed(l.seen, |l.seen|) == Reals(l.out, |l.out|) + Marked(l.out, |l.out|) + l.skipped + l.lost + InHand(l)
      && (l.lost > 0 ==> Handed(l.seen, |l.seen|) > USIZE_MAX)
  {
    RunKeeps(inputs);
  }

  /** The lossless tier: while the consumer is there, the notifications that must arrive
      come out exactly as they went in. */
  lemma LosslessTier(inputs: seq<Input>)
    ensures var l := Run(inputs);
      l.enabled ==> MustOut(l.out, |l.out|) == MustIn(l.seen, |l.seen|)
    ensures var l := Run(inputs);
      !l.enabled ==> l.seen != [] && MustOut(l.out, |l.out|) == MustIn(l.seen, |l.seen| - 1)
  {
    RunKeeps(inputs);
  }

  /** The six kinds of notification that must arrive. */
  predicate Transcript(n: Notification) {
    match n
    case TurnCompleted(_) => true
    case ItemCompleted(_) => true
    case AgentMessageDelta(_) => true
    case PlanDelta(_) => true
    case ReasoningSummaryTextDelta(_) => true
    case ReasoningTextDelta(_) => true
    case Other(_, _) => false
  }

  /** A completion or a transcript delta, once seen, is on the channel at its own position,
      exactly unless the consumer was found gone while it was in hand. */
  lemma {:induction false} TranscriptIsSent(inputs: seq<Input>, i: nat)
    requires i < |Run(inputs).seen| && Run(inputs).seen[i].Notify? && Transcript(Run(inputs).seen[i].notification)
    ensures i < |inputs|
    ensures OnChannel(Run(inputs), i) <==> !SendFails(Run(inputs[..i]), inputs[i])
  {
    RunKeeps(inputs);
    SeenIs(inputs, i);
    if !Stranded(Run(inputs), i) { TranscriptOnChannel(inputs, i); }
  }

  lemma {:induction false} TranscriptOnChannel(inputs: seq<Input>, i: nat)
    requires i < |Run(inputs).seen| && Run(inputs).seen[i].Notify? && Transcript(Run(inputs).seen[i].notification)
    requires !Stranded(Run(inputs), i)
    ensures OnChannel(Run(inputs), i)
  {
    var init, last := inputs[..|inputs| - 1], inputs[|inputs| - 1];
    var l, m := Run(init), Run(inputs);
    if !l.enabled || i < |l.seen| {
      TranscriptOnChannel(init, i);
      if l.enabled { StaysOnChannel(l, last, i); }
    } else {
      assert m.out[|m.out| - 1] == Passed(i, last.event);
    }
  }

  lemma StaysOnChannel(l: Log, input: Input, i: nat)
    requires OnChannel(l, i)
    ensures OnChannel(Forward(l, input.event, input.marker, input.own), i)
  {
    var k :| 0 <= k < |l.out| && l.out[k].Passed? && l.out[k].index == i;
    assert Forward(l, input.event, input.marker, input.own).out[k] == l.out[k];
  }

  lemma {:induction false} MustOutGrows(items: seq<Item>, i: nat, n: nat)
    requires i <= n <= |items|
    ensures MustOut(items, i) <= MustOut(items, n)
  {
    if i < n { MustOutGrows(items, i, n - 1); }
  }

  /** On the consumer's side: what it has read of the notifications that must arrive is a
      beginning of those taken from the source, and all of them once it has read everything
      and is still there. */
  lemma {:induction false} LosslessToConsumer(inputs: seq<Input>, consumed: seq<Item>)
    requires consumed <= Run(inputs).out
    ensures var l := Run(inputs);
      && MustOut(consumed, |consumed|) <= MustIn(l.seen, |l.seen|)
      && (l.enabled && consumed == l.out ==> MustOut(consumed, |consumed|) == MustIn(l.seen, |l.seen|))
  {
    RunKeeps(inputs);
    ReadOfLossless(Run(inputs), consumed);
  }

  lemma {:induction false} ReadOfLossless(l: Log, consumed: seq<Item>)
    requires Lossless(l) && consumed <= l.out
    ensures MustOut(consumed, |consumed|) <= MustIn(l.seen, |l.seen|)
    ensures l.enabled && consumed == l.out ==> MustOut(consumed, |consumed|) == MustIn(l.seen, |l.seen|)
  {
    SameItems(consumed, l.out, |consumed|);
    MustOutGrows(l.out, |consumed|, |l.out|);
    var all := MustOut(l.out, |l.out|);
    assert all <= MustIn(l.seen, |l.seen|);
    PrefixOfPrefix(MustOut(consumed, |consumed|), all, MustIn(l.seen, |l.seen|));
  }

  lemma PrefixOfPrefix(a: seq<Event>, b: seq<Event>, c: seq<Event>)
    requires a <= b && b <= c
    ensures a <= c
  {
    assert forall i | 0 <= i < |a| :: a[i] == b[i];
  }

  /** Sending fails because the consumer is gone: the channel answers so to the lag marker
      or, unless the event is dropped for a marker that does not fit, to the event. */
  predicate SendFails(l: Log, i: Input) {
    && !AuthRefresh(i.event)
    && if l.skipped > 0 && i.marker == Gone then true
       else if l.skipped > 0 && i.marker == Full && !RequiresDelivery(i.event) then false
       else i.own == Gone
  }

  /** The events seen are those of the inputs, up to the one whose sending failed. */
  lemma {:induction false} SeenIs(inputs: seq<Input>, i: nat)
    ensures var l := Run(inputs);
      && |l.seen| <= |inputs| && (l.enabled ==> |l.seen| == |inputs|)
      && (i < |l.seen| ==> l.seen[i] == inputs[i].event && (Stranded(l, i) <==> SendFails(Run(inputs[..i]), inputs[i])))
  {
    if inputs != [] {
      var init := inputs[..|inputs| - 1];
      SeenIs(init, i);
      if i < |init| { assert inputs[..i] == init[..i]; }
    }
  }

  /** Among the items from `from` on is the event at position `i` of the source. */
  predicate Carries(items: seq<Item>, from: nat, i: nat) {
    exists k | from <= k < |items| :: items[k].Passed? && items[k].index == i
  }

  /** Every request the worker has seen, given what the consumer has read: it has been read,
      or rejected, or is lost to the consumer, and only one of these. It is lost exactly
      when its sending failed or it still lies in the channel. Refresh requests are always
      rejected and never put there. */
  lemma RequestConservation(inputs: seq<Input>, consumed: seq<Item>, i: nat)
    requires consumed <= Run(inputs).out && i < |Run(inputs).seen| && Run(inputs).seen[i].Ask?
    ensures i < |inputs|
    ensures var l := Run(inputs);
      var read, rejected := Carries(consumed, 0, i), i in l.rejected;
      && !(read && rejected)
      && (!read && !rejected <==> SendFails(Run(inputs[..i]), inputs[i]) || Carries(l.out, |consumed|, i))
      && !(SendFails(Run(inputs[..i]), inputs[i]) && Carries(l.out, |consumed|, i))
      && (AuthRefresh(l.seen[i]) ==> rejected && !Carries(l.out, 0, i))
  {
    var l := Run(inputs);
    RunKeeps(inputs);
    SeenIs(inputs, i);
    assert Resolved(l, i) && RefreshRejected(l, i);
    ReadOrQueued(l, consumed, i);
  }

  /** What is on the channel has been read or has not, and nothing is there twice. */
  lemma ReadOrQueued(l: Log, consumed: seq<Item>, i: nat)
    requires InOrder(l) && consumed <= l.out
    ensures OnChannel(l, i) == Carries(l.out, 0, i)
    ensures OnChannel(l, i) <==> Carries(consumed, 0, i) || Carries(l.out, |consumed|, i)
    ensures !(Carries(consumed, 0, i) && Carries(l.out, |consumed|, i))
  {
    assert forall k | 0 <= k < |consumed| :: consumed[k] == l.out[k];
    if OnChannel(l, i) {
      var k :| 0 <= k < |l.out| && l.out[k].Passed? && l.out[k].index == i;
      assert k < |consumed| ==> consumed[k].Passed? && consumed[k].index == i;
    }
  }

  /** A request can indeed be lost in hand: the consumer goes away just before it is sent. */
  lemma StrandedRequest(id: string, name: string)
    ensures var e := Ask(Supported(id, name));
      var l := Run([Input(e, Fits, Gone)]);
      l.seen == [e] && Stranded(l, 0) && l.rejected == [] && !OnChannel(l, 0)
  {
    var i := Input(Ask(Supported(id, name)), Fits, Gone);
    assert [i][..0] == [];
    assert Run([]) == EMPTY_LOG;
  }

  /** ... and in the channel: two requests are sent, the consumer goes away having read
      neither, and the worker finds it gone at the second. */
  lemma QueuedRequestLost(first: Event, second: Event)
    requires first.Ask? && !AuthRefresh(first) && !AuthRefresh(second)
    ensures var l := Run([Input(first, Fits, Fits), Input(second, Fits, Gone)]);
      !l.enabled && l.seen == [first, second] && l.rejected == [] && !Carries([], 0, 0) && Carries(l.out, 0, 0)
  {
    var i, j := Input(first, Fits, Fits), Input(second, Fits, Gone);
    assert [i, j][..1] == [i] && [i][..0] == [];
    assert Run([]) == EMPTY_LOG;
    assert Run([i]) == EMPTY_LOG.(seen := [first], out := [Passed(0, first)]);
    assert Run([i, j]).out[0] == Passed(0, first);
  }

  // ----- the program -----

  /** A bounded channel and its consumer, who may take items or go away at any time. */
  class Channel {
    const capacity: nat
    var queue: seq<Item>
    var consumed: seq<Item>
    var open: bool

    ghost predicate Valid()
      reads this
    { |queue| <= capacity && capacity >= 1 }

    ghost function Sent(): seq<Item>
      reads this
    { consumed + queue }

    /** A channel of the requested capacity, but at least 1. */
    constructor (requested: nat)
      ensures Valid() && Sent() == [] && open && capacity == if requested < 1 then 1 else requested
    {
      capacity := if requested < 1 then 1 else requested;
      queue, consumed, open := [], [], true;
    }

    /** What the consumer does between two steps of the worker. */
    method Interfere()
      requires Valid()
      modifies this
      ensures Valid() && Sent() == old(Sent()) && old(consumed) <= consumed && (open ==> old(open))
      ensures |queue| <= old(|queue|)
    {
      if open {
        var n: nat :| n <= |queue|;
        assert consumed + queue == (consumed + queue[..n]) + queue[n..];
        consumed, queue := consumed + queue[..n], queue[n..];
        open := *;
      }
    }

    method TrySend(x: Item) returns (a: Answer)
      requires Valid()
      modifies this
      ensures Valid() && old(consumed) <= consumed
      ensures Sent() == if a == Fits then old(Sent()) + [x] else old(Sent())
      ensures a == Full ==> |queue| == capacity == old(|queue|)
      ensures (a == Gone <==> !open) && (open ==> old(open))
      ensures |queue| <= old(|queue|) + if a == Fits then 1 else 0
    {
      Interfere();
      if !open { return Gone; }
      if |queue| == capacity { return Full; }
      assert consumed + (queue + [x]) == (consumed + queue) + [x];
      queue := queue + [x];
      return Fits;
    }

    /** Waits until the consumer has made room or has gone. */
    method Send(x: Item) returns (a: Answer)
      requires Valid()
      modifies this
      ensures Valid() && old(consumed) <= consumed
      ensures Sent() == if a == Fits then old(Sent()) + [x] else old(Sent())
      ensures a != Full && (a == Gone <==> !open) && (open ==> old(open))
      ensures |queue| <= old(|queue|) + if a == Fits then 1 else 0
    {
      Interfere();
      if !open { return Gone; }
      if |queue| == capacity {
        var leaves: bool := *;
        if leaves {
          open := false;
          return Gone;
        }
        assert consumed + queue == (consumed + [queue[0]]) + queue[1..];
        consumed, queue := consumed + [queue[0]], queue[1..];
      }
      assert consumed + (queue + [x]) == (consumed + queue) + [x];
      queue := queue + [x];
      return Fits;
    }
  }

  datatype ForwardResult = Continue | DisableStream

  /** The report of `n` losses, if there are any. */
  function Report(n: nat): seq<Item> { if n > 0 then [Marker(n)] else [] }

  /** The positions of the refresh requests among the first `n` events. */
  function Refreshes(es: seq<Event>, n: nat): seq<nat>
    requires n <= |es|
  { if n == 0 then [] else Refreshes(es, n - 1) + if AuthRefresh(es[n - 1]) then [n - 1] else [] }

  /** The other events among the first `n`, each with its position. */
  function Others(es: seq<Event>, n: nat): (r: seq<Item>)
    requires n <= |es|
    ensures |r| <= n
  { if n == 0 then [] else Others(es, n - 1) + if AuthRefresh(es[n - 1]) then [] else [Passed(n - 1, es[n - 1])] }

  class Worker {
    const channel: Channel
    var skipped: nat
    var enabled: bool
    var rejected: seq<nat>
    var taken: nat
    ghost var inputs: seq<Input>

    /** The worker's fields and its channel are what the run so far makes them. */
    ghost predicate Valid()
      reads this, channel
    {
      && channel.Valid()
      && Matches(Run(inputs)) && Run(inputs).enabled == enabled && |Run(inputs).seen| == taken
    }

    constructor (requested: nat)
      ensures Valid() && fresh(channel) && inputs == [] && enabled
      ensures channel.Sent() == [] && channel.open && channel.capacity == if requested < 1 then 1 else requested
    {
      channel := new Channel(requested);
      skipped, enabled, rejected, taken := 0, true, [], 0;
      inputs := [];
    }

    /** Counts a dropped event, and rejects it if it is a request. */
    method DropEvent(event: Event, index: nat)
      modifies this`skipped, this`rejected
      ensures skipped == Min(old(skipped) + 1, USIZE_MAX)
      ensures rejected == if event.Ask? then old(rejected) + [index] else old(rejected)
    {
      skipped := Min(skipped + 1, USIZE_MAX);
      if event.Ask? { rejected := rejected + [index]; }
    }

    /** The worker's fields and its channel agree with a log. */
    ghost predicate Matches(l: Log)
      reads this, channel
    { l.out == channel.Sent() && l.skipped == skipped && l.rejected == rejected }

    /** Sends the event itself, blocking if it must arrive. */
    method SendEvent(event: Event, index: nat, ghost l: Log) returns (r: ForwardResult, ghost own: Answer)
      requires channel.Valid() && l.enabled && |l.seen| == index + 1 && Matches(l)
      modifies this`skipped, this`rejected, channel
      ensures channel.Valid() && old(channel.consumed) <= channel.consumed
      ensures Matches(SendOwn(l, event, own)) && (r == Continue <==> SendOwn(l, event, own).enabled)
      ensures own == Full ==> old(|channel.queue|) == channel.capacity && !RequiresDelivery(event)
      ensures (own == Gone <==> !channel.open) && (channel.open ==> old(channel.open))
    {
      if RequiresDelivery(event) {
        var sent := channel.Send(Passed(index, event));
        return if sent == Gone then DisableStream else Continue, sent;
      }
      var sent := channel.TrySend(Passed(index, event));
      if sent == Full { DropEvent(event, index); }
      return if sent == Gone then DisableStream else Continue, sent;
    }

    /** Puts a marker for the losses so far, waiting for room if the event must arrive. */
    method ReportLag(event: Event) returns (sent: Answer)
      requires channel.Valid() && skipped > 0
      modifies this`skipped, channel
      ensures channel.Valid() && old(channel.consumed) <= channel.consumed
      ensures channel.Sent() == if sent == Fits then old(channel.Sent()) + Report(old(skipped)) else old(channel.Sent())
      ensures skipped == if sent == Fits then 0 else old(skipped)
      ensures sent == Full ==> old(|channel.queue|) == channel.capacity && !RequiresDelivery(event)
      ensures (sent == Gone <==> !channel.open) && (channel.open ==> old(channel.open))
      ensures |channel.queue| <= old(|channel.queue|) + if sent == Fits then 1 else 0
    {
      if RequiresDelivery(event) {
        sent := channel.Send(Marker(skipped));
      } else {
        sent := channel.TrySend(Marker(skipped));
      }
      if sent == Fits { skipped := 0; }
    }

    /** Forwards one event: reports lag first if there is any, then sends or drops the
        event. `index` is the event's position in the source, `l` the log so far. */
    method ForwardEvent(event: Event, index: nat, ghost l: Log)
      returns (r: ForwardResult, ghost marker: Answer, ghost own: Answer)
      requires channel.Valid() && !AuthRefresh(event) && l.enabled && |l.seen| == index && Matches(l)
      modifies this`skipped, this`rejected, channel
      ensures channel.Valid() && old(channel.consumed) <= channel.consumed
      ensures Matches(Forward(l, event, marker, own)) && (r == Continue <==> Forward(l, event, marker, own).enabled)
      ensures marker == Full ==> old(|channel.queue|) == channel.capacity && !RequiresDelivery(event)
      ensures own == Full ==>
        !RequiresDelivery(event) && old(|channel.queue|) + |Report(old(skipped))| >= channel.capacity
      ensures (r == DisableStream <==> !channel.open) && (marker == Gone || own == Gone ==> !channel.open)
      ensures channel.open ==> old(channel.open)
    {
      ghost var taken := l.(seen := l.seen + [event]);
      marker, own := Fits, Fits;
      if skipped > 0 {
        ghost var lag := skipped;
        var sent := ReportLag(event);
        marker := sent;
        if sent == Gone { return DisableStream, marker, own; }
        if sent == Full {
          DropEvent(event, index);
          return Continue, marker, own;
        }
        taken := taken.(out := l.out + [Marker(lag)], skipped := 0);
      }
      r, own := SendEvent(event, index, taken);
    }

    /** The event branch of the worker loop: refresh requests are rejected outright. The
        others are sent when there is room for them and for the lag to report first; the
        stream is only disabled when the consumer is gone. */
    method HandleEvent(event: Event)
      requires Valid() && enabled
      modifies this, channel
      ensures Valid() && old(channel.consumed) <= channel.consumed
      ensures Run(inputs).seen == old(Run(inputs).seen) + [event]
      ensures (channel.open ==> old(channel.open)) && (!enabled ==> !channel.open)
      ensures AuthRefresh(event) ==> unchanged(channel) && unchanged(`skipped) && rejected == old(rejected) + [old(taken)]
      ensures !AuthRefresh(event) && channel.open && old(|channel.queue| + |Report(skipped)|) < channel.capacity ==>
        && skipped == 0 && rejected == old(rejected)
        && channel.Sent() == old(channel.Sent()) + Report(old(skipped)) + [Passed(old(taken), event)]
    {
      ghost var l := Run(inputs);
      ghost var i := Input(event, Fits, Fits);
      if AuthRefresh(event) {
        rejected := rejected + [taken];
      } else {
        ghost var m, o;
        var r;
        r, m, o := ForwardEvent(event, taken, l);
        if r == DisableStream { enabled := false; }
        i := Input(event, m, o);
      }
      ForwardSees(l, i);
      RunPush(inputs, i);
      inputs := inputs + [i];
      taken := taken + 1;
    }

    /** The worker over the events its source produces: it stops reading once the consumer
        is gone, and what the consumer has received is a beginning of what was sent. As many
        events as the channel holds all go through, in order, while the consumer is there. */
    method HandleEvents(events: seq<Event>)
      requires Valid() && inputs == [] && enabled
      modifies this, channel
      ensures Valid() && channel.consumed <= Run(inputs).out
      ensures Run(inputs).seen <= events && (enabled ==> Run(inputs).seen == events)
      ensures !enabled ==> !channel.open
      ensures |events| <= channel.capacity && channel.open ==>
        && skipped == 0 && rejected == Refreshes(events, |events|) && channel.Sent() == Others(events, |events|)
    {
      var k := 0;
      while k < |events| && enabled
        invariant 0 <= k <= |events| && Valid()
        invariant Run(inputs).seen == events[..k]
        invariant !enabled ==> !channel.open
        invariant |events| <= channel.capacity && channel.open ==>
          skipped == 0 && rejected == Refreshes(events, k) && channel.Sent() == Others(events, k)
      {
        assert events[..k + 1] == events[..k] + [events[k]];
        HandleEvent(events[k]);
        k := k + 1;
      }
      assert events[..|events|] == events;
    }
  }
}
