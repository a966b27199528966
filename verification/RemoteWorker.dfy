/** The worker behind a remote app-server client: it sends requests, matches answers to
    waiting callers, and passes server messages on as events. */
module RemoteWorker {
  import opened Prelude
  import opened JsonRpc

  /** A caller waiting for the one answer its channel can carry. */
  type Waiter = nat

  /** The content of an answer: which request it answers. */
  type Payload = nat

  datatype Reply =
    | Answered(payload: Payload)
    | Refused(payload: Payload)
    | DuplicateId
    | WriteFailed
    | Sent(ok: bool)
    | WorkerClosed

  /** What the server sends. Notifications and requests may not decode as known ones. */
  datatype Message =
    | Response(id: RequestId, payload: Payload)
    | ErrorResponse(id: RequestId, payload: Payload)
    | Notification(body: Option<string>)
    | Request(id: RequestId, body: Option<string>)
    | Garbage

  datatype Frame = Text(message: Message) | Skipped | Closing | Broken | Ended

  predicate IsAnswer(f: Frame) { f.Text? && (f.message.Response? || f.message.ErrorResponse?) }

  datatype Event = Notified(body: string) | Asked(id: RequestId, body: string) | Disconnected

  /** What the client writes on the wire. */
  datatype Outgoing = Call(id: RequestId, waiter: Waiter) | Plain | Unsupported(id: RequestId)

  /** A notification to send, or an answer to a server request, is `Tell`. */
  datatype Command = Ask(id: RequestId, waiter: Waiter) | Tell(waiter: Waiter) | Shutdown(waiter: Waiter)

  /** What the worker's loop takes up next, with the outcome of the write it leads to and
      whether the consumer of events is still there. */
  datatype Input =
    | Take(command: Command, written: bool, listening: bool)
    | CommandsGone
    | Receive(frame: Frame, written: bool, listening: bool)

  /** A reply and, if it settles a pending request, the id of that. */
  datatype Answer = Answer(waiter: Waiter, reply: Reply, call: Option<RequestId>)

  datatype State = State(
    pending: map<RequestId, Waiter>, taken: seq<Waiter>, answers: seq<Answer>,
    wire: seq<Outgoing>, events: seq<Event>, running: bool)

  const START := State(map[], [], [], [], [], true)

  /** The event a frame stands for. */
  function EventOf(f: Frame): Option<Event> {
    match f
    case Text(Notification(Some(b))) => Some(Notified(b))
    case Text(Request(id, Some(b))) => Some(Asked(id, b))
    case _ => None
  }

  function Deliver(s: State, e: Event, listening: bool): State {
    if listening then s.(events := s.events + [e]) else s
  }

  function Stop(s: State): State { s.(running := false) }

  /** Answers a caller whose request, if it made one, is not pending. */
  function Tells(s: State, w: Waiter, r: Reply): State { s.(answers := s.answers + [Answer(w, r, None)]) }

  function OnCommand(s: State, c: Command, written: bool, listening: bool): State {
    var s' := s.(taken := s.taken + [c.waiter]);
    match c
    case Ask(id, w) =>
      if id in s.pending then Tells(s', w, DuplicateId)
      else if written then s'.(pending := s.pending[id := w], wire := s.wire + [Call(id, w)])
      else Stop(Deliver(Tells(s', w, WriteFailed), Disconnected, listening))
    case Tell(w) => Tells(if written then s'.(wire := s.wire + [Plain]) else s', w, Sent(written))
    case Shutdown(w) => Stop(Tells(s', w, Sent(written)))
  }

  function OnAnswer(s: State, id: RequestId, r: Reply): State {
    if id in s.pending
    then s.(answers := s.answers + [Answer(s.pending[id], r, Some(id))], pending := s.pending - {id})
    else s
  }

  function OnFrame(s: State, f: Frame, written: bool, listening: bool): State {
    match f
    case Text(Response(id, p)) => OnAnswer(s, id, Answered(p))
    case Text(ErrorResponse(id, p)) => OnAnswer(s, id, Refused(p))
    case Text(Notification(None)) => s
    case Text(Request(id, None)) =>
      if written then s.(wire := s.wire + [Unsupported(id)]) else Stop(Deliver(s, Disconnected, listening))
    case Skipped => s
    case Text(Garbage) => Stop(Deliver(s, Disconnected, listening))
    case Closing => Stop(Deliver(s, Disconnected, listening))
    case Broken => Stop(Deliver(s, Disconnected, listening))
    case Ended => Stop(Deliver(s, Disconnected, listening))
    case _ =>
      var e := EventOf(f);
      if e.None? then s else if listening then Deliver(s, e.value, true) else Stop(s)
  }

  /** One turn of the loop. */
  function Step(s: State, i: Input): State {
    if !s.running then s
    else
      match i
      case Take(c, written, listening) => OnCommand(s, c, written, listening)
      case CommandsGone => Stop(s)
      case Receive(f, written, listening) => OnFrame(s, f, written, listening)
  }

  function Run(inputs: seq<Input>, n: nat): State
    requires n <= |inputs|
  { if n == 0 then START else Step(Run(inputs, n - 1), inputs[n - 1]) }

  // ----- everyone is answered exactly once -----

  function CountTaken(ws: seq<Waiter>, w: Waiter): nat {
    if ws == [] then 0 else CountTaken(ws[..|ws| - 1], w) + if ws[|ws| - 1] == w then 1 else 0
  }

  function CountAnswers(answers: seq<Answer>, w: Waiter): nat {
    if answers == [] then 0
    else CountAnswers(answers[..|answers| - 1], w) + if answers[|answers| - 1].waiter == w then 1 else 0
  }

  function Held(pending: map<RequestId, Waiter>, w: Waiter): set<RequestId> {
    set id | id in pending && pending[id] == w
  }

  lemma CountPush(ws: seq<Waiter>, answers: seq<Answer>, x: Waiter, a: Answer, w: Waiter)
    ensures CountTaken(ws + [x], w) == CountTaken(ws, w) + if x == w then 1 else 0
    ensures CountAnswers(answers + [a], w) == CountAnswers(answers, w) + if a.waiter == w then 1 else 0
  {
    assert (ws + [x])[..|ws|] == ws && (answers + [a])[..|answers|] == answers;
  }

  lemma HeldPut(m: map<RequestId, Waiter>, id: RequestId, x: Waiter, w: Waiter)
    requires id !in m
    ensures |Held(m[id := x], w)| == |Held(m, w)| + if x == w then 1 else 0
  {
    if x == w {
      assert Held(m[id := x], w) == Held(m, w) + {id};
    } else {
      assert Held(m[id := x], w) == Held(m, w);
    }
  }

  lemma HeldDrop(m: map<RequestId, Waiter>, id: RequestId, w: Waiter)
    requires id in m
    ensures |Held(m - {id}, w)| + (if m[id] == w then 1 else 0) == |Held(m, w)|
  {
    if m[id] == w {
      assert Held(m, w) == Held(m - {id}, w) + {id};
    } else {
      assert Held(m, w) == Held(m - {id}, w);
    }
  }

  /** Answers a caller has and those the pending table still owes it. */
  function Owed(s: State, w: Waiter): nat { CountAnswers(s.answers, w) + |Held(s.pending, w)| }

  /** The pending table holds exactly the calls taken and not yet answered. */
  ghost predicate Accounted(s: State) { forall w :: Owed(s, w) == CountTaken(s.taken, w) }

  lemma OnAnswerOwes(s: State, id: RequestId, r: Reply, w: Waiter)
    ensures Owed(OnAnswer(s, id, r), w) == Owed(s, w)
  {
    if id in s.pending {
      CountPush(s.taken, s.answers, 0, Answer(s.pending[id], r, Some(id)), w);
      HeldDrop(s.pending, id, w);
    }
  }

  lemma OnAnswerAccounts(s: State, id: RequestId, r: Reply)
    requires Accounted(s)
    ensures Accounted(OnAnswer(s, id, r))
  {
    forall w ensures Owed(OnAnswer(s, id, r), w) == CountTaken(OnAnswer(s, id, r).taken, w) {
      OnAnswerOwes(s, id, r, w);
    }
  }

  /** A command is taken and answered at once. */
  lemma AnsweredOwes(s: State, s': State, a: Answer, w: Waiter)
    requires s'.taken == s.taken + [a.waiter] && s'.pending == s.pending && s'.answers == s.answers + [a]
    requires Owed(s, w) == CountTaken(s.taken, w)
    ensures Owed(s', w) == CountTaken(s'.taken, w)
  {
    CountPush(s.taken, s.answers, a.waiter, a, w);
  }

  /** ... or left waiting. */
  lemma WaitingOwes(s: State, s': State, id: RequestId, v: Waiter, w: Waiter)
    requires s'.taken == s.taken + [v] && s'.answers == s.answers && id !in s.pending && s'.pending == s.pending[id := v]
    requires Owed(s, w) == CountTaken(s.taken, w)
    ensures Owed(s', w) == CountTaken(s'.taken, w)
  {
    CountPush(s.taken, s.answers, v, Answer(v, DuplicateId, None), w);
    HeldPut(s.pending, id, v, w);
  }

  lemma {:induction false} OnCommandAccounts(s: State, c: Command, written: bool, listening: bool)
    requires Accounted(s)
    ensures Accounted(OnCommand(s, c, written, listening))
  {
    var s' := OnCommand(s, c, written, listening);
    forall w ensures Owed(s', w) == CountTaken(s'.taken, w) {
      assert Owed(s, w) == CountTaken(s.taken, w);
      if c.Ask? && c.id !in s.pending && written {
        WaitingOwes(s, s', c.id, c.waiter, w);
      } else {
        AnsweredOwes(s, s', s'.answers[|s.answers|], w);
      }
    }
  }

  lemma {:induction false} StepAccounts(s: State, i: Input)
    requires Accounted(s)
    ensures Accounted(Step(s, i))
  {
    if s.running {
      match i
      case Take(c, written, listening) => OnCommandAccounts(s, c, written, listening);
      case CommandsGone =>
      case Receive(f, written, listening) =>
        if f.Text? && f.message.Response? {
          OnAnswerAccounts(s, f.message.id, Answered(f.message.payload));
        } else if f.Text? && f.message.ErrorResponse? {
          OnAnswerAccounts(s, f.message.id, Refused(f.message.payload));
        }
    }
  }

  lemma {:induction false} AlwaysAccounted(inputs: seq<Input>, n: nat)
    requires n <= |inputs|
    ensures Accounted(Run(inputs, n))
  {
    if n > 0 {
      AlwaysAccounted(inputs, n - 1);
      StepAccounts(Run(inputs, n - 1), inputs[n - 1]);
    } else {
      assert forall w :: Held(START.pending, w) == {};
    }
  }

  // ----- the pending table, request by request -----

  /** The requests among what was written: their ids and callers. */
  function Calls(q: seq<Outgoing>): multiset<(RequestId, Waiter)> {
    if q == [] then multiset{}
    else Calls(q[..|q| - 1]) + if q[|q| - 1].Call? then multiset{(q[|q| - 1].id, q[|q| - 1].waiter)} else multiset{}
  }

  /** The requests that answers have settled. */
  function Settled(answers: seq<Answer>): multiset<(RequestId, Waiter)> {
    if answers == [] then multiset{}
    else
      var a := answers[|answers| - 1];
      Settled(answers[..|answers| - 1]) + match a.call case Some(id) => multiset{(id, a.waiter)} case None => multiset{}
  }

  function Pairs(m: map<RequestId, Waiter>): set<(RequestId, Waiter)> { set id | id in m :: (id, m[id]) }

  /** Each request written is settled or pending under its own id and for its own caller. */
  ghost predicate Exact(s: State) { Calls(s.wire) == Settled(s.answers) + multiset(Pairs(s.pending)) }

  lemma CallsPush(q: seq<Outgoing>, o: Outgoing)
    ensures Calls(q + [o]) == Calls(q) + if o.Call? then multiset{(o.id, o.waiter)} else multiset{}
  {
    assert (q + [o])[..|q|] == q;
  }

  lemma SettledPush(answers: seq<Answer>, a: Answer)
    ensures Settled(answers + [a]) ==
      Settled(answers) + match a.call case Some(id) => multiset{(id, a.waiter)} case None => multiset{}
  {
    assert (answers + [a])[..|answers|] == answers;
  }

  lemma InPairs(m: map<RequestId, Waiter>, p: (RequestId, Waiter))
    ensures p in Pairs(m) <==> p.0 in m && m[p.0] == p.1
  {
    if p.0 in m && m[p.0] == p.1 { assert p == (p.0, m[p.0]); }
  }

  lemma PairsSome(m: map<RequestId, Waiter>, id: RequestId)
    requires id in m
    ensures (id, m[id]) in multiset(Pairs(m))
  {
    InPairs(m, (id, m[id]));
  }

  lemma PairsPut(m: map<RequestId, Waiter>, id: RequestId, w: Waiter)
    requires id !in m
    ensures multiset(Pairs(m[id := w])) == multiset(Pairs(m)) + multiset{(id, w)}
  {
    forall p ensures p in Pairs(m[id := w]) <==> p in Pairs(m) || p == (id, w) {
      InPairs(m, p);
      InPairs(m[id := w], p);
    }
    InPairs(m, (id, w));
    assert Pairs(m[id := w]) == Pairs(m) + {(id, w)};
  }

  lemma PairsDrop(m: map<RequestId, Waiter>, id: RequestId)
    requires id in m
    ensures multiset(Pairs(m)) == multiset(Pairs(m - {id})) + multiset{(id, m[id])}
  {
    assert m == (m - {id})[id := m[id]];
    PairsPut(m - {id}, id, m[id]);
  }

  /** An answer moves its request from pending to settled. */
  lemma {:induction false} OnAnswerMoves(s: State, id: RequestId, r: Reply)
    ensures var s' := OnAnswer(s, id, r);
      Settled(s'.answers) + multiset(Pairs(s'.pending)) == Settled(s.answers) + multiset(Pairs(s.pending))
  {
    if id in s.pending {
      SettledPush(s.answers, Answer(s.pending[id], r, Some(id)));
      PairsDrop(s.pending, id);
    }
  }

  lemma Regroup<T>(a: multiset<T>, b: multiset<T>, c: multiset<T>)
    ensures (a + b) + c == a + (b + c)
  {
  }

  lemma TellsExact(s: State, w: Waiter, r: Reply)
    requires Exact(s)
    ensures Exact(Tells(s, w, r))
  {
    SettledPush(s.answers, Answer(w, r, None));
  }

  lemma AcceptExact(s: State, id: RequestId, w: Waiter)
    requires Exact(s) && id !in s.pending
    ensures Exact(s.(pending := s.pending[id := w], wire := s.wire + [Call(id, w)]))
  {
    CallsPush(s.wire, Call(id, w));
    PairsPut(s.pending, id, w);
    Regroup(Settled(s.answers), multiset(Pairs(s.pending)), multiset{(id, w)});
  }

  lemma WriteExact(s: State, o: Outgoing)
    requires Exact(s) && !o.Call?
    ensures Exact(s.(wire := s.wire + [o]))
  {
    CallsPush(s.wire, o);
  }

  lemma {:induction false} OnCommandExact(s: State, c: Command, written: bool, listening: bool)
    requires Exact(s)
    ensures Exact(OnCommand(s, c, written, listening))
  {
    var taken := s.(taken := s.taken + [c.waiter]);
    match c
    case Ask(id, w) =>
      if id in s.pending {
        TellsExact(taken, w, DuplicateId);
      } else if written {
        AcceptExact(taken, id, w);
      } else {
        TellsExact(taken, w, WriteFailed);
      }
    case Tell(w) =>
      WriteExact(taken, Plain);
      TellsExact(if written then taken.(wire := s.wire + [Plain]) else taken, w, Sent(written));
    case Shutdown(w) => TellsExact(taken, w, Sent(written));
  }

  /** Frames that are not answers leave the table and the answers alone. */
  lemma OtherFrame(s: State, f: Frame, written: bool, listening: bool)
    requires !IsAnswer(f)
    ensures var s' := OnFrame(s, f, written, listening);
      && s'.pending == s.pending && s'.answers == s.answers
      && (s'.wire == s.wire || (f.Text? && f.message.Request? && s'.wire == s.wire + [Unsupported(f.message.id)]))
  {
  }

  lemma {:induction false} OnFrameExact(s: State, f: Frame, written: bool, listening: bool)
    requires Exact(s)
    ensures Exact(OnFrame(s, f, written, listening))
  {
    if IsAnswer(f) {
      var payload := f.message.payload;
      OnAnswerMoves(s, f.message.id, if f.message.Response? then Answered(payload) else Refused(payload));
    } else {
      OtherFrame(s, f, written, listening);
      if f.Text? && f.message.Request? { WriteExact(s, Unsupported(f.message.id)); }
    }
  }

  lemma {:induction false} StepExact(s: State, i: Input)
    requires Exact(s)
    ensures Exact(Step(s, i))
  {
    match i
    case Take(c, written, listening) => OnCommandExact(s, c, written, listening);
    case CommandsGone =>
    case Receive(f, written, listening) => OnFrameExact(s, f, written, listening);
  }

  lemma StartExact()
    ensures Exact(START)
  {
    assert Pairs(START.pending) == {};
  }

  lemma {:induction false} AlwaysExact(inputs: seq<Input>, n: nat)
    requires n <= |inputs|
    ensures Exact(Run(inputs, n))
  {
    if n > 0 {
      AlwaysExact(inputs, n - 1);
      StepExact(Run(inputs, n - 1), inputs[n - 1]);
    } else {
      StartExact();
    }
  }

  /** In every reachable state the pending table holds exactly the requests that were
      accepted and not answered, by id and caller. */
  lemma PendingIsUnanswered(inputs: seq<Input>, n: nat, id: RequestId, w: Waiter)
    requires n <= |inputs|
    ensures var s := Run(inputs, n);
      Calls(s.wire)[(id, w)] == Settled(s.answers)[(id, w)] + if id in s.pending && s.pending[id] == w then 1 else 0
  {
    AlwaysExact(inputs, n);
    InPairs(Run(inputs, n).pending, (id, w));
  }

  /** Over every run: a request reaches the wire if and only if it can be written and every
      request accepted before under its id has been answered. Otherwise a duplicate is
      refused at once, and leaves the waiting request and the wire alone. */
  lemma {:induction false} DuplicateRefused(inputs: seq<Input>, n: nat, id: RequestId, w: Waiter, written: bool,
                                            listening: bool)
    requires n < |inputs| && inputs[n] == Take(Ask(id, w), written, listening) && Run(inputs, n).running
    ensures var s, s' := Run(inputs, n), Run(inputs, n + 1);
      var free := forall v :: Calls(s.wire)[(id, v)] == Settled(s.answers)[(id, v)];
      && (s'.wire == s.wire + [Call(id, w)] <==> written && free)
      && (!free ==> s' == Tells(s.(taken := s.taken + [w]), w, DuplicateId))
  {
    var s := Run(inputs, n);
    forall v
      ensures Calls(s.wire)[(id, v)] ==
        Settled(s.answers)[(id, v)] + if id in s.pending && s.pending[id] == v then 1 else 0
    {
      PendingIsUnanswered(inputs, n, id, v);
    }
    if id in s.pending { assert Calls(s.wire)[(id, s.pending[id])] != Settled(s.answers)[(id, s.pending[id])]; }
  }

  // ----- each turn, by what it shows -----

  /** The connection is found lost: a request or a refusal cannot be written, or the frame
      is not one the worker can go on after. */
  predicate Breaks(s: State, i: Input) {
    match i
    case Take(Ask(id, _), written, _) => !written && id !in s.pending
    case Receive(Text(Request(_, None)), written, _) => !written
    case Receive(Text(Garbage), _, _) => true
    case Receive(Closing, _, _) => true
    case Receive(Broken, _, _) => true
    case Receive(Ended, _, _) => true
    case _ => false
  }

  /** The loop ends: by command, by losing the connection, or by losing the consumer of an
      event. */
  predicate Ends(s: State, i: Input) {
    match i
    case CommandsGone => true
    case Take(Shutdown(_), _, _) => true
    case Receive(Text(Notification(Some(_))), _, listening) => !listening
    case Receive(Text(Request(_, Some(_))), _, listening) => !listening
    case _ => Breaks(s, i)
  }

  /** What callers hear. */
  function Heard(s: State, i: Input): seq<Answer> {
    match i
    case Take(Ask(id, w), written, _) =>
      if id in s.pending then [Answer(w, DuplicateId, None)]
      else if written then [] else [Answer(w, WriteFailed, None)]
    case Take(Tell(w), written, _) => [Answer(w, Sent(written), None)]
    case Take(Shutdown(w), written, _) => [Answer(w, Sent(written), None)]
    case Receive(Text(Response(id, p)), _, _) =>
      if id in s.pending then [Answer(s.pending[id], Answered(p), Some(id))] else []
    case Receive(Text(ErrorResponse(id, p)), _, _) =>
      if id in s.pending then [Answer(s.pending[id], Refused(p), Some(id))] else []
    case _ => []
  }

  /** What the server gets to read. */
  function Writes(s: State, i: Input): seq<Outgoing> {
    match i
    case Take(Ask(id, w), true, _) => if id in s.pending then [] else [Call(id, w)]
    case Take(Tell(_), true, _) => [Plain]
    case Receive(Text(Request(id, None)), true, _) => [Unsupported(id)]
    case _ => []
  }

  /** What the consumer of events gets to see, if it is there. */
  function Shows(s: State, i: Input): seq<Event> {
    match i
    case Receive(Text(Notification(Some(b))), _, true) => [Notified(b)]
    case Receive(Text(Request(id, Some(b))), _, true) => [Asked(id, b)]
    case _ => if Breaks(s, i) && i.listening then [Disconnected] else []
  }

  /** What a turn adds to what callers, the server and the consumer see, and whether it is
      the last. */
  ghost predicate Adds(s: State, i: Input, s': State) {
    && s'.answers == s.answers + Heard(s, i)
    && s'.wire == s.wire + Writes(s, i)
    && s'.events == s.events + Shows(s, i)
    && (s'.running <==> !Ends(s, i))
  }

  lemma CommandAdds(s: State, c: Command, written: bool, listening: bool)
    requires s.running
    ensures Adds(s, Take(c, written, listening), OnCommand(s, c, written, listening))
  {
  }

  lemma FrameAdds(s: State, f: Frame, written: bool, listening: bool)
    requires s.running
    ensures Adds(s, Receive(f, written, listening), OnFrame(s, f, written, listening))
  {
  }

  lemma {:induction false} TurnShows(inputs: seq<Input>, n: nat)
    requires n < |inputs| && Run(inputs, n).running
    ensures Adds(Run(inputs, n), inputs[n], Run(inputs, n + 1))
  {
    var s := Run(inputs, n);
    match inputs[n]
    case Take(c, written, listening) => CommandAdds(s, c, written, listening);
    case CommandsGone =>
    case Receive(f, written, listening) => FrameAdds(s, f, written, listening);
  }

  ghost predicate EndsAt(inputs: seq<Input>, k: nat) { k < |inputs| && Ends(Run(inputs, k), inputs[k]) }

  lemma {:induction false} RunsOn(inputs: seq<Input>, n: nat)
    requires n < |inputs|
    ensures Run(inputs, n + 1).running <==> Run(inputs, n).running && !EndsAt(inputs, n)
  {
    if Run(inputs, n).running { TurnShows(inputs, n); }
  }

  /** The worker runs exactly until a turn ends it. */
  lemma {:induction false} RunsUntilEnded(inputs: seq<Input>, n: nat)
    requires n <= |inputs|
    ensures Run(inputs, n).running <==> forall k: nat | k < n :: !EndsAt(inputs, k)
  {
    if n > 0 {
      RunsUntilEnded(inputs, n - 1);
      RunsOn(inputs, n - 1);
    }
  }

  /** After the loop ends each pending call is told once that the worker is gone, and
      nothing else happens. */
  ghost predicate Drained(s: State, s': State) {
    && s.answers <= s'.answers && s' == s.(pending := map[], answers := s'.answers)
    && (forall i | |s.answers| <= i < |s'.answers| :: s'.answers[i].reply == WorkerClosed)
    && (forall w :: CountAnswers(s'.answers, w) == Owed(s, w))
    && Settled(s'.answers) == Settled(s.answers) + multiset(Pairs(s.pending))
  }

  /** Whatever the inputs and however the loop ends, every command taken has been answered
      exactly once, and every request written was settled once, under its own id. */
  lemma {:induction false} AnsweredExactlyOnce(inputs: seq<Input>, n: nat, last: State, w: Waiter)
    requires n <= |inputs| && Drained(Run(inputs, n), last)
    ensures CountAnswers(last.answers, w) == CountTaken(Run(inputs, n).taken, w)
    ensures Settled(last.answers) == Calls(last.wire)
  {
    AlwaysAccounted(inputs, n);
    AlwaysExact(inputs, n);
    assert Owed(Run(inputs, n), w) == CountTaken(Run(inputs, n).taken, w);
  }

  // ----- the program -----

  class Worker {
    var pending: map<RequestId, Waiter>
    var taken: seq<Waiter>
    var answers: seq<Answer>
    var wire: seq<Outgoing>
    var events: seq<Event>
    var running: bool

    ghost function Value(): State
      reads this
    { State(pending, taken, answers, wire, events, running) }

    constructor ()
      ensures Value() == START
    {
      pending, taken, answers, wire, events, running := map[], [], [], [], [], true;
    }

    method Send(w: Waiter, r: Reply)
      modifies this`answers
      ensures Value() == Tells(old(Value()), w, r)
    {
      answers := answers + [Answer(w, r, None)];
    }

    /** `deliver_event`: fails when the consumer is gone. */
    method DeliverEvent(e: Event, listening: bool) returns (ok: bool)
      modifies this`events
      ensures ok == listening && Value() == Deliver(old(Value()), e, listening)
    {
      if !listening { return false; }
      events := events + [e];
      return true;
    }

    method HandleCommand(c: Command, written: bool, listening: bool)
      modifies this
      ensures Value() == OnCommand(old(Value()), c, written, listening)
    {
      taken := taken + [c.waiter];
      match c
      case Ask(id, w) =>
        if id in pending {
          Send(w, DuplicateId);
          return;
        }
        ghost var before := pending;
        pending := pending[id := w];
        if written {
          wire := wire + [Call(id, w)];
        } else {
          var waiter := pending[id];
          pending := pending - {id};
          assert pending == before;
          Send(waiter, WriteFailed);
          var _ := DeliverEvent(Disconnected, listening);
          running := false;
        }
      case Tell(w) =>
        if written { wire := wire + [Plain]; }
        Send(w, Sent(written));
      case Shutdown(w) =>
        Send(w, Sent(written));
        running := false;
    }

    method Complete(id: RequestId, r: Reply)
      modifies this`pending, this`answers
      ensures Value() == OnAnswer(old(Value()), id, r)
    {
      if id in pending {
        var w := pending[id];
        pending := pending - {id};
        answers := answers + [Answer(w, r, Some(id))];
      }
    }

    method HandleFrame(f: Frame, written: bool, listening: bool)
      modifies this
      ensures Value() == OnFrame(old(Value()), f, written, listening)
    {
      match f
      case Text(Response(id, p)) => Complete(id, Answered(p));
      case Text(ErrorResponse(id, p)) => Complete(id, Refused(p));
      case Text(Notification(None)) =>
      case Text(Notification(Some(b))) =>
        var ok := DeliverEvent(Notified(b), listening);
        if !ok { running := false; }
      case Text(Request(id, Some(b))) =>
        var ok := DeliverEvent(Asked(id, b), listening);
        if !ok { running := false; }
      case Text(Request(id, None)) =>
        if written {
          wire := wire + [Unsupported(id)];
        } else {
          var _ := DeliverEvent(Disconnected, listening);
          running := false;
        }
      case Skipped =>
      case _ =>
        var _ := DeliverEvent(Disconnected, listening);
        running := false;
    }

    /** One turn of the loop. */
    method Turn(i: Input)
      requires running
      modifies this
      ensures Value() == Step(old(Value()), i)
    {
      match i {
        case Take(c, written, listening) => HandleCommand(c, written, listening);
        case CommandsGone => running := false;
        case Receive(f, written, listening) => HandleFrame(f, written, listening);
      }
    }

    /** The loop, until it ends or the inputs do, and the draining that follows it. */
    method Loop(inputs: seq<Input>) returns (n: nat)
      requires Value() == START
      modifies this
      ensures n <= |inputs| && Drained(Run(inputs, n), Value())
      ensures n < |inputs| ==> !Run(inputs, n).running
    {
      n := 0;
      while n < |inputs| && running
        invariant n <= |inputs| && Value() == Run(inputs, n)
      {
        Turn(inputs[n]);
        n := n + 1;
      }
      Drain(Run(inputs, n));
    }

    method Drain(ghost s: State)
      requires Value() == s
      modifies this`pending, this`answers
      ensures Drained(s, Value())
    {
      while pending != map[]
        invariant Value() == s.(pending := pending, answers := answers) && s.answers <= answers
        invariant forall i | |s.answers| <= i < |answers| :: answers[i].reply == WorkerClosed
        invariant forall w :: Owed(Value(), w) == Owed(s, w)
        invariant Settled(answers) + multiset(Pairs(pending)) == Settled(s.answers) + multiset(Pairs(s.pending))
        decreases |pending|
      {
        var id :| id in pending;
        ghost var before := Value();
        Complete(id, WorkerClosed);
        OnAnswerMoves(before, id, WorkerClosed);
        forall w ensures Owed(Value(), w) == Owed(s, w) {
          OnAnswerOwes(before, id, WorkerClosed, w);
          assert Owed(before, w) == Owed(s, w);
        }
        assert pending.Keys == before.pending.Keys - {id};
        assert |pending| == |pending.Keys| && |before.pending| == |before.pending.Keys|;
      }
      assert Pairs(pending) == {};
      forall w ensures CountAnswers(answers, w) == Owed(s, w) {
        assert Owed(Value(), w) == Owed(s, w);
        assert Held(pending, w) == {};
      }
    }
  }
}
