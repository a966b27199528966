/** The worker and a server that answers every request it reads once, with the two wires
    between them: every caller gets the answer to its own request. */
module RemoteProtocol {
  import opened Prelude
  import opened JsonRpc
  import opened RemoteWorker

  /** `toServer` and `toClient` are the wires, `reading` the requests the server has read
      and not answered. A request is its id and the caller that waits for it. */
  datatype System = System(worker: State, toServer: seq<Outgoing>, reading: seq<Outgoing>, toClient: seq<Frame>)

  /** The server may send anything else at any time. */
  datatype Move =
    | Submit(command: Command, written: bool, listening: bool)
    | CommandsEnd
    | ServerReads
    | ServerAnswers(index: nat, ok: bool)
    | ServerSends(frame: Frame)
    | ClientReceives(written: bool, listening: bool)

  predicate Enabled(y: System, m: Move) {
    match m
    case Submit(_, _, _) => y.worker.running
    case CommandsEnd => y.worker.running
    case ServerReads => y.toServer != []
    case ServerAnswers(i, _) => i < |y.reading| && y.reading[i].Call?
    case ServerSends(f) => !IsAnswer(f)
    case ClientReceives(_, _) => y.toClient != [] && y.worker.running
  }

  /** What the worker has just written goes on the wire. */
  function Written(before: State, after: State): seq<Outgoing> {
    if |before.wire| <= |after.wire| then after.wire[|before.wire|..] else []
  }

  function Work(y: System, i: Input): System {
    var w := Step(y.worker, i);
    y.(worker := w, toServer := y.toServer + Written(y.worker, w))
  }

  function Without(q: seq<Outgoing>, i: nat): seq<Outgoing>
    requires i < |q|
  { q[..i] + q[i + 1..] }

  function Next(y: System, m: Move): System
    requires Enabled(y, m)
  {
    match m
    case Submit(c, written, listening) => Work(y, Take(c, written, listening))
    case CommandsEnd => Work(y, CommandsGone)
    case ServerReads => y.(toServer := y.toServer[1..], reading := y.reading + [y.toServer[0]])
    case ServerAnswers(i, ok) =>
      var call := y.reading[i];
      var answer := if ok then Response(call.id, call.waiter) else ErrorResponse(call.id, call.waiter);
      y.(reading := Without(y.reading, i), toClient := y.toClient + [Text(answer)])
    case ServerSends(f) => y.(toClient := y.toClient + [f])
    case ClientReceives(written, listening) =>
      Work(y.(toClient := y.toClient[1..]), Receive(y.toClient[0], written, listening))
  }

  /** After the handshake: nothing asked, nothing answered; the server may have spoken. */
  ghost predicate Initial(y: System) {
    && y.worker == START && y.toServer == [] && y.reading == []
    && forall i | 0 <= i < |y.toClient| :: !IsAnswer(y.toClient[i])
  }

  ghost predicate Behavior(states: seq<System>, moves: seq<Move>) {
    && |states| == |moves| + 1 && Initial(states[0])
    && forall i | 0 <= i < |moves| :: Enabled(states[i], moves[i]) && states[i + 1] == Next(states[i], moves[i])
  }

  // ----- requests in flight -----

  function Answers(q: seq<Frame>): multiset<(RequestId, Waiter)> {
    if q == [] then multiset{} else AnswerIn(q[0]) + Answers(q[1..])
  }

  function AnswerIn(f: Frame): multiset<(RequestId, Waiter)> {
    if IsAnswer(f) then multiset{(f.message.id, f.message.payload)} else multiset{}
  }

  /** Each request between its acceptance and its answer is on the way there, with the
      server, or on the way back. */
  function InFlight(y: System): multiset<(RequestId, Waiter)> {
    Calls(y.toServer) + Calls(y.reading) + Answers(y.toClient)
  }

  /** Answers in the log belong to the callers they were given to. */
  ghost predicate RightAnswers(answers: seq<Answer>) {
    forall i | 0 <= i < |answers| ::
      && (answers[i].reply.Answered? ==> answers[i].reply.payload == answers[i].waiter)
      && (answers[i].reply.Refused? ==> answers[i].reply.payload == answers[i].waiter)
  }

  /** While the worker runs, the requests in flight are its pending table, one for one. */
  ghost predicate Inv(y: System) {
    && RightAnswers(y.worker.answers)
    && (y.worker.running ==> InFlight(y) == multiset(Pairs(y.worker.pending)))
  }

  lemma {:induction false} AnswersPush(q: seq<Frame>, f: Frame)
    ensures Answers(q + [f]) == Answers(q) + AnswerIn(f)
  {
    if q == [] {
      assert q + [f] == [f];
      assert Answers([f]) == AnswerIn(f) + Answers([]);
    } else {
      assert (q + [f])[1..] == q[1..] + [f] && (q + [f])[0] == q[0];
      AnswersPush(q[1..], f);
      Regroup(AnswerIn(q[0]), Answers(q[1..]), AnswerIn(f));
    }
  }

  lemma {:induction false} CallsConcat(a: seq<Outgoing>, b: seq<Outgoing>)
    ensures Calls(a + b) == Calls(a) + Calls(b)
    decreases b
  {
    if b == [] {
      assert a + b == a;
    } else {
      var c, o := b[..|b| - 1], b[|b| - 1];
      CallsConcat(a, c);
      assert a + b == (a + c) + [o];
      CallsPush(a + c, o);
    }
  }

  lemma CallsOne(o: Outgoing)
    ensures Calls([o]) == if o.Call? then multiset{(o.id, o.waiter)} else multiset{}
  {
    assert [o][..0] == [];
  }

  lemma CallsWithout(q: seq<Outgoing>, i: nat)
    requires i < |q| && q[i].Call?
    ensures Calls(q) == Calls(Without(q, i)) + multiset{(q[i].id, q[i].waiter)}
  {
    assert q == q[..i] + ([q[i]] + q[i + 1..]);
    CallsConcat(q[..i], [q[i]] + q[i + 1..]);
    CallsConcat([q[i]], q[i + 1..]);
    CallsConcat(q[..i], q[i + 1..]);
    CallsOne(q[i]);
  }

  /** A message in flight is in the table, under its id and for its caller. */
  lemma InFlightPending(y: System, id: RequestId, w: Waiter)
    requires Inv(y) && y.worker.running && (id, w) in InFlight(y)
    ensures id in y.worker.pending && y.worker.pending[id] == w
  {
    InPairs(y.worker.pending, (id, w));
  }

  lemma RightAnswersPush(answers: seq<Answer>, a: Answer)
    requires RightAnswers(answers)
    requires (a.reply.Answered? ==> a.reply.payload == a.waiter) && (a.reply.Refused? ==> a.reply.payload == a.waiter)
    ensures RightAnswers(answers + [a])
  {
  }

  lemma WrittenIs(before: State, after: State, q: seq<Outgoing>)
    requires after.wire == before.wire + q
    ensures Written(before, after) == q
  {
  }

  lemma SubmitKeeps(y: System, c: Command, written: bool, listening: bool)
    requires Inv(y) && y.worker.running
    ensures Inv(Work(y, Take(c, written, listening)))
  {
    var i := Take(c, written, listening);
    var s, s' := y.worker, Step(y.worker, i);
    var y' := Work(y, i);
    match c
    case Ask(id, w) =>
      if id in s.pending {
        WrittenIs(s, s', []);
        assert y'.toServer == y.toServer;
        RightAnswersPush(s.answers, Answer(w, DuplicateId, None));
      } else if written {
        WrittenIs(s, s', [Call(id, w)]);
        CallsPush(y.toServer, Call(id, w));
        PairsPut(s.pending, id, w);
      } else {
        RightAnswersPush(s.answers, Answer(w, WriteFailed, None));
      }
    case Tell(w) =>
      RightAnswersPush(s.answers, Answer(w, Sent(written), None));
      if written {
        WrittenIs(s, s', [Plain]);
        CallsPush(y.toServer, Plain);
      } else {
        WrittenIs(s, s', []);
        assert y'.toServer == y.toServer;
      }
    case Shutdown(w) => RightAnswersPush(s.answers, Answer(w, Sent(written), None));
  }

  /** An answer that arrives finds its own caller waiting. */
  lemma ReceiveAnswerKeeps(y: System, written: bool, listening: bool)
    requires Inv(y) && y.worker.running && y.toClient != [] && IsAnswer(y.toClient[0])
    ensures Inv(Next(y, ClientReceives(written, listening)))
  {
    var f := y.toClient[0];
    var id, w := f.message.id, f.message.payload;
    var s := y.worker;
    assert (id, w) in InFlight(y);
    InFlightPending(y, id, w);
    PairsDrop(s.pending, id);
    var r := if f.message.Response? then Answered(w) else Refused(w);
    RightAnswersPush(s.answers, Answer(w, r, Some(id)));
    var y' := Next(y, ClientReceives(written, listening));
    assert y'.worker == OnAnswer(s, id, r);
    WrittenIs(s, y'.worker, []);
    assert y'.toServer == y.toServer;
    CancelOne(InFlight(y'), multiset(Pairs(y'.worker.pending)), (id, w));
  }

  lemma CancelOne<T>(a: multiset<T>, b: multiset<T>, x: T)
    requires a + multiset{x} == b + multiset{x}
    ensures a == b
  {
    assert a == (a + multiset{x}) - multiset{x} && b == (b + multiset{x}) - multiset{x};
  }

  lemma ReceiveOtherKeeps(y: System, written: bool, listening: bool)
    requires Inv(y) && y.worker.running && y.toClient != [] && !IsAnswer(y.toClient[0])
    ensures Inv(Next(y, ClientReceives(written, listening)))
  {
    var f := y.toClient[0];
    var s := y.worker;
    OtherFrame(s, f, written, listening);
    var y' := Next(y, ClientReceives(written, listening));
    assert y'.worker == OnFrame(s, f, written, listening);
    if y'.worker.wire == s.wire {
      assert s.wire + [] == s.wire;
      WrittenIs(s, y'.worker, []);
      assert y'.toServer == y.toServer;
    } else {
      WrittenIs(s, y'.worker, [Unsupported(f.message.id)]);
      CallsPush(y.toServer, Unsupported(f.message.id));
    }
  }

  /** Moving something from one place to another leaves the total. */
  lemma Moved<T>(a: multiset<T>, b: multiset<T>, c: multiset<T>, x: multiset<T>)
    ensures (x + a) + b + c == a + (b + x) + c
    ensures a + (b + x) + c == a + b + (c + x)
  {
  }

  lemma ServerReadsKeeps(y: System)
    requires Inv(y) && y.toServer != []
    ensures Inv(Next(y, ServerReads))
  {
    var o := y.toServer[0];
    assert y.toServer == [o] + y.toServer[1..];
    CallsConcat([o], y.toServer[1..]);
    CallsOne(o);
    CallsPush(y.reading, o);
    Moved(Calls(y.toServer[1..]), Calls(y.reading), Answers(y.toClient), Calls([o]));
  }

  lemma ServerAnswersKeeps(y: System, i: nat, ok: bool)
    requires Inv(y) && i < |y.reading| && y.reading[i].Call?
    ensures Inv(Next(y, ServerAnswers(i, ok)))
  {
    var call := y.reading[i];
    var f := Text(if ok then Response(call.id, call.waiter) else ErrorResponse(call.id, call.waiter));
    var y' := Next(y, ServerAnswers(i, ok));
    AnsweredInFlight(y, y', i, f);
  }

  lemma AnsweredInFlight(y: System, y': System, i: nat, f: Frame)
    requires i < |y.reading| && y.reading[i].Call? && AnswerIn(f) == multiset{(y.reading[i].id, y.reading[i].waiter)}
    requires y'.toServer == y.toServer && y'.reading == Without(y.reading, i) && y'.toClient == y.toClient + [f]
    ensures InFlight(y') == InFlight(y)
  {
    CallsWithout(y.reading, i);
    AnswersPush(y.toClient, f);
    Moved(Calls(y.toServer), Calls(y'.reading), Answers(y.toClient), AnswerIn(f));
  }

  lemma {:induction false} NextKeeps(y: System, m: Move)
    requires Inv(y) && Enabled(y, m)
    ensures Inv(Next(y, m))
  {
    match m
    case Submit(c, written, listening) => SubmitKeeps(y, c, written, listening);
    case CommandsEnd =>
    case ServerReads => ServerReadsKeeps(y);
    case ServerAnswers(i, ok) => ServerAnswersKeeps(y, i, ok);
    case ServerSends(f) => AnswersPush(y.toClient, f);
    case ClientReceives(written, listening) =>
      if IsAnswer(y.toClient[0]) {
        ReceiveAnswerKeeps(y, written, listening);
      } else {
        ReceiveOtherKeeps(y, written, listening);
      }
  }

  lemma {:induction false} NoAnswers(q: seq<Frame>)
    requires forall i | 0 <= i < |q| :: !IsAnswer(q[i])
    ensures Answers(q) == multiset{}
  {
    if q != [] { NoAnswers(q[1..]); }
  }

  lemma {:induction false} BehaviorInvariant(states: seq<System>, moves: seq<Move>, i: nat)
    requires Behavior(states, moves) && i < |states|
    ensures Inv(states[i])
  {
    if i == 0 {
      NoAnswers(states[0].toClient);
    } else {
      BehaviorInvariant(states, moves, i - 1);
      NextKeeps(states[i - 1], moves[i - 1]);
    }
  }

  /** Correlation: in every behaviour, with ids reused after completion and answers in any
      order, whoever receives an answer receives the answer to its own request. */
  lemma AnswersReachTheirCallers(states: seq<System>, moves: seq<Move>, i: nat, j: nat)
    requires Behavior(states, moves) && i < |states| && j < |states[i].worker.answers|
    requires states[i].worker.answers[j].reply.Answered? || states[i].worker.answers[j].reply.Refused?
    ensures states[i].worker.answers[j].reply.payload == states[i].worker.answers[j].waiter
  {
    BehaviorInvariant(states, moves, i);
  }

  lemma DistinctPairs(m: map<RequestId, Waiter>, id: RequestId, w: Waiter)
    ensures multiset(Pairs(m))[(id, w)] == if id in m && m[id] == w then 1 else 0
  {
    InPairs(m, (id, w));
  }

  /** Across client, wires and server, at most one request with a given id is in flight, and
      it is the one the pending table has under that id. */
  lemma OneInFlightPerId(states: seq<System>, moves: seq<Move>, i: nat, id: RequestId, w: Waiter)
    requires Behavior(states, moves) && i < |states| && states[i].worker.running
    ensures InFlight(states[i])[(id, w)] ==
      if id in states[i].worker.pending && states[i].worker.pending[id] == w then 1 else 0
  {
    BehaviorInvariant(states, moves, i);
    DistinctPairs(states[i].worker.pending, id, w);
  }

  /** Settling a request, while the worker runs, is giving it an answer of the server. */
  ghost predicate ServerAnswered(answers: seq<Answer>) {
    forall i | 0 <= i < |answers| && answers[i].call.Some? :: answers[i].reply.Answered? || answers[i].reply.Refused?
  }

  ghost predicate Settles(y: System) { Exact(y.worker) && ServerAnswered(y.worker.answers) }

  lemma {:induction false} StepAnswers(s: State, i: Input)
    requires ServerAnswered(s.answers)
    ensures ServerAnswered(Step(s, i).answers)
  {
  }

  lemma {:induction false} WorkSettles(y: System, i: Input)
    requires Settles(y)
    ensures Settles(Work(y, i))
  {
    StepExact(y.worker, i);
    StepAnswers(y.worker, i);
  }

  lemma {:induction false} NextSettles(y: System, m: Move)
    requires Settles(y) && Enabled(y, m)
    ensures Settles(Next(y, m))
  {
    match m
    case Submit(c, written, listening) => WorkSettles(y, Take(c, written, listening));
    case CommandsEnd => WorkSettles(y, CommandsGone);
    case ClientReceives(written, listening) =>
      WorkSettles(y.(toClient := y.toClient[1..]), Receive(y.toClient[0], written, listening));
    case _ =>
  }

  lemma {:induction false} BehaviorSettles(states: seq<System>, moves: seq<Move>, i: nat)
    requires Behavior(states, moves) && i < |states|
    ensures Settles(states[i])
  {
    if i == 0 {
      StartExact();
    } else {
      BehaviorSettles(states, moves, i - 1);
      NextSettles(states[i - 1], moves[i - 1]);
    }
  }

  // ----- what the server decided -----

  /** A request and whether the server granted it. */
  type Decision = (RequestId, Waiter, bool)

  /** What the server has decided in the first `n` moves. */
  ghost function Decided(states: seq<System>, moves: seq<Move>, n: nat): multiset<Decision>
    requires Behavior(states, moves) && n <= |moves|
  {
    if n == 0 then multiset{}
    else Decided(states, moves, n - 1) + DecisionOf(states[n - 1], moves[n - 1])
  }

  ghost function DecisionOf(y: System, m: Move): multiset<Decision>
    requires Enabled(y, m)
  {
    match m
    case ServerAnswers(i, ok) => multiset{(y.reading[i].id, y.reading[i].waiter, ok)}
    case _ => multiset{}
  }

  /** The decisions on their way to the client. */
  ghost function OnTheWay(q: seq<Frame>): multiset<Decision> {
    if q == [] then multiset{} else DecisionIn(q[0]) + OnTheWay(q[1..])
  }

  ghost function DecisionIn(f: Frame): multiset<Decision> {
    match f
    case Text(Response(id, w)) => multiset{(id, w, true)}
    case Text(ErrorResponse(id, w)) => multiset{(id, w, false)}
    case _ => multiset{}
  }

  /** The decisions callers have been told: a grant by `Answered`, a refusal by `Refused`. */
  ghost function ToldOf(answers: seq<Answer>): multiset<Decision> {
    if answers == [] then multiset{} else ToldOf(answers[..|answers| - 1]) + ToldIn(answers[|answers| - 1])
  }

  ghost function ToldIn(a: Answer): multiset<Decision> {
    match a
    case Answer(w, Answered(_), Some(id)) => multiset{(id, w, true)}
    case Answer(w, Refused(_), Some(id)) => multiset{(id, w, false)}
    case _ => multiset{}
  }

  lemma ToldPush(answers: seq<Answer>, a: Answer)
    ensures ToldOf(answers + [a]) == ToldOf(answers) + ToldIn(a)
  {
    assert (answers + [a])[..|answers|] == answers;
  }

  lemma {:induction false} OnTheWayPush(q: seq<Frame>, f: Frame)
    ensures OnTheWay(q + [f]) == OnTheWay(q) + DecisionIn(f)
  {
    if q == [] {
      assert q + [f] == [f];
      assert OnTheWay([f]) == DecisionIn(f) + OnTheWay([]);
    } else {
      assert (q + [f])[1..] == q[1..] + [f] && (q + [f])[0] == q[0];
      OnTheWayPush(q[1..], f);
      Regroup(DecisionIn(q[0]), OnTheWay(q[1..]), DecisionIn(f));
    }
  }

  lemma {:induction false} NothingOnTheWay(q: seq<Frame>)
    requires forall i | 0 <= i < |q| :: !IsAnswer(q[i])
    ensures OnTheWay(q) == multiset{}
  {
    if q != [] { NothingOnTheWay(q[1..]); }
  }

  lemma TellsTells(s: State, w: Waiter, r: Reply)
    ensures ToldOf(Tells(s, w, r).answers) == ToldOf(s.answers)
  {
    ToldPush(s.answers, Answer(w, r, None));
  }

  /** A command tells nobody of a decision. */
  lemma {:induction false} SubmitTells(s: State, c: Command, written: bool, listening: bool)
    ensures ToldOf(OnCommand(s, c, written, listening).answers) == ToldOf(s.answers)
  {
    match c
    case Ask(id, w) =>
      TellsTells(s, w, DuplicateId);
      TellsTells(s, w, WriteFailed);
    case Tell(w) => TellsTells(s, w, Sent(written));
    case Shutdown(w) => TellsTells(s, w, Sent(written));
  }

  lemma AnswerTells(s: State, id: RequestId, w: Waiter, r: Reply)
    requires id in s.pending && s.pending[id] == w
    ensures ToldOf(OnAnswer(s, id, r).answers) == ToldOf(s.answers) + ToldIn(Answer(w, r, Some(id)))
  {
    ToldPush(s.answers, Answer(w, r, Some(id)));
  }

  /** A decision that arrives is told to the caller it is about. */
  lemma {:induction false} FrameTells(s: State, f: Frame, written: bool, listening: bool)
    requires IsAnswer(f) ==> f.message.id in s.pending && s.pending[f.message.id] == f.message.payload
    ensures ToldOf(OnFrame(s, f, written, listening).answers) == ToldOf(s.answers) + DecisionIn(f)
  {
    if !IsAnswer(f) {
      OtherFrame(s, f, written, listening);
      assert DecisionIn(f) == multiset{};
    } else if f.message.Response? {
      AnswerTells(s, f.message.id, f.message.payload, Answered(f.message.payload));
    } else {
      AnswerTells(s, f.message.id, f.message.payload, Refused(f.message.payload));
    }
  }

  /** The caller of an arriving answer is waiting for it. */
  lemma {:induction false} HeadIsPending(y: System)
    requires Inv(y) && y.worker.running && y.toClient != [] && IsAnswer(y.toClient[0])
    ensures var m := y.toClient[0].message;
      m.id in y.worker.pending && y.worker.pending[m.id] == m.payload
  {
    var m := y.toClient[0].message;
    assert (m.id, m.payload) in AnswerIn(y.toClient[0]);
    InFlightPending(y, m.id, m.payload);
  }

  lemma {:induction false} ReceiveTells(y: System, written: bool, listening: bool)
    requires Inv(y) && Enabled(y, ClientReceives(written, listening))
    ensures ToldOf(OnFrame(y.worker, y.toClient[0], written, listening).answers) ==
      ToldOf(y.worker.answers) + DecisionIn(y.toClient[0])
  {
    if IsAnswer(y.toClient[0]) { HeadIsPending(y); }
    FrameTells(y.worker, y.toClient[0], written, listening);
  }

  /** Callers told and decisions on their way, after a move. */
  ghost function Known(y: System): multiset<Decision> { ToldOf(y.worker.answers) + OnTheWay(y.toClient) }

  lemma {:induction false} ReceiveKnown(y: System, y': System, written: bool, listening: bool)
    requires Inv(y) && Enabled(y, ClientReceives(written, listening)) && y'.toClient == y.toClient[1..]
    requires y'.worker == OnFrame(y.worker, y.toClient[0], written, listening)
    ensures Known(y') == Known(y)
  {
    ReceiveTells(y, written, listening);
    Regroup(ToldOf(y.worker.answers), DecisionIn(y.toClient[0]), OnTheWay(y.toClient[1..]));
  }

  /** A frame the server puts on the wire is on its way. */
  lemma {:induction false} SendsKnown(y: System, y': System, f: Frame)
    requires y'.worker == y.worker && y'.toClient == y.toClient + [f]
    ensures Known(y') == Known(y) + DecisionIn(f)
  {
    OnTheWayPush(y.toClient, f);
    Regroup(ToldOf(y.worker.answers), OnTheWay(y.toClient), DecisionIn(f));
  }

  lemma {:induction false} NextTells(y: System, m: Move)
    requires Inv(y) && Enabled(y, m)
    ensures Known(Next(y, m)) == Known(y) + DecisionOf(y, m)
  {
    var y' := Next(y, m);
    match m
    case Submit(c, written, listening) => SubmitTells(y.worker, c, written, listening);
    case CommandsEnd =>
    case ServerReads =>
    case ServerAnswers(i, ok) =>
      SendsKnown(y, y', y'.toClient[|y.toClient|]);
    case ServerSends(f) => SendsKnown(y, y', f);
    case ClientReceives(written, listening) => ReceiveKnown(y, y', written, listening);
  }

  lemma {:induction false} AlwaysKnown(states: seq<System>, moves: seq<Move>, i: nat)
    requires Behavior(states, moves) && i < |states|
    ensures Known(states[i]) == Decided(states, moves, i)
  {
    if i == 0 {
      NothingOnTheWay(states[0].toClient);
    } else {
      AlwaysKnown(states, moves, i - 1);
      BehaviorInvariant(states, moves, i - 1);
      NextTells(states[i - 1], moves[i - 1]);
    }
  }

  /** Over every behaviour: what the server has decided is what callers have been told, grants
      as `Answered` and refusals as `Refused`, and what is still on its way, one for one. */
  lemma {:induction false} CallersHearDecisions(states: seq<System>, moves: seq<Move>, i: nat)
    requires Behavior(states, moves) && i < |states|
    ensures Decided(states, moves, i) == ToldOf(states[i].worker.answers) + OnTheWay(states[i].toClient)
  {
    AlwaysKnown(states, moves, i);
  }

  /** A decision was made by some move of the server. */
  lemma {:induction false} DecidedByMove(states: seq<System>, moves: seq<Move>, n: nat, id: RequestId, w: Waiter,
                                         ok: bool)
    requires Behavior(states, moves) && n <= |moves| && (id, w, ok) in Decided(states, moves, n)
    ensures DecidedBefore(states, moves, n, id, w, ok)
  {
    if Decides(states[n - 1], moves[n - 1], id, w, ok) {
    } else {
      DecidedByMove(states, moves, n - 1, id, w, ok);
    }
  }

  /** The move answers that request of that caller, and so. */
  ghost predicate Decides(y: System, m: Move, id: RequestId, w: Waiter, ok: bool) {
    m.ServerAnswers? && m.ok == ok && m.index < |y.reading| && y.reading[m.index] == Call(id, w)
  }

  ghost predicate DecidedBefore(states: seq<System>, moves: seq<Move>, n: nat, id: RequestId, w: Waiter, ok: bool)
    requires n <= |states| && n <= |moves|
  {
    exists k | 0 <= k < n :: Decides(states[k], moves[k], id, w, ok)
  }

  lemma {:induction false} ToldSome(answers: seq<Answer>, j: nat)
    requires j < |answers|
    ensures ToldIn(answers[j]) <= ToldOf(answers)
  {
    if j < |answers| - 1 {
      ToldSome(answers[..|answers| - 1], j);
    }
  }

  /** A caller is told `Answered` only if the server granted that request of that caller, and
      `Refused` only if it refused it. */
  lemma {:induction false} AnsweredMeansGranted(states: seq<System>, moves: seq<Move>, i: nat, j: nat)
    requires Behavior(states, moves) && i < |states| && j < |states[i].worker.answers|
    ensures var a := states[i].worker.answers[j];
      && (a.reply.Answered? ==> a.call.Some? && DecidedBefore(states, moves, i, a.call.value, a.waiter, true))
      && (a.reply.Refused? ==> a.call.Some? && DecidedBefore(states, moves, i, a.call.value, a.waiter, false))
  {
    var s := states[i].worker;
    var a := s.answers[j];
    if a.reply.Answered? || a.reply.Refused? {
      BehaviorRepliesCalls(states, moves, i);
      CallersHearDecisions(states, moves, i);
      ToldSome(s.answers, j);
      assert (a.call.value, a.waiter, a.reply.Answered?) in ToldIn(a);
      DecidedByMove(states, moves, i, a.call.value, a.waiter, a.reply.Answered?);
    }
  }

  /** An answer of the server always settles a request. */
  ghost predicate RepliesCalls(answers: seq<Answer>) {
    forall i | 0 <= i < |answers| && (answers[i].reply.Answered? || answers[i].reply.Refused?) :: answers[i].call.Some?
  }

  lemma {:induction false} StepRepliesCalls(s: State, i: Input)
    requires RepliesCalls(s.answers)
    ensures RepliesCalls(Step(s, i).answers)
  {
  }

  lemma {:induction false} BehaviorRepliesCalls(states: seq<System>, moves: seq<Move>, i: nat)
    requires Behavior(states, moves) && i < |states|
    ensures RepliesCalls(states[i].worker.answers)
  {
    if i > 0 {
      BehaviorRepliesCalls(states, moves, i - 1);
      var y := states[i - 1];
      match moves[i - 1]
      case Submit(c, written, listening) => StepRepliesCalls(y.worker, Take(c, written, listening));
      case CommandsEnd => StepRepliesCalls(y.worker, CommandsGone);
      case ClientReceives(written, listening) =>
        StepRepliesCalls(y.worker, Receive(y.toClient[0], written, listening));
      case _ =>
    }
  }

  /** When nothing is under way any more, nothing is pending, every request accepted has been
      given the server's answer to it, and the answers given are the server's decisions. */
  lemma {:induction false} AllAnsweredAtRest(states: seq<System>, moves: seq<Move>, i: nat)
    requires Behavior(states, moves) && i < |states| && states[i].worker.running
    requires states[i].toServer == [] && states[i].reading == [] && states[i].toClient == []
    ensures var s := states[i].worker;
      && s.pending == map[] && Settled(s.answers) == Calls(s.wire)
      && forall j | 0 <= j < |s.answers| && s.answers[j].call.Some? ::
           && (s.answers[j].reply.Answered? || s.answers[j].reply.Refused?)
           && s.answers[j].reply.payload == s.answers[j].waiter
    ensures ToldOf(states[i].worker.answers) == Decided(states, moves, i)
  {
    var s := states[i].worker;
    BehaviorInvariant(states, moves, i);
    CallersHearDecisions(states, moves, i);
    BehaviorSettles(states, moves, i);
    forall id | id in s.pending ensures false { PairsSome(s.pending, id); }
  }

  /** An unread answer from a server that answers twice can reach the wrong caller: the
      promise needs a server that answers each request once. */
  lemma AnsweringTwiceMisleads(id: RequestId, a: Waiter, b: Waiter)
    requires a != b
    ensures var inputs := [Take(Ask(id, a), true, true), Receive(Text(Response(id, a)), true, true),
                           Take(Ask(id, b), true, true), Receive(Text(Response(id, a)), true, true)];
      Run(inputs, 4).answers == [Answer(a, Answered(a), Some(id)), Answer(b, Answered(a), Some(id))]
  {
    var inputs := [Take(Ask(id, a), true, true), Receive(Text(Response(id, a)), true, true),
                   Take(Ask(id, b), true, true), Receive(Text(Response(id, a)), true, true)];
    assert Run(inputs, 0) == START;
    assert Run(inputs, 1).pending == map[id := a] && Run(inputs, 1).running;
    assert Run(inputs, 2).pending == map[] && Run(inputs, 2).running;
    assert Run(inputs, 2).answers == [Answer(a, Answered(a), Some(id))];
    assert Run(inputs, 3).pending == map[id := b] && Run(inputs, 3).running;
  }
}
