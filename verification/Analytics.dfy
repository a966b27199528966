/** The analytics reducer: facts about connections, threads and turns arrive in any
    order and are joined into events. */
module Analytics {
  import opened Prelude
  import opened JsonRpc

  /** What is known of a client connection and of the thread a turn belongs to. */
  datatype Connection = Connection(client: string, runtime: string)
  datatype Mode = New | Resumed | Forked
  datatype ThreadMeta = ThreadMeta(source: Option<string>, mode: Mode, subagent: Option<string>, parent: Option<string>)

  datatype UserInput = Text | Image | LocalImage | OtherInput
  datatype SteerData = SteerData(thread: string, expected: string, images: nat, createdAt: nat)
  datatype Pending = TurnStart(thread: string, images: nat) | TurnSteer(data: SteerData)
  datatype Config = Config(turn: string, thread: string, images: nat, settings: string)
  datatype Status = Completed | Failed | Interrupted | InProgress
  datatype Ending = Ending(status: Option<Status>, error: Option<string>, completedAt: nat, duration: Option<nat>)

  datatype Turn = Turn(
    connection: Option<nat>, thread: Option<string>, images: Option<nat>, config: Option<Config>,
    startedAt: Option<nat>, usage: Option<nat>, ending: Option<Ending>, steers: nat)

  const NEW_TURN := Turn(None, None, None, None, None, None, None, 0)

  datatype State = State(
    requests: map<(nat, RequestId), Pending>, turns: map<string, Turn>, connections: map<nat, Connection>,
    threadConnections: map<string, nat>, threadMetadata: map<string, ThreadMeta>)

  const EMPTY := State(map[], map[], map[], map[], map[])

  datatype Fact =
    | Initialize(connection: nat, info: Connection)
    | StartRequest(connection: nat, id: RequestId, thread: string, input: seq<UserInput>)
    | SteerRequest(connection: nat, id: RequestId, thread: string, expected: string, input: seq<UserInput>, now: nat)
    | ThreadResponse(connection: nat, thread: string, meta: ThreadMeta)
    | StartResponse(connection: nat, id: RequestId, turn: string)
    | SteerResponse(connection: nat, id: RequestId, turn: string)
    | ErrorResponse(connection: nat, id: RequestId, reason: Option<string>)
    | TurnStarted(turn: string, at: Option<int>)
    | TurnCompleted(turn: string, status: Status, error: Option<string>, at: Option<int>, took: Option<int>)
    | ResolvedConfig(config: Config)
    | TokenUsage(turn: string, thread: string, usage: nat)
    | Compaction(thread: string, detail: string)
    | GuardianReview(thread: string, detail: string)

  /** The fields of a turn event that the three facts of a turn determine. */
  datatype Required = Required(
    thread: string, turn: string, connection: Connection, meta: ThreadMeta, settings: string, images: nat, ending: Ending)

  datatype SteerResult = Accepted(turn: string) | Rejected(reason: Option<string>)

  datatype Event =
    | TurnEvent(required: Required, startedAt: Option<nat>, usage: Option<nat>, steers: nat)
    | SteerEvent(data: SteerData, connection: Connection, meta: ThreadMeta, result: SteerResult)
    | ThreadInitialized(thread: string, connection: Connection, meta: ThreadMeta)
    | CompactionEvent(thread: string, connection: Connection, meta: ThreadMeta, detail: string)
    | GuardianEvent(thread: string, connection: Connection, detail: string)

  datatype Out = Out(state: State, events: seq<Event>)

  // ----- one fact -----

  function NumInputImages(input: seq<UserInput>): nat {
    if input == [] then 0
    else (if input[0] == Image || input[0] == LocalImage then 1 else 0) + NumInputImages(input[1..])
  }

  /** `u64::try_from(..).ok()` on an optional signed time. */
  function Unsigned(n: Option<int>): Option<nat> {
    match n case Some(i) => if i >= 0 then Some(i) else None case None => None
  }

  function EndingOf(f: Fact): Ending
    requires f.TurnCompleted?
  {
    Ending(if f.status == InProgress then None else Some(f.status), f.error,
           match Unsigned(f.at) case Some(n) => n case None => 0, Unsigned(f.took))
  }

  function EntryOf(s: State, turn: string): Turn { if turn in s.turns then s.turns[turn] else NEW_TURN }

  function Put(s: State, turn: string, t: Turn): State { s.(turns := s.turns[turn := t]) }

  /** Everything a turn event needs is there. */
  predicate Ready(s: State, turn: string) {
    && turn in s.turns
    && var t := s.turns[turn];
       && t.thread.Some? && t.images.Some? && t.config.Some? && t.ending.Some?
       && t.connection.Some? && t.connection.value in s.connections && t.thread.value in s.threadMetadata
  }

  function TurnEventOf(s: State, turn: string): Event
    requires Ready(s, turn)
  {
    var t := s.turns[turn];
    TurnEvent(
      Required(t.thread.value, turn, s.connections[t.connection.value], s.threadMetadata[t.thread.value],
               t.config.value.settings, t.images.value, t.ending.value),
      t.startedAt, t.usage, t.steers)
  }

  function MaybeEmitTurn(s: State, turn: string): Out {
    if Ready(s, turn) then Out(s.(turns := s.turns - {turn}), [TurnEventOf(s, turn)]) else Out(s, [])
  }

  function EmitSteer(s: State, connection: nat, data: SteerData, result: SteerResult): seq<Event> {
    if connection in s.connections && data.thread in s.threadMetadata
    then [SteerEvent(data, s.connections[connection], s.threadMetadata[data.thread], result)]
    else []
  }

  /** The request that a response answers. */
  function Answered(s: State, f: Fact): Option<Pending> {
    if (f.StartResponse? || f.SteerResponse? || f.ErrorResponse?) && (f.connection, f.id) in s.requests
    then Some(s.requests[(f.connection, f.id)])
    else None
  }

  /** A response uses up its request, even one of the wrong kind. */
  function Take(s: State, f: Fact): State {
    if f.StartResponse? || f.SteerResponse? || f.ErrorResponse?
    then s.(requests := s.requests - {(f.connection, f.id)})
    else s
  }

  datatype Patch = Patch(turn: string, entry: Turn)

  /** The four facts that may complete a turn, and what they write in its entry. */
  function PatchOf(s: State, f: Fact): Option<Patch> {
    match f
    case StartResponse(c, id, turn) =>
      (match Answered(s, f)
       case Some(TurnStart(thread, images)) =>
         Some(Patch(turn, EntryOf(s, turn).(connection := Some(c), thread := Some(thread), images := Some(images))))
       case _ => None)
    case TurnCompleted(turn, _, _, _, _) => Some(Patch(turn, EntryOf(s, turn).(ending := Some(EndingOf(f)))))
    case ResolvedConfig(config) =>
      Some(Patch(config.turn, EntryOf(s, config.turn).(
        thread := Some(config.thread), images := Some(config.images), config := Some(config))))
    case TokenUsage(turn, thread, usage) =>
      Some(Patch(turn, EntryOf(s, turn).(thread := Some(thread), usage := Some(usage))))
    case _ => None
  }

  /** What the other facts do to the turns, requests, connections and threads. */
  function Recorded(s: State, f: Fact): State {
    match f
    case Initialize(c, info) => s.(connections := s.connections[c := info])
    case StartRequest(c, id, thread, input) =>
      s.(requests := s.requests[(c, id) := TurnStart(thread, NumInputImages(input))])
    case SteerRequest(c, id, thread, expected, input, now) =>
      s.(requests := s.requests[(c, id) := TurnSteer(SteerData(thread, expected, NumInputImages(input), now))])
    case ThreadResponse(c, thread, meta) =>
      if c !in s.connections then s
      else s.(threadConnections := s.threadConnections[thread := c], threadMetadata := s.threadMetadata[thread := meta])
    case SteerResponse(c, id, turn) =>
      if Answered(s, f).Some? && Answered(s, f).value.TurnSteer? && turn in s.turns
      then Put(Take(s, f), turn, s.turns[turn].(steers := s.turns[turn].steers + 1))
      else Take(s, f)
    case TurnStarted(turn, at) => Put(s, turn, EntryOf(s, turn).(startedAt := Unsigned(at)))
    case _ => Take(s, f)
  }

  /** ... and what they report. */
  function Reported(s: State, f: Fact): seq<Event> {
    match f
    case ThreadResponse(c, thread, meta) =>
      if c !in s.connections then [] else [ThreadInitialized(thread, s.connections[c], meta)]
    case SteerResponse(c, id, turn) =>
      (match Answered(s, f) case Some(TurnSteer(data)) => EmitSteer(s, c, data, Accepted(turn)) case _ => [])
    case ErrorResponse(c, id, reason) =>
      (match Answered(s, f) case Some(TurnSteer(data)) => EmitSteer(s, c, data, Rejected(reason)) case _ => [])
    case Compaction(thread, detail) =>
      if thread in s.threadConnections && s.threadConnections[thread] in s.connections && thread in s.threadMetadata
      then [CompactionEvent(thread, s.connections[s.threadConnections[thread]], s.threadMetadata[thread], detail)]
      else []
    case GuardianReview(thread, detail) =>
      if thread in s.threadConnections && s.threadConnections[thread] in s.connections
      then [GuardianEvent(thread, s.connections[s.threadConnections[thread]], detail)]
      else []
    case _ => []
  }

  function Ingest(s: State, f: Fact): Out {
    match PatchOf(s, f)
    case Some(p) => MaybeEmitTurn(Put(Take(s, f), p.turn, p.entry), p.turn)
    case None => Out(Recorded(s, f), Reported(s, f))
  }

  /** The facts of a run, one after the other. */
  function RunFrom(s: State, facts: seq<Fact>, n: nat): Out
    requires n <= |facts|
  {
    if n == 0 then Out(s, [])
    else
      var before := RunFrom(s, facts, n - 1);
      var step := Ingest(before.state, facts[n - 1]);
      Out(step.state, before.events + step.events)
  }

  // ----- threads and connections -----

  /** Threads have a connection exactly when they have metadata, and it is a known one. */
  ghost predicate ThreadsKnown(s: State) {
    && s.threadConnections.Keys == s.threadMetadata.Keys
    && forall t | t in s.threadConnections :: s.threadConnections[t] in s.connections
  }

  lemma IngestKeepsThreads(s: State, f: Fact)
    requires ThreadsKnown(s)
    ensures ThreadsKnown(Ingest(s, f).state)
  {
  }

  lemma {:induction false} ThreadsAlwaysKnown(facts: seq<Fact>, n: nat)
    requires n <= |facts|
    ensures ThreadsKnown(RunFrom(EMPTY, facts, n).state)
  {
    if n > 0 {
      ThreadsAlwaysKnown(facts, n - 1);
      IngestKeepsThreads(RunFrom(EMPTY, facts, n - 1).state, facts[n - 1]);
    }
  }

  /** So a compaction or review is dropped only when its thread was never announced. */
  lemma {:induction false} DroppedOnlyWhenUnknown(facts: seq<Fact>, n: nat, f: Fact)
    requires n <= |facts| && (f.Compaction? || f.GuardianReview?)
    ensures var s := RunFrom(EMPTY, facts, n).state;
      Ingest(s, f).events == [] <==> f.thread !in s.threadMetadata
  {
    ThreadsAlwaysKnown(facts, n);
  }

  // ----- how often things are reported -----

  predicate IsTurnEvent(e: Event, turn: string) { e.TurnEvent? && e.required.turn == turn }

  function CountTurns(es: seq<Event>, turn: string): nat {
    if es == [] then 0 else CountTurns(es[..|es| - 1], turn) + if IsTurnEvent(es[|es| - 1], turn) then 1 else 0
  }

  function CountSteers(es: seq<Event>, of: SteerData -> bool): nat {
    if es == [] then 0
    else CountSteers(es[..|es| - 1], of) + if es[|es| - 1].SteerEvent? && of(es[|es| - 1].data) then 1 else 0
  }

  lemma CountsAppend(a: seq<Event>, b: seq<Event>, turn: string, of: SteerData -> bool)
    requires |b| <= 1
    ensures CountTurns(a + b, turn) == CountTurns(a, turn) + CountTurns(b, turn)
    ensures CountSteers(a + b, of) == CountSteers(a, of) + CountSteers(b, of)
  {
    if b == [] {
      assert a + b == a;
    } else {
      assert (a + b)[..|a|] == a && b[..0] == [];
    }
  }

  lemma OneAtATime(s: State, f: Fact)
    ensures |Ingest(s, f).events| <= 1
  {
  }

  /** A start response that finds the request it answers. */
  predicate MatchesStart(s: State, f: Fact, turn: string) {
    f.StartResponse? && f.turn == turn && (f.connection, f.id) in s.requests && s.requests[(f.connection, f.id)].TurnStart?
  }

  function MatchedStarts(facts: seq<Fact>, n: nat, turn: string): nat
    requires n <= |facts|
  {
    if n == 0 then 0
    else MatchedStarts(facts, n - 1, turn) +
         if MatchesStart(RunFrom(EMPTY, facts, n - 1).state, facts[n - 1], turn) then 1 else 0
  }

  /** A turn whose start has been matched and not yet reported. */
  function Open(s: State, turn: string): nat { if turn in s.turns && s.turns[turn].connection.Some? then 1 else 0 }

  lemma TurnStep(s: State, f: Fact, turn: string)
    ensures CountTurns(Ingest(s, f).events, turn) + Open(Ingest(s, f).state, turn)
      <= Open(s, turn) + if MatchesStart(s, f, turn) then 1 else 0
  {
    var es := Ingest(s, f).events;
    OneAtATime(s, f);
    if es != [] { assert es[..0] == []; }
  }

  /** Over a whole run, a turn is reported at most once per start response that matched. */
  lemma {:induction false} TurnsReportedOnce(facts: seq<Fact>, n: nat, turn: string)
    requires n <= |facts|
    ensures var r := RunFrom(EMPTY, facts, n);
      CountTurns(r.events, turn) + Open(r.state, turn) <= MatchedStarts(facts, n, turn)
  {
    if n > 0 {
      var before := RunFrom(EMPTY, facts, n - 1);
      TurnsReportedOnce(facts, n - 1, turn);
      TurnStep(before.state, facts[n - 1], turn);
      OneAtATime(before.state, facts[n - 1]);
      CountsAppend(before.events, Ingest(before.state, facts[n - 1]).events, turn, d => true);
    }
  }

  // ----- steers -----

  function SteerOf(f: Fact): SteerData
    requires f.SteerRequest?
  { SteerData(f.thread, f.expected, NumInputImages(f.input), f.now) }

  function SteerRequests(facts: seq<Fact>, n: nat, of: SteerData -> bool): nat
    requires n <= |facts|
  {
    if n == 0 then 0
    else SteerRequests(facts, n - 1, of) + if facts[n - 1].SteerRequest? && of(SteerOf(facts[n - 1])) then 1 else 0
  }

  /** The requests waiting for an answer whose data satisfy `of`. */
  function Waiting(s: State, of: SteerData -> bool): set<(nat, RequestId)> {
    set k | k in s.requests && s.requests[k].TurnSteer? && of(s.requests[k].data)
  }

  ghost predicate SameElsewhere(s: State, s': State, k: (nat, RequestId)) {
    forall j | j != k :: (j in s.requests <==> j in s'.requests) && (j in s.requests ==> s.requests[j] == s'.requests[j])
  }

  lemma SplitOff<T>(a: set<T>, k: T)
    ensures |a| == |a - {k}| + if k in a then 1 else 0
  {
    if k !in a { assert a - {k} == a; }
  }

  lemma WaitingAfter(s: State, s': State, k: (nat, RequestId), of: SteerData -> bool)
    requires SameElsewhere(s, s', k)
    ensures |Waiting(s', of)| + (if k in Waiting(s, of) then 1 else 0)
      == |Waiting(s, of)| + if k in Waiting(s', of) then 1 else 0
  {
    var a, b := Waiting(s, of), Waiting(s', of);
    forall j | j != k ensures j in a <==> j in b {
      assert j in s.requests <==> j in s'.requests;
    }
    assert a - {k} == b - {k};
    SplitOff(a, k);
    SplitOff(b, k);
  }

  /** The one request a fact can add or remove. */
  function KeyOf(f: Fact): (nat, RequestId) {
    match f
    case StartRequest(c, id, _, _) => (c, id)
    case SteerRequest(c, id, _, _, _, _) => (c, id)
    case StartResponse(c, id, _) => (c, id)
    case SteerResponse(c, id, _) => (c, id)
    case ErrorResponse(c, id, _) => (c, id)
    case _ => (0, IntegerId(0))
  }

  lemma OnlyKeyChanges(s: State, f: Fact)
    ensures SameElsewhere(s, Ingest(s, f).state, KeyOf(f))
  {
  }

  function One(b: bool): nat { if b then 1 else 0 }

  /** A steer event takes a waiting steer with it. */
  lemma SteerTaken(s: State, f: Fact, of: SteerData -> bool)
    ensures CountSteers(Ingest(s, f).events, of) + One(KeyOf(f) in Waiting(Ingest(s, f).state, of))
      <= One(KeyOf(f) in Waiting(s, of)) + One(f.SteerRequest? && of(SteerOf(f)))
  {
    var r := Ingest(s, f);
    OneAtATime(s, f);
    if r.events != [] { assert r.events[..0] == []; }
  }

  lemma SteerStep(s: State, f: Fact, of: SteerData -> bool)
    ensures CountSteers(Ingest(s, f).events, of) + |Waiting(Ingest(s, f).state, of)|
      <= |Waiting(s, of)| + One(f.SteerRequest? && of(SteerOf(f)))
  {
    SteerTaken(s, f, of);
    OnlyKeyChanges(s, f);
    WaitingAfter(s, Ingest(s, f).state, KeyOf(f), of);
  }

  /** Over a whole run, for any choice of data: the steer events carrying such data, and the
      steers still waiting, never exceed the steer requests recorded with such data. With
      one datum this says that each event carries the data of a request of its own; with
      all data, that there are no more events than requests. */
  lemma {:induction false} SteersReportedOnce(facts: seq<Fact>, n: nat, of: SteerData -> bool)
    requires n <= |facts|
    ensures var r := RunFrom(EMPTY, facts, n);
      CountSteers(r.events, of) + |Waiting(r.state, of)| <= SteerRequests(facts, n, of)
  {
    if n > 0 {
      var before := RunFrom(EMPTY, facts, n - 1);
      SteersReportedOnce(facts, n - 1, of);
      SteerStep(before.state, facts[n - 1], of);
      OneAtATime(before.state, facts[n - 1]);
      CountsAppend(before.events, Ingest(before.state, facts[n - 1]).events, "", of);
    }
  }

  predicate MatchesSteer(s: State, f: Fact, turn: string) {
    f.SteerResponse? && f.turn == turn && (f.connection, f.id) in s.requests && s.requests[(f.connection, f.id)].TurnSteer?
  }

  /** Accepted steers for a turn since its entry last came into being. */
  function SteersSince(facts: seq<Fact>, n: nat, turn: string): nat
    requires n <= |facts|
  {
    if n == 0 then 0
    else
      var before := RunFrom(EMPTY, facts, n - 1).state;
      if turn !in before.turns then 0
      else SteersSince(facts, n - 1, turn) + if MatchesSteer(before, facts[n - 1], turn) then 1 else 0
  }

  lemma SteerCountStep(s: State, f: Fact, turn: string)
    ensures var r := Ingest(s, f);
      var count := if turn in s.turns then s.turns[turn].steers + One(MatchesSteer(s, f, turn)) else 0;
      && (turn in r.state.turns ==> r.state.turns[turn].steers == count)
      && forall i | 0 <= i < |r.events| && IsTurnEvent(r.events[i], turn) :: r.events[i].steers == count
  {
  }

  /** The reported `steer_count` is the number of accepted steers since the entry was created. */
  lemma {:induction false} SteerCountExact(facts: seq<Fact>, n: nat, turn: string)
    requires n <= |facts|
    ensures var s := RunFrom(EMPTY, facts, n).state;
      turn in s.turns ==> s.turns[turn].steers == SteersSince(facts, n, turn)
    ensures n > 0 ==>
      var step := Ingest(RunFrom(EMPTY, facts, n - 1).state, facts[n - 1]).events;
      forall i | 0 <= i < |step| && IsTurnEvent(step[i], turn) :: step[i].steers == SteersSince(facts, n, turn)
  {
    if n > 0 {
      SteerCountExact(facts, n - 1, turn);
      SteerCountStep(RunFrom(EMPTY, facts, n - 1).state, facts[n - 1], turn);
    }
  }

  // ----- the program -----

  class AnalyticsReducer {
    var requests: map<(nat, RequestId), Pending>
    var turns: map<string, Turn>
    var connections: map<nat, Connection>
    var threadConnections: map<string, nat>
    var threadMetadata: map<string, ThreadMeta>
    var out: seq<Event>

    ghost function Value(): State
      reads this
    { State(requests, turns, connections, threadConnections, threadMetadata) }

    constructor ()
      ensures Value() == EMPTY && out == []
    {
      requests, turns, connections := map[], map[], map[];
      threadConnections, threadMetadata, out := map[], map[], [];
    }

    /** Emits the turn event once everything it needs is there, and forgets the turn. */
    method MaybeEmitTurnEvent(turn: string)
      modifies this`turns, this`out
      ensures Out(Value(), out) == var r := MaybeEmitTurn(old(Value()), turn); Out(r.state, old(out) + r.events)
    {
      if turn !in turns { return; }
      var t := turns[turn];
      if t.thread == None || t.images == None || t.config == None || t.ending == None { return; }
      if t.connection == None || t.connection.value !in connections { return; }
      if t.thread.value !in threadMetadata { return; }
      out := out + [TurnEvent(
        Required(t.thread.value, turn, connections[t.connection.value], threadMetadata[t.thread.value],
                 t.config.value.settings, t.images.value, t.ending.value),
        t.startedAt, t.usage, t.steers)];
      turns := turns - {turn};
    }

    /** The entry of a turn, made if it is not there. */
    method Entry(turn: string) returns (t: Turn)
      modifies this`turns
      ensures t == EntryOf(old(Value()), turn) && turns == old(turns)[turn := t]
    {
      if turn !in turns { turns := turns[turn := NEW_TURN]; }
      t := turns[turn];
    }

    method EmitTurnSteerEvent(connection: nat, data: SteerData, result: SteerResult)
      modifies this`out
      ensures out == old(out) + EmitSteer(Value(), connection, data, result)
    {
      if connection !in connections { return; }
      if data.thread !in threadMetadata { return; }
      out := out + [SteerEvent(data, connections[connection], threadMetadata[data.thread], result)];
    }

    method IngestRequest(f: Fact)
      requires f.StartRequest? || f.SteerRequest?
      modifies this`requests
      ensures Out(Value(), []) == Ingest(old(Value()), f)
    {
      if f.StartRequest? {
        requests := requests[(f.connection, f.id) := TurnStart(f.thread, NumInputImages(f.input))];
      } else {
        var data := SteerData(f.thread, f.expected, NumInputImages(f.input), f.now);
        requests := requests[(f.connection, f.id) := TurnSteer(data)];
      }
    }

    method IngestThreadResponse(f: Fact)
      requires f.ThreadResponse?
      modifies this`threadConnections, this`threadMetadata, this`out
      ensures Out(Value(), out) == var r := Ingest(old(Value()), f); Out(r.state, old(out) + r.events)
    {
      if f.connection !in connections { return; }
      threadConnections := threadConnections[f.thread := f.connection];
      threadMetadata := threadMetadata[f.thread := f.meta];
      out := out + [ThreadInitialized(f.thread, connections[f.connection], f.meta)];
    }

    method IngestStartResponse(f: Fact)
      requires f.StartResponse?
      modifies this`requests, this`turns, this`out
      ensures Out(Value(), out) == var r := Ingest(old(Value()), f); Out(r.state, old(out) + r.events)
    {
      var key := (f.connection, f.id);
      if key !in requests {
        assert requests - {key} == requests;
        return;
      }
      var pending := requests[key];
      requests := requests - {key};
      if !pending.TurnStart? { return; }
      var t := Entry(f.turn);
      t := t.(connection := Some(f.connection), thread := Some(pending.thread), images := Some(pending.images));
      turns := turns[f.turn := t];
      assert Value() == Put(Take(old(Value()), f), f.turn, turns[f.turn]);
      MaybeEmitTurnEvent(f.turn);
    }

    method IngestSteerAnswer(f: Fact)
      requires f.SteerResponse? || f.ErrorResponse?
      modifies this`requests, this`turns, this`out
      ensures Out(Value(), out) == var r := Ingest(old(Value()), f); Out(r.state, old(out) + r.events)
    {
      var key := (f.connection, f.id);
      if key !in requests {
        assert requests - {key} == requests;
        return;
      }
      var pending := requests[key];
      requests := requests - {key};
      if !pending.TurnSteer? { return; }
      if f.SteerResponse? {
        if f.turn in turns {
          turns := turns[f.turn := turns[f.turn].(steers := turns[f.turn].steers + 1)];
        }
        EmitTurnSteerEvent(f.connection, pending.data, Accepted(f.turn));
      } else {
        EmitTurnSteerEvent(f.connection, pending.data, Rejected(f.reason));
      }
    }

    method IngestTurnStarted(f: Fact)
      requires f.TurnStarted?
      modifies this`turns
      ensures Out(Value(), []) == Ingest(old(Value()), f)
    {
      var t := Entry(f.turn);
      turns := turns[f.turn := t.(startedAt := Unsigned(f.at))];
    }

    method IngestTurnFact(f: Fact)
      requires f.TurnCompleted? || f.ResolvedConfig? || f.TokenUsage?
      modifies this`turns, this`out
      ensures Out(Value(), out) == var r := Ingest(old(Value()), f); Out(r.state, old(out) + r.events)
    {
      var turn := if f.ResolvedConfig? then f.config.turn else f.turn;
      var t := Entry(turn);
      if f.TurnCompleted? {
        t := t.(ending := Some(EndingOf(f)));
      } else if f.ResolvedConfig? {
        t := t.(thread := Some(f.config.thread), images := Some(f.config.images), config := Some(f.config));
      } else {
        t := t.(thread := Some(f.thread), usage := Some(f.usage));
      }
      turns := turns[turn := t];
      assert PatchOf(old(Value()), f) == Some(Patch(turn, t));
      assert Value() == Put(old(Value()), turn, t);
      MaybeEmitTurnEvent(turn);
    }

    method IngestThreadDetail(f: Fact)
      requires f.Compaction? || f.GuardianReview?
      modifies this`out
      ensures Out(Value(), out) == var r := Ingest(old(Value()), f); Out(r.state, old(out) + r.events)
    {
      if f.thread !in threadConnections { return; }
      var c := threadConnections[f.thread];
      if c !in connections { return; }
      if f.GuardianReview? {
        out := out + [GuardianEvent(f.thread, connections[c], f.detail)];
        return;
      }
      if f.thread !in threadMetadata { return; }
      out := out + [CompactionEvent(f.thread, connections[c], threadMetadata[f.thread], f.detail)];
    }

    method IngestFact(f: Fact)
      modifies this
      ensures Out(Value(), out) == var r := Ingest(old(Value()), f); Out(r.state, old(out) + r.events)
      ensures old(ThreadsKnown(Value())) ==> ThreadsKnown(Value())
    {
      if ThreadsKnown(Value()) { IngestKeepsThreads(Value(), f); }
      match f
      case Initialize(c, info) => connections := connections[c := info];
      case StartRequest(_, _, _, _) => IngestRequest(f);
      case SteerRequest(_, _, _, _, _, _) => IngestRequest(f);
      case ThreadResponse(_, _, _) => IngestThreadResponse(f);
      case StartResponse(_, _, _) => IngestStartResponse(f);
      case SteerResponse(_, _, _) => IngestSteerAnswer(f);
      case ErrorResponse(_, _, _) => IngestSteerAnswer(f);
      case Compaction(_, _) => IngestThreadDetail(f);
      case GuardianReview(_, _) => IngestThreadDetail(f);
      case TurnStarted(_, _) => IngestTurnStarted(f);
      case _ => IngestTurnFact(f);
    }
  }
}
