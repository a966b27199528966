/** What the reducer knows and reports, told by the facts themselves: what was last said of
    a connection, a thread, a request or a turn. */
module AnalyticsHistory {
  import opened Prelude
  import opened JsonRpc
  import opened Analytics

  // ----- what was last said -----

  /** What was last said of a connection. */
  function SaidConnection(facts: seq<Fact>, n: nat, c: nat): Option<Connection>
    requires n <= |facts|
  {
    if n == 0 then None
    else
      match facts[n - 1]
      case Initialize(d, info) => if d == c then Some(info) else SaidConnection(facts, n - 1, c)
      case _ => SaidConnection(facts, n - 1, c)
  }

  datatype Announced = Announced(connection: nat, meta: ThreadMeta)

  /** What was last said of a thread, on a connection that was known then. */
  function SaidThread(facts: seq<Fact>, n: nat, thread: string): Option<Announced>
    requires n <= |facts|
  {
    if n == 0 then None
    else
      match facts[n - 1]
      case ThreadResponse(c, t, meta) =>
        if t == thread && SaidConnection(facts, n - 1, c).Some? then Some(Announced(c, meta))
        else SaidThread(facts, n - 1, thread)
      case _ => SaidThread(facts, n - 1, thread)
  }

  /** How many of the inputs are images, of either kind. */
  ghost function Images(input: seq<UserInput>): nat { multiset(input)[Image] + multiset(input)[LocalImage] }

  lemma {:induction false} ImagesCounted(input: seq<UserInput>)
    ensures NumInputImages(input) == Images(input)
  {
    if input != [] {
      ImagesCounted(input[1..]);
      assert input == [input[0]] + input[1..];
    }
  }

  /** The request last made under an id and not answered since. */
  ghost function Asked(facts: seq<Fact>, n: nat, c: nat, id: RequestId): Option<Pending>
    requires n <= |facts|
  {
    if n == 0 then None
    else
      var f := facts[n - 1];
      var before := Asked(facts, n - 1, c, id);
      match f
      case StartRequest(d, i, thread, input) =>
        if (d, i) == (c, id) then Some(TurnStart(thread, Images(input))) else before
      case SteerRequest(d, i, thread, expected, input, now) =>
        if (d, i) == (c, id) then Some(TurnSteer(SteerData(thread, expected, Images(input), now))) else before
      case StartResponse(d, i, _) => if (d, i) == (c, id) then None else before
      case SteerResponse(d, i, _) => if (d, i) == (c, id) then None else before
      case ErrorResponse(d, i, _) => if (d, i) == (c, id) then None else before
      case _ => before
  }

  function Get<K, V>(m: map<K, V>, k: K): Option<V> { if k in m then Some(m[k]) else None }

  /** How a state compares with what was said. */
  ghost predicate Knows(s: State, facts: seq<Fact>, n: nat, c: nat, thread: string, id: RequestId)
    requires n <= |facts|
  {
    && Get(s.connections, c) == SaidConnection(facts, n, c)
    && Get(s.threadConnections, thread) ==
         (match SaidThread(facts, n, thread) case Some(a) => Some(a.connection) case None => None)
    && Get(s.threadMetadata, thread) ==
         (match SaidThread(facts, n, thread) case Some(a) => Some(a.meta) case None => None)
    && Get(s.requests, (c, id)) == Asked(facts, n, c, id)
  }

  /** A fact that may complete a turn says nothing of connections and threads. */
  lemma TurnFactKeeps(s: State, f: Fact)
    requires PatchOf(s, f).Some?
    ensures var t := Ingest(s, f).state;
      && t.connections == s.connections && t.threadConnections == s.threadConnections
      && t.threadMetadata == s.threadMetadata && t.requests == Take(s, f).requests
      && !f.Initialize? && !f.ThreadResponse? && !f.StartRequest? && !f.SteerRequest?
  {
  }

  lemma {:induction false} KnowsConnection(facts: seq<Fact>, n: nat, c: nat)
    requires n <= |facts|
    ensures Get(RunFrom(EMPTY, facts, n).state.connections, c) == SaidConnection(facts, n, c)
  {
    if n > 0 {
      KnowsConnection(facts, n - 1, c);
      ConnectionStep(RunFrom(EMPTY, facts, n - 1).state, facts[n - 1], c);
    }
  }

  lemma ConnectionStep(s: State, f: Fact, c: nat)
    ensures Get(Ingest(s, f).state.connections, c) ==
      if f.Initialize? && f.connection == c then Some(f.info) else Get(s.connections, c)
  {
    if PatchOf(s, f).Some? { TurnFactKeeps(s, f); }
  }

  lemma ThreadStep(s: State, f: Fact, thread: string)
    ensures var t := Ingest(s, f).state;
      var heard := f.ThreadResponse? && f.thread == thread && f.connection in s.connections;
      && Get(t.threadConnections, thread) == (if heard then Some(f.connection) else Get(s.threadConnections, thread))
      && Get(t.threadMetadata, thread) == (if heard then Some(f.meta) else Get(s.threadMetadata, thread))
  {
    if PatchOf(s, f).Some? { TurnFactKeeps(s, f); }
  }

  lemma {:induction false} KnowsThread(facts: seq<Fact>, n: nat, thread: string)
    requires n <= |facts|
    ensures var s := RunFrom(EMPTY, facts, n).state;
      match SaidThread(facts, n, thread)
      case Some(a) =>
        Get(s.threadConnections, thread) == Some(a.connection) && Get(s.threadMetadata, thread) == Some(a.meta)
      case None => thread !in s.threadConnections && thread !in s.threadMetadata
  {
    if n > 0 {
      var s, f := RunFrom(EMPTY, facts, n - 1).state, facts[n - 1];
      KnowsThread(facts, n - 1, thread);
      ThreadStep(s, f, thread);
      if f.ThreadResponse? { KnowsConnection(facts, n - 1, f.connection); }
    }
  }

  predicate Answers(f: Fact, c: nat, id: RequestId) {
    (f.StartResponse? || f.SteerResponse? || f.ErrorResponse?) && f.connection == c && f.id == id
  }

  lemma RequestStep(s: State, f: Fact, c: nat, id: RequestId)
    ensures Get(Ingest(s, f).state.requests, (c, id)) ==
      if Answers(f, c, id) then None
      else if f.StartRequest? && (f.connection, f.id) == (c, id) then Some(TurnStart(f.thread, NumInputImages(f.input)))
      else if f.SteerRequest? && (f.connection, f.id) == (c, id) then Some(TurnSteer(SteerOf(f)))
      else Get(s.requests, (c, id))
  {
    if PatchOf(s, f).Some? { TurnFactKeeps(s, f); }
  }

  lemma {:induction false} KnowsRequest(facts: seq<Fact>, n: nat, c: nat, id: RequestId)
    requires n <= |facts|
    ensures Get(RunFrom(EMPTY, facts, n).state.requests, (c, id)) == Asked(facts, n, c, id)
  {
    if n > 0 {
      var f := facts[n - 1];
      KnowsRequest(facts, n - 1, c, id);
      RequestStep(RunFrom(EMPTY, facts, n - 1).state, f, c, id);
      if f.StartRequest? || f.SteerRequest? { ImagesCounted(f.input); }
    }
  }

  /** Over every run the reducer knows of each connection, thread and request what was last
      said of it, and nothing else. */
  lemma {:induction false} KnowsWhatWasSaid(facts: seq<Fact>, n: nat, c: nat, thread: string, id: RequestId)
    requires n <= |facts|
    ensures Knows(RunFrom(EMPTY, facts, n).state, facts, n, c, thread, id)
  {
    KnowsConnection(facts, n, c);
    KnowsThread(facts, n, thread);
    KnowsRequest(facts, n, c, id);
  }

  // ----- what is reported -----

  /** The events of fact `n`. */
  function ReportOf(facts: seq<Fact>, n: nat): seq<Event>
    requires n < |facts|
  { Ingest(RunFrom(EMPTY, facts, n).state, facts[n]).events }

  /** What an answered steer is to be reported as: with the data of its request, on a known
      connection and for a known thread. */
  ghost function SteerReport(facts: seq<Fact>, n: nat, c: nat, id: RequestId, result: SteerResult): seq<Event>
    requires n <= |facts|
  {
    match (Asked(facts, n, c, id), SaidConnection(facts, n, c))
    case (Some(TurnSteer(data)), Some(connection)) =>
      (match SaidThread(facts, n, data.thread)
       case Some(a) => [SteerEvent(data, connection, a.meta, result)]
       case None => [])
    case _ => []
  }

  /** Every answer to a steer is reported once, with the data of its request and the outcome,
      if and only if its connection and thread are known. */
  lemma {:induction false} SteersReportedExactly(facts: seq<Fact>, n: nat)
    requires n < |facts|
    ensures match facts[n]
      case SteerResponse(c, id, turn) => ReportOf(facts, n) == SteerReport(facts, n, c, id, Accepted(turn))
      case ErrorResponse(c, id, reason) => ReportOf(facts, n) == SteerReport(facts, n, c, id, Rejected(reason))
      case _ =>
        var step := ReportOf(facts, n);
        forall i | 0 <= i < |step| :: !step[i].SteerEvent?
  {
    var f := facts[n];
    if f.SteerResponse? || f.ErrorResponse? {
      KnowsRequest(facts, n, f.connection, f.id);
      KnowsConnection(facts, n, f.connection);
      match Asked(facts, n, f.connection, f.id)
      case Some(TurnSteer(data)) => KnowsThread(facts, n, data.thread);
      case _ =>
    }
  }

  /** A thread is reported when it is announced on a known connection, a compaction or a review
      when its thread has been, each with what was last said. */
  lemma {:induction false} ThreadsReportedExactly(facts: seq<Fact>, n: nat)
    requires n < |facts|
    ensures match facts[n]
      case ThreadResponse(c, thread, meta) =>
        ReportOf(facts, n) ==
          (match SaidConnection(facts, n, c) case Some(info) => [ThreadInitialized(thread, info, meta)] case None => [])
      case Compaction(thread, detail) =>
        (match SaidThread(facts, n, thread)
         case Some(a) =>
           && SaidConnection(facts, n, a.connection).Some?
           && ReportOf(facts, n) ==
                [CompactionEvent(thread, SaidConnection(facts, n, a.connection).value, a.meta, detail)]
         case None => ReportOf(facts, n) == [])
      case GuardianReview(thread, detail) =>
        (match SaidThread(facts, n, thread)
         case Some(a) =>
           && SaidConnection(facts, n, a.connection).Some?
           && ReportOf(facts, n) == [GuardianEvent(thread, SaidConnection(facts, n, a.connection).value, detail)]
         case None => ReportOf(facts, n) == [])
      case _ =>
        var step := ReportOf(facts, n);
        forall i | 0 <= i < |step| :: step[i].TurnEvent? || step[i].SteerEvent?
  {
    var f := facts[n];
    ThreadsAlwaysKnown(facts, n);
    if f.ThreadResponse? {
      KnowsConnection(facts, n, f.connection);
    } else if f.Compaction? || f.GuardianReview? {
      KnowsThread(facts, n, f.thread);
      match SaidThread(facts, n, f.thread)
      case Some(a) => KnowsConnection(facts, n, a.connection);
      case None =>
    }
  }

  // ----- the turn events -----

  /** A time that is not negative. */
  ghost predicate Time(n: Option<int>, t: Option<nat>) {
    match n
    case Some(i) => if 0 <= i then t == Some(i) else t == None
    case None => t == None
  }

  /** The ending of a turn as its completion tells it; a turn said to be in progress has no
      status, and an unknown time of completion is zero. */
  lemma EndingIs(turn: string, status: Status, error: Option<string>, at: Option<int>, took: Option<int>)
    ensures var e := EndingOf(TurnCompleted(turn, status, error, at, took));
      && (status == Completed ==> e.status == Some(Completed)) && (status == Failed ==> e.status == Some(Failed))
      && (status == Interrupted ==> e.status == Some(Interrupted)) && (status == InProgress ==> e.status == None)
      && e.error == error && Time(took, e.duration)
      && (Time(at, Some(e.completedAt)) || (Time(at, None) && e.completedAt == 0))
  {
  }

  /** The start time and the token usage last given since the entry of the turn came into
      being. */
  function StartSince(facts: seq<Fact>, n: nat, turn: string): Option<nat>
    requires n <= |facts|
  {
    if n == 0 then None
    else
      var f := facts[n - 1];
      if f.TurnStarted? && f.turn == turn then Unsigned(f.at)
      else if turn in RunFrom(EMPTY, facts, n - 1).state.turns then StartSince(facts, n - 1, turn)
      else None
  }

  function UsageSince(facts: seq<Fact>, n: nat, turn: string): Option<nat>
    requires n <= |facts|
  {
    if n == 0 then None
    else
      var f := facts[n - 1];
      if f.TokenUsage? && f.turn == turn then Some(f.usage)
      else if turn in RunFrom(EMPTY, facts, n - 1).state.turns then UsageSince(facts, n - 1, turn)
      else None
  }

  /** The start time and the usage of an entry and of the events of its turn. */
  ghost predicate Details(r: Out, turn: string, start: Option<nat>, usage: Option<nat>) {
    && (turn in r.state.turns ==> r.state.turns[turn].startedAt == start && r.state.turns[turn].usage == usage)
    && forall i | 0 <= i < |r.events| && IsTurnEvent(r.events[i], turn) ::
         r.events[i].startedAt == start && r.events[i].usage == usage
  }

  function StartAfter(s: State, f: Fact, turn: string): Option<nat> {
    if f.TurnStarted? && f.turn == turn then Unsigned(f.at) else EntryOf(s, turn).startedAt
  }

  function UsageAfter(s: State, f: Fact, turn: string): Option<nat> {
    if f.TokenUsage? && f.turn == turn then Some(f.usage) else EntryOf(s, turn).usage
  }

  lemma EmitDetails(s: State, at: string, turn: string)
    ensures Details(MaybeEmitTurn(s, at), turn, EntryOf(s, turn).startedAt, EntryOf(s, turn).usage)
  {
  }

  lemma PatchDetails(s: State, f: Fact, p: Patch, turn: string)
    requires PatchOf(s, f) == Some(p)
    ensures EntryOf(Put(Take(s, f), p.turn, p.entry), turn).startedAt == StartAfter(s, f, turn)
    ensures EntryOf(Put(Take(s, f), p.turn, p.entry), turn).usage == UsageAfter(s, f, turn)
  {
  }

  lemma RecordedDetails(s: State, f: Fact, turn: string)
    requires PatchOf(s, f) == None
    ensures turn in Recorded(s, f).turns ==>
      && Recorded(s, f).turns[turn].startedAt == StartAfter(s, f, turn)
      && Recorded(s, f).turns[turn].usage == UsageAfter(s, f, turn)
  {
  }

  lemma ReportedDetails(s: State, f: Fact, turn: string)
    ensures forall i | 0 <= i < |Reported(s, f)| :: !IsTurnEvent(Reported(s, f)[i], turn)
  {
  }

  lemma DetailStep(s: State, f: Fact, turn: string)
    ensures Details(Ingest(s, f), turn, StartAfter(s, f, turn), UsageAfter(s, f, turn))
  {
    match PatchOf(s, f)
    case Some(p) =>
      EmitDetails(Put(Take(s, f), p.turn, p.entry), p.turn, turn);
      PatchDetails(s, f, p, turn);
    case None =>
      RecordedDetails(s, f, turn);
      ReportedDetails(s, f, turn);
  }

  /** A turn event carries the start time and the token usage last given. */
  lemma {:induction false} DetailsExact(facts: seq<Fact>, n: nat, turn: string)
    requires n <= |facts|
    ensures var s := RunFrom(EMPTY, facts, n).state;
      turn in s.turns ==>
        s.turns[turn].startedAt == StartSince(facts, n, turn) && s.turns[turn].usage == UsageSince(facts, n, turn)
    ensures n > 0 ==>
      var step := ReportOf(facts, n - 1);
      forall i | 0 <= i < |step| && IsTurnEvent(step[i], turn) ::
        step[i].startedAt == StartSince(facts, n, turn) && step[i].usage == UsageSince(facts, n, turn)
  {
    if n > 0 {
      DetailsExact(facts, n - 1, turn);
      DetailStep(RunFrom(EMPTY, facts, n - 1).state, facts[n - 1], turn);
    }
  }
}
