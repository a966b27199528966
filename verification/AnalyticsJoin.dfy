/** Whatever the order in which the facts of a turn arrive, and whatever comes between
    them, the turn is reported once, at the first moment it can be. */
module AnalyticsJoin {
  import opened Prelude
  import opened JsonRpc
  import opened Analytics

  /** A turn: the request that starts it, its resolved configuration and its completion. */
  datatype Story = Story(
    connection: nat, id: RequestId, turn: string, thread: string, images: nat, config: Config, completion: Fact)

  ghost predicate Wellformed(st: Story) {
    st.config.turn == st.turn && st.completion.TurnCompleted? && st.completion.turn == st.turn
  }

  datatype Role = Starts | Configures | Completes | Aside

  function RoleOf(st: Story, f: Fact): Role {
    if f == StartResponse(st.connection, st.id, st.turn) then Starts
    else if f == ResolvedConfig(st.config) then Configures
    else if f == st.completion then Completes
    else Aside
  }

  /** Any fact that is not a second start, configuration or completion of this turn and
      does not reuse its request id. Facts of other turns are all harmless; so are
      connections and threads, and this turn's start time, token usage and steers. */
  predicate Harmless(st: Story, f: Fact) {
    match f
    case StartRequest(c, id, _, _) => (c, id) != (st.connection, st.id)
    case SteerRequest(c, id, _, _, _, _) => (c, id) != (st.connection, st.id)
    case StartResponse(c, id, turn) => (c, id) != (st.connection, st.id) && turn != st.turn
    case SteerResponse(c, id, _) => (c, id) != (st.connection, st.id)
    case ErrorResponse(c, id, _) => (c, id) != (st.connection, st.id)
    case TurnCompleted(turn, _, _, _, _) => turn != st.turn
    case ResolvedConfig(config) => config.turn != st.turn
    case _ => true
  }

  /** Each of the three comes at most once; everything else is harmless. */
  ghost predicate Interleaving(st: Story, facts: seq<Fact>) {
    && (forall i | 0 <= i < |facts| :: RoleOf(st, facts[i]) == Aside ==> Harmless(st, facts[i]))
    && (forall i, j | 0 <= i < j < |facts| ::
          RoleOf(st, facts[i]) == RoleOf(st, facts[j]) ==> RoleOf(st, facts[i]) == Aside)
  }

  ghost predicate Requested(st: Story, s: State) {
    (st.connection, st.id) in s.requests && s.requests[(st.connection, st.id)] == TurnStart(st.thread, st.images)
  }

  /** The start request is waiting, and nothing has been heard of the turn yet. */
  ghost predicate Beginning(st: Story, s: State) { st.turn !in s.turns && Requested(st, s) }

  // ----- what should be reported, told without the reducer's entries -----

  /** How far the turn has come. */
  datatype Progress = Progress(started: bool, configured: bool, completed: bool)

  const NOTHING := Progress(false, false, false)

  predicate All(p: Progress) { p.started && p.configured && p.completed }

  function Advance(st: Story, p: Progress, f: Fact): Progress {
    match RoleOf(st, f)
    case Starts => p.(started := true)
    case Configures => p.(configured := true)
    case Completes => p.(completed := true)
    case Aside => p
  }

  function Reached(st: Story, facts: seq<Fact>, n: nat): Progress
    requires n <= |facts|
  { if n == 0 then NOTHING else Advance(st, Reached(st, facts, n - 1), facts[n - 1]) }

  predicate IsUsage(st: Story, f: Fact) { f.TokenUsage? && f.turn == st.turn }

  /** The thread last named for the turn: by its start request, its configuration or a
      report of its token usage. */
  function LastThread(st: Story, facts: seq<Fact>, n: nat): Option<string>
    requires n <= |facts|
  {
    if n == 0 then None
    else
      var f := facts[n - 1];
      match RoleOf(st, f)
      case Starts => Some(st.thread)
      case Configures => Some(st.config.thread)
      case _ => if IsUsage(st, f) then Some(f.thread) else LastThread(st, facts, n - 1)
  }

  /** The images last counted: by the start request or the configuration. */
  function LastImages(st: Story, facts: seq<Fact>, n: nat): Option<nat>
    requires n <= |facts|
  {
    if n == 0 then None
    else
      match RoleOf(st, facts[n - 1])
      case Starts => Some(st.images)
      case Configures => Some(st.config.images)
      case _ => LastImages(st, facts, n - 1)
  }

  /** With fact `k` all three are there, the fact is one of them or a token usage, and the
      connection and the thread last named are known. */
  predicate Moment(st: Story, s: State, facts: seq<Fact>, k: nat) {
    && k < |facts| && All(Reached(st, facts, k + 1)) && (RoleOf(st, facts[k]) != Aside || IsUsage(st, facts[k]))
    && var b := RunFrom(s, facts, k).state;
       && st.connection in b.connections && LastImages(st, facts, k + 1).Some?
       && LastThread(st, facts, k + 1).Some? && LastThread(st, facts, k + 1).value in b.threadMetadata
  }

  function Content(st: Story, s: State, facts: seq<Fact>, k: nat): Required
    requires st.completion.TurnCompleted? && Moment(st, s, facts, k)
  {
    var b := RunFrom(s, facts, k).state;
    var thread := LastThread(st, facts, k + 1).value;
    Required(thread, st.turn, b.connections[st.connection], b.threadMetadata[thread], st.config.settings,
             LastImages(st, facts, k + 1).value, EndingOf(st.completion))
  }

  /** The content at the first such moment. */
  function Due(st: Story, s: State, facts: seq<Fact>, n: nat): Option<Required>
    requires st.completion.TurnCompleted? && n <= |facts|
  {
    if n == 0 then None
    else if Due(st, s, facts, n - 1).Some? then Due(st, s, facts, n - 1)
    else if Moment(st, s, facts, n - 1) then Some(Content(st, s, facts, n - 1))
    else None
  }

  // ----- what the reducer holds -----

  /** The entry of a turn that has not been reported. */
  ghost predicate Collected(st: Story, t: Turn, p: Progress, thread: Option<string>, images: Option<nat>) {
    && t.connection == (if p.started then Some(st.connection) else None)
    && t.config == (if p.configured then Some(st.config) else None)
    && t.ending == (if p.completed && st.completion.TurnCompleted? then Some(EndingOf(st.completion)) else None)
    && t.thread == thread && t.images == images
  }

  /** Before its report the entry collects the facts; after it, whatever is heard of the
      turn makes an entry that can never be completed. */
  ghost predicate Stage(st: Story, s: State, p: Progress, thread: Option<string>, images: Option<nat>,
                        due: Option<Required>)
  {
    && (!p.started ==> Requested(st, s))
    && match due
       case None => Collected(st, EntryOf(s, st.turn), p, thread, images)
       case Some(_) =>
         var t := EntryOf(s, st.turn);
         All(p) && t.connection == None && t.config == None && t.ending == None
  }

  ghost predicate NoTurnEvent(es: seq<Event>, turn: string) { forall i | 0 <= i < |es| :: !IsTurnEvent(es[i], turn) }

  /** Everything the turn event of this entry needs is there. */
  predicate Complete(s: State, t: Turn) {
    && t.thread.Some? && t.images.Some? && t.config.Some? && t.ending.Some?
    && t.connection.Some? && t.connection.value in s.connections && t.thread.value in s.threadMetadata
  }

  function ContentOf(s: State, turn: string, t: Turn): Required
    requires Complete(s, t)
  {
    Required(t.thread.value, turn, s.connections[t.connection.value], s.threadMetadata[t.thread.value],
             t.config.value.settings, t.images.value, t.ending.value)
  }

  /** What a fact that writes in the turn's entry brings about. */
  lemma EntryStep(st: Story, s: State, f: Fact, t: Turn)
    requires PatchOf(s, f) == Some(Patch(st.turn, t))
    ensures var r := Ingest(s, f);
      if Complete(s, t)
      then EntryOf(r.state, st.turn) == NEW_TURN && |r.events| == 1 && IsTurnEvent(r.events[0], st.turn)
           && r.events[0].required == ContentOf(s, st.turn, t)
      else EntryOf(r.state, st.turn) == t && r.events == []
  {
    assert Put(Take(s, f), st.turn, t).turns[st.turn] == t;
  }

  /** Facts that do not: at most start time and steers of the entry change. */
  lemma OtherStep(st: Story, s: State, f: Fact)
    requires RoleOf(st, f) == Aside && Harmless(st, f) && !IsUsage(st, f)
    ensures var r := Ingest(s, f);
      var t := EntryOf(s, st.turn);
      && NoTurnEvent(r.events, st.turn) && (Requested(st, s) ==> Requested(st, r.state))
      && var u := EntryOf(r.state, st.turn);
         u.(startedAt := t.startedAt, steers := t.steers) == t
  {
    assert PatchOf(s, f).Some? ==> PatchOf(s, f).value.turn != st.turn;
  }

  /** What the fact writes in the entry, if it is one of the four that do. */
  ghost predicate Writes(st: Story, s: State, f: Fact, t: Turn) {
    match RoleOf(st, f)
    case Starts =>
      t == EntryOf(s, st.turn).(connection := Some(st.connection), thread := Some(st.thread), images := Some(st.images))
    case Configures =>
      t == EntryOf(s, st.turn).(
        thread := Some(st.config.thread), images := Some(st.config.images), config := Some(st.config))
    case Completes => st.completion.TurnCompleted? && t == EntryOf(s, st.turn).(ending := Some(EndingOf(st.completion)))
    case Aside => IsUsage(st, f) && t == EntryOf(s, st.turn).(thread := Some(f.thread), usage := Some(f.usage))
  }

  lemma PatchIs(st: Story, s: State, f: Fact) returns (t: Turn)
    requires Wellformed(st) && (RoleOf(st, f) != Aside || IsUsage(st, f))
    requires RoleOf(st, f) == Starts ==> Requested(st, s)
    ensures PatchOf(s, f) == Some(Patch(st.turn, t)) && Writes(st, s, f, t)
    ensures RoleOf(st, f) != Starts && Requested(st, s) ==> Requested(st, Ingest(s, f).state)
  {
    t := PatchOf(s, f).value.entry;
  }

  ghost predicate StageAt(st: Story, s: State, facts: seq<Fact>, n: nat)
    requires st.completion.TurnCompleted? && n <= |facts|
  {
    Stage(st, RunFrom(s, facts, n).state, Reached(st, facts, n), LastThread(st, facts, n), LastImages(st, facts, n),
          Due(st, s, facts, n))
  }

  /** A role that comes again later has not come before. */
  lemma {:induction false} NotYet(st: Story, facts: seq<Fact>, n: nat, i: nat)
    requires Interleaving(st, facts) && n <= i < |facts| && RoleOf(st, facts[i]) != Aside
    ensures Advance(st, Reached(st, facts, n), facts[i]) != Reached(st, facts, n)
  {
    if n > 0 {
      NotYet(st, facts, n - 1, i);
      assert RoleOf(st, facts[n - 1]) != RoleOf(st, facts[i]);
    }
  }

  /** What fact `k` reports about the turn: its event at the first moment, else nothing. */
  ghost predicate ReportsAt(st: Story, s: State, facts: seq<Fact>, k: nat)
    requires st.completion.TurnCompleted? && k < |facts|
  {
    var es := Ingest(RunFrom(s, facts, k).state, facts[k]).events;
    if Due(st, s, facts, k).None? && Moment(st, s, facts, k)
    then |es| == 1 && IsTurnEvent(es[0], st.turn) && es[0].required == Content(st, s, facts, k)
    else NoTurnEvent(es, st.turn)
  }

  lemma {:induction false} JoinStep(st: Story, s: State, facts: seq<Fact>, k: nat)
    requires Wellformed(st) && Interleaving(st, facts) && k < |facts| && StageAt(st, s, facts, k)
    ensures StageAt(st, s, facts, k + 1) && ReportsAt(st, s, facts, k)
  {
    var b, f := RunFrom(s, facts, k).state, facts[k];
    if RoleOf(st, f) != Aside { NotYet(st, facts, k, k); }
    if RoleOf(st, f) != Aside || IsUsage(st, f) {
      var t := PatchIs(st, b, f);
      EntryStep(st, b, f, t);
    } else {
      OtherStep(st, b, f);
    }
  }

  lemma {:induction false} CountNone(es: seq<Event>, turn: string)
    requires NoTurnEvent(es, turn)
    ensures CountTurns(es, turn) == 0
  {
    if es != [] { CountNone(es[..|es| - 1], turn); }
  }

  /** What has been reported about the turn so far: nothing, or the one event that was due. */
  ghost predicate Told(turn: string, es: seq<Event>, due: Option<Required>) {
    && CountTurns(es, turn) == (if due.Some? then 1 else 0)
    && forall i | 0 <= i < |es| && IsTurnEvent(es[i], turn) :: due == Some(es[i].required)
  }

  lemma TellMore(st: Story, s: State, facts: seq<Fact>, k: nat)
    requires st.completion.TurnCompleted? && k < |facts|
    requires Told(st.turn, RunFrom(s, facts, k).events, Due(st, s, facts, k)) && ReportsAt(st, s, facts, k)
    ensures Told(st.turn, RunFrom(s, facts, k + 1).events, Due(st, s, facts, k + 1))
  {
    var before := RunFrom(s, facts, k);
    var es := Ingest(before.state, facts[k]).events;
    OneAtATime(before.state, facts[k]);
    CountsAppend(before.events, es, st.turn, d => true);
    if Due(st, s, facts, k).None? && Moment(st, s, facts, k) {
      assert es[..0] == [];
      CountNone(es[..0], st.turn);
    } else {
      CountNone(es, st.turn);
    }
  }

  // ----- the main results -----

  lemma BeginningStage(st: Story, s: State, facts: seq<Fact>)
    requires Wellformed(st) && Beginning(st, s)
    ensures StageAt(st, s, facts, 0) && Told(st.turn, RunFrom(s, facts, 0).events, Due(st, s, facts, 0))
  {
  }

  /** In every interleaving of the three facts with any others: the turn is reported once
      if a moment has come at which all that its event needs is known, and not at all
      before; the event carries what was last said of thread and images by then. */
  lemma {:induction false} TurnJoins(st: Story, s: State, facts: seq<Fact>, n: nat)
    requires Wellformed(st) && Beginning(st, s) && Interleaving(st, facts) && n <= |facts|
    ensures StageAt(st, s, facts, n)
    ensures Told(st.turn, RunFrom(s, facts, n).events, Due(st, s, facts, n))
  {
    if n == 0 {
      BeginningStage(st, s, facts);
    } else {
      TurnJoins(st, s, facts, n - 1);
      JoinStep(st, s, facts, n - 1);
      TellMore(st, s, facts, n - 1);
    }
  }

  /** A report is due exactly when such a moment has come. */
  lemma {:induction false} DueExactly(st: Story, s: State, facts: seq<Fact>, n: nat)
    requires st.completion.TurnCompleted? && n <= |facts|
    ensures Due(st, s, facts, n).Some? <==> exists k | 0 <= k < n :: Moment(st, s, facts, k)
  {
    if n > 0 { DueExactly(st, s, facts, n - 1); }
  }

  /** The connection and both threads that the turn may be of are known. */
  ghost predicate Known(st: Story, s: State) {
    st.connection in s.connections && st.thread in s.threadMetadata && st.config.thread in s.threadMetadata
  }

  /** Token usage of the turn names one of these threads. */
  predicate UsageFits(st: Story, f: Fact) { IsUsage(st, f) ==> f.thread == st.thread || f.thread == st.config.thread }

  lemma StaysKnown(st: Story, s: State, f: Fact)
    requires Known(st, s)
    ensures Known(st, Ingest(s, f).state)
  {
  }

  lemma {:induction false} AlwaysKnown(st: Story, s: State, facts: seq<Fact>, n: nat)
    requires Known(st, s) && n <= |facts|
    ensures Known(st, RunFrom(s, facts, n).state)
  {
    if n > 0 {
      AlwaysKnown(st, s, facts, n - 1);
      StaysKnown(st, RunFrom(s, facts, n - 1).state, facts[n - 1]);
    }
  }

  lemma {:induction false} NamedThread(st: Story, facts: seq<Fact>, n: nat)
    requires n <= |facts| && forall i | 0 <= i < n :: UsageFits(st, facts[i])
    ensures LastThread(st, facts, n).Some? ==> LastThread(st, facts, n).value in {st.thread, st.config.thread}
    ensures Reached(st, facts, n).started ==> LastThread(st, facts, n).Some? && LastImages(st, facts, n).Some?
  {
    if n > 0 { NamedThread(st, facts, n - 1); }
  }

  /** Then the moment is the arrival of the last of the three. */
  lemma LastIsMoment(st: Story, s: State, facts: seq<Fact>, k: nat)
    requires Known(st, s) && k < |facts| && (forall i | 0 <= i < |facts| :: UsageFits(st, facts[i]))
    requires All(Reached(st, facts, k + 1)) && !All(Reached(st, facts, k))
    ensures Moment(st, s, facts, k)
  {
    AlwaysKnown(st, s, facts, k);
    NamedThread(st, facts, k + 1);
  }

  lemma {:induction false} DueAtTheLast(st: Story, s: State, facts: seq<Fact>, n: nat)
    requires st.completion.TurnCompleted? && Known(st, s) && n <= |facts|
    requires forall i | 0 <= i < |facts| :: UsageFits(st, facts[i])
    ensures Due(st, s, facts, n).Some? <==> All(Reached(st, facts, n))
  {
    if n > 0 {
      DueAtTheLast(st, s, facts, n - 1);
      if All(Reached(st, facts, n)) && !All(Reached(st, facts, n - 1)) { LastIsMoment(st, s, facts, n - 1); }
    }
  }

  /** Once connection and threads are known exactly one event comes out, when the last of
      the three arrives, whether or not the facts agree. */
  lemma {:induction false} ReportedAtTheLast(st: Story, s: State, facts: seq<Fact>, n: nat)
    requires Wellformed(st) && Beginning(st, s) && Interleaving(st, facts) && n <= |facts| && Known(st, s)
    requires forall i | 0 <= i < |facts| :: UsageFits(st, facts[i])
    ensures CountTurns(RunFrom(s, facts, n).events, st.turn) == (if All(Reached(st, facts, n)) then 1 else 0)
  {
    TurnJoins(st, s, facts, n);
    DueAtTheLast(st, s, facts, n);
  }

  /** Without another token usage the last of the three is the only chance. */
  lemma OnlyChance(st: Story, s: State, facts: seq<Fact>, k: nat, i: nat)
    requires Interleaving(st, facts) && k < |facts| && !All(Reached(st, facts, k)) && All(Reached(st, facts, k + 1))
    requires Moment(st, s, facts, i) && (i > k ==> !IsUsage(st, facts[i]))
    ensures i == k
  {
    if i < k {
      ReachedGrows(st, facts, i + 1, k);
    } else if i > k {
      ReachedGrows(st, facts, k + 1, i);
      NotYet(st, facts, i, i);
    }
  }

  /** If the thread named last is unknown when the last of the three arrives, nothing is
      reported then, nor until a token usage of the turn names a known one. */
  lemma {:induction false} UnknownThreadIsSilent(st: Story, s: State, facts: seq<Fact>, k: nat, n: nat)
    requires Wellformed(st) && Beginning(st, s) && Interleaving(st, facts) && k < n <= |facts|
    requires !All(Reached(st, facts, k)) && All(Reached(st, facts, k + 1))
    requires LastThread(st, facts, k + 1).Some? ==>
      LastThread(st, facts, k + 1).value !in RunFrom(s, facts, k).state.threadMetadata
    requires forall i | k < i < n :: !IsUsage(st, facts[i])
    ensures CountTurns(RunFrom(s, facts, n).events, st.turn) == 0
  {
    TurnJoins(st, s, facts, n);
    DueExactly(st, s, facts, n);
    forall i | 0 <= i < n && Moment(st, s, facts, i) ensures i == k { OnlyChance(st, s, facts, k, i); }
    assert !Moment(st, s, facts, k);
  }

  lemma {:induction false} ReachedGrows(st: Story, facts: seq<Fact>, i: nat, j: nat)
    requires i <= j <= |facts|
    ensures All(Reached(st, facts, i)) ==> All(Reached(st, facts, j))
  {
    if i < j { ReachedGrows(st, facts, i, j - 1); }
  }

  // ----- when the order matters -----

  /** The configuration names the thread and the images of the request. */
  ghost predicate Agrees(st: Story) { st.config.thread == st.thread && st.config.images == st.images }

  /** The fact does not announce the turn's connection or threads anew. */
  predicate Steady(st: Story, f: Fact) {
    && (f.Initialize? ==> f.connection != st.connection)
    && (f.ThreadResponse? ==> f.thread != st.thread && f.thread != st.config.thread)
  }

  /** An interleaving in which all three come, and connection and threads stay the same. */
  ghost predicate Telling(st: Story, facts: seq<Fact>) {
    && Interleaving(st, facts) && All(Reached(st, facts, |facts|))
    && forall i | 0 <= i < |facts| :: UsageFits(st, facts[i]) && Steady(st, facts[i])
  }

  ghost predicate SameAnnounced(st: Story, s: State, t: State)
    requires Known(st, s)
  {
    && Known(st, t) && t.connections[st.connection] == s.connections[st.connection]
    && t.threadMetadata[st.thread] == s.threadMetadata[st.thread]
    && t.threadMetadata[st.config.thread] == s.threadMetadata[st.config.thread]
  }

  lemma SteadyStep(st: Story, s: State, f: Fact)
    requires Known(st, s) && Steady(st, f)
    ensures SameAnnounced(st, s, Ingest(s, f).state)
  {
  }

  lemma {:induction false} SteadyRun(st: Story, s: State, facts: seq<Fact>, n: nat)
    requires Known(st, s) && n <= |facts| && forall i | 0 <= i < |facts| :: Steady(st, facts[i])
    ensures SameAnnounced(st, s, RunFrom(s, facts, n).state)
  {
    if n > 0 {
      SteadyRun(st, s, facts, n - 1);
      SteadyStep(st, RunFrom(s, facts, n - 1).state, facts[n - 1]);
    }
  }

  /** What the turn reports if its thread and images are these. */
  function Expected(st: Story, s: State, thread: string, images: nat): Required
    requires st.completion.TurnCompleted? && st.connection in s.connections && thread in s.threadMetadata
  {
    Required(thread, st.turn, s.connections[st.connection], s.threadMetadata[thread], st.config.settings, images,
             EndingOf(st.completion))
  }

  lemma {:induction false} LastThree(st: Story, facts: seq<Fact>, n: nat) returns (k: nat)
    requires n <= |facts| && All(Reached(st, facts, n))
    ensures k < n && !All(Reached(st, facts, k)) && All(Reached(st, facts, k + 1))
  {
    if All(Reached(st, facts, n - 1)) { k := LastThree(st, facts, n - 1); } else { k := n - 1; }
  }

  lemma {:induction false} DueStays(st: Story, s: State, facts: seq<Fact>, i: nat, j: nat)
    requires st.completion.TurnCompleted? && i <= j <= |facts| && Due(st, s, facts, i).Some?
    ensures Due(st, s, facts, j) == Due(st, s, facts, i)
  {
    if i < j { DueStays(st, s, facts, i, j - 1); }
  }

  lemma SteadyContent(st: Story, s: State, facts: seq<Fact>, k: nat)
    requires st.completion.TurnCompleted? && Known(st, s) && Moment(st, s, facts, k)
    requires forall i | 0 <= i < |facts| :: UsageFits(st, facts[i]) && Steady(st, facts[i])
    ensures var thread := LastThread(st, facts, k + 1).value;
      && thread in s.threadMetadata
      && Content(st, s, facts, k) == Expected(st, s, thread, LastImages(st, facts, k + 1).value)
  {
    SteadyRun(st, s, facts, k);
    NamedThread(st, facts, k + 1);
  }

  /** In every such interleaving the reported thread and images are those last written
      when the last of the three arrives. */
  lemma {:induction false} LastWriterWins(st: Story, s: State, facts: seq<Fact>) returns (k: nat)
    requires Wellformed(st) && Beginning(st, s) && Known(st, s) && Telling(st, facts)
    ensures k < |facts| && !All(Reached(st, facts, k)) && All(Reached(st, facts, k + 1))
    ensures var thread, images := LastThread(st, facts, k + 1), LastImages(st, facts, k + 1);
      && thread.Some? && images.Some? && thread.value in s.threadMetadata
      && Due(st, s, facts, |facts|) == Some(Expected(st, s, thread.value, images.value))
    ensures Told(st.turn, RunFrom(s, facts, |facts|).events, Due(st, s, facts, |facts|))
  {
    k := LastThree(st, facts, |facts|);
    LastIsMoment(st, s, facts, k);
    DueAtTheLast(st, s, facts, k);
    DueStays(st, s, facts, k + 1, |facts|);
    SteadyContent(st, s, facts, k);
    TurnJoins(st, s, facts, |facts|);
  }

  lemma {:induction false} AgreedWriters(st: Story, facts: seq<Fact>, n: nat)
    requires Agrees(st) && n <= |facts| && forall i | 0 <= i < n :: UsageFits(st, facts[i])
    ensures LastThread(st, facts, n) in {None, Some(st.thread)} && LastImages(st, facts, n) in {None, Some(st.images)}
  {
    if n > 0 { AgreedWriters(st, facts, n - 1); }
  }

  /** If the facts agree every interleaving reports the same. */
  lemma {:induction false} OrderDoesNotMatter(st: Story, s: State, facts: seq<Fact>)
    requires Wellformed(st) && Beginning(st, s) && Known(st, s) && Agrees(st) && Telling(st, facts)
    ensures Due(st, s, facts, |facts|) == Some(Expected(st, s, st.thread, st.images))
  {
    var k := LastWriterWins(st, s, facts);
    AgreedWriters(st, facts, k + 1);
  }

  function InOrder(st: Story, startFirst: bool): (facts: seq<Fact>) {
    var start := StartResponse(st.connection, st.id, st.turn);
    if startFirst then [start, ResolvedConfig(st.config), st.completion]
    else [ResolvedConfig(st.config), start, st.completion]
  }

  lemma InOrderTells(st: Story, startFirst: bool)
    requires Wellformed(st)
    ensures var facts := InOrder(st, startFirst);
      && |facts| == 3 && Telling(st, facts) && !All(Reached(st, facts, 2))
      && LastThread(st, facts, 3) == Some(if startFirst then st.config.thread else st.thread)
      && LastImages(st, facts, 3) == Some(if startFirst then st.config.images else st.images)
  {
    var facts := InOrder(st, startFirst);
    assert RoleOf(st, facts[2]) == Completes;
    assert RoleOf(st, facts[1]) == if startFirst then Configures else Starts;
    assert RoleOf(st, facts[0]) == if startFirst then Starts else Configures;
    assert Reached(st, facts, 1) == NOTHING.(started := startFirst, configured := !startFirst);
    assert Reached(st, facts, 2) == Progress(true, true, false);
    assert Reached(st, facts, 3) == Progress(true, true, true);
    assert LastThread(st, facts, 3) == LastThread(st, facts, 2);
    assert LastImages(st, facts, 3) == LastImages(st, facts, 2);
  }

  lemma InOrderReports(st: Story, s: State, startFirst: bool)
    requires Wellformed(st) && Beginning(st, s) && Known(st, s)
    ensures var facts := InOrder(st, startFirst);
      && |facts| == 3 && Telling(st, facts)
      && Due(st, s, facts, 3) == Some(Expected(st, s, if startFirst then st.config.thread else st.thread,
                                               if startFirst then st.config.images else st.images))
  {
    var facts := InOrder(st, startFirst);
    InOrderTells(st, startFirst);
    var k := LastWriterWins(st, s, facts);
    if k < 2 { ReachedGrows(st, facts, k + 1, 2); }
  }

  /** Exactly then: the facts agree if and only if all interleavings report the same. */
  lemma {:induction false} OrderMattersUnlessAgreed(st: Story, s: State)
    requires Wellformed(st) && Beginning(st, s) && Known(st, s)
    ensures Agrees(st) <==>
      forall facts, others | Telling(st, facts) && Telling(st, others) ::
        Due(st, s, facts, |facts|) == Due(st, s, others, |others|)
  {
    if Agrees(st) {
      forall facts, others | Telling(st, facts) && Telling(st, others)
        ensures Due(st, s, facts, |facts|) == Due(st, s, others, |others|)
      {
        OrderDoesNotMatter(st, s, facts);
        OrderDoesNotMatter(st, s, others);
      }
    } else {
      InOrderReports(st, s, true);
      InOrderReports(st, s, false);
    }
  }

  /** Between two given interleavings: the reports are the same if and only if the same
      thread and the same images were last written. */
  lemma {:induction false} ReportsDiffer(st: Story, s: State, facts: seq<Fact>, others: seq<Fact>) returns (i: nat, j: nat)
    requires Wellformed(st) && Beginning(st, s) && Known(st, s) && Telling(st, facts) && Telling(st, others)
    ensures i < |facts| && All(Reached(st, facts, i + 1)) && !All(Reached(st, facts, i))
    ensures j < |others| && All(Reached(st, others, j + 1)) && !All(Reached(st, others, j))
    ensures Due(st, s, facts, |facts|) == Due(st, s, others, |others|) <==>
      && LastThread(st, facts, i + 1) == LastThread(st, others, j + 1)
      && LastImages(st, facts, i + 1) == LastImages(st, others, j + 1)
  {
    i := LastWriterWins(st, s, facts);
    j := LastWriterWins(st, s, others);
  }

  const IMAGES_DIFFER := Story(7, IntegerId(1), "turn", "thread", 1, Config("turn", "thread", 2, ""),
                               TurnCompleted("turn", Completed, None, Some(5), None))
  const ASKED := State(
    map[(7, IntegerId(1)) := TurnStart("thread", 1)], map[], map[7 := Connection("cli", "rust")],
    map["thread" := 7], map["thread" := ThreadMeta(None, New, None, None)])

  /** A turn whose request has one image and whose configuration has two: which number is
      reported depends on which of the two came last. */
  lemma TwoOrdersTwoReports()
    ensures Wellformed(IMAGES_DIFFER) && Beginning(IMAGES_DIFFER, ASKED) && Known(IMAGES_DIFFER, ASKED)
    ensures forall startFirst: bool ::
      var facts := InOrder(IMAGES_DIFFER, startFirst);
      var due := Due(IMAGES_DIFFER, ASKED, facts, |facts|);
      && due.Some? && due.value.images == (if startFirst then 2 else 1)
      && Told("turn", RunFrom(ASKED, facts, |facts|).events, due)
  {
    forall startFirst: bool
      ensures var facts := InOrder(IMAGES_DIFFER, startFirst);
        var due := Due(IMAGES_DIFFER, ASKED, facts, |facts|);
        && due.Some? && due.value.images == (if startFirst then 2 else 1)
        && Told("turn", RunFrom(ASKED, facts, |facts|).events, due)
    {
      InOrderReports(IMAGES_DIFFER, ASKED, startFirst);
      TurnJoins(IMAGES_DIFFER, ASKED, InOrder(IMAGES_DIFFER, startFirst), 3);
    }
  }

  /** A turn is not retried when its connection becomes known late: all three facts may be
      there, and no event comes out until something else is heard of the turn. */
  lemma LateConnectionNotRetried(st: Story, s: State, info: Connection, images: nat, usage: nat)
    requires Wellformed(st) && st.connection !in s.connections && st.thread in s.threadMetadata
    requires Collected(st, EntryOf(s, st.turn), Progress(true, true, true), Some(st.thread), Some(images))
    ensures var late := Ingest(s, Initialize(st.connection, info));
      && late.events == [] && late.state.turns == s.turns
      && var es := Ingest(late.state, TokenUsage(st.turn, st.thread, usage)).events;
         |es| == 1 && IsTurnEvent(es[0], st.turn)
  {
    var late := Ingest(s, Initialize(st.connection, info)).state;
    var f := TokenUsage(st.turn, st.thread, usage);
    EntryStep(st, late, f, EntryOf(late, st.turn).(thread := Some(st.thread), usage := Some(usage)));
  }
}
