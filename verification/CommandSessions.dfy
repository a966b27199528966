/** The table of running `command/exec` processes, shared by the calls that start,
    control and end them, over every interleaving of their steps. */
module CommandSessions {
  import opened Prelude

  datatype ProcessId = Generated(n: nat) | Client(name: string)
  datatype Key = Key(connection: nat, process: ProcessId)
  datatype Control = Write | Resize | Terminate

  /** Registered and being spawned; running; past its control loop; cleaned up. */
  datatype Phase = Starting | Running | Exited | Dead

  /** A command. `active` commands have a control channel, the others run in the Windows
      sandbox. A command is `registered` if `start` put it in the table. */
  datatype Task = Task(key: Key, active: bool, registered: bool, phase: Phase, queue: seq<Control>, terminated: bool)

  const CHANNEL_CAPACITY := 32

  /** A table entry holds the sender of a task's channel, so it is written as that task's
      number. `closing` are the senders whose `Terminate` a closing connection has yet to
      send, `controls` the requests that have looked up a sender and not yet sent. */
  datatype State = State(
    sessions: map<Key, nat>, tasks: seq<Task>, nextGenerated: nat,
    closed: set<nat>, closing: seq<nat>, controls: seq<(nat, Control)>)

  const INITIAL := State(map[], [], 1, {}, [], [])

  predicate Live(t: Task) { t.phase == Starting || t.phase == Running }

  datatype Action =
    | Start(connection: nat, name: Option<string>, active: bool)
    | Spawned(task: nat)
    | SpawnFailed(task: nat)
    | Look(key: Key, control: Control)
    | Deliver(index: nat)
    | Receive(task: nat)
    | SendersGone(task: nat)
    | Expire(task: nat)
    | Exit(task: nat)
    | Cleanup(task: nat)
    | Close(connection: nat)
    | SendTerminate(index: nat)

  predicate InPhase(s: State, t: nat, p: Phase) { t < |s.tasks| && s.tasks[t].phase == p }

  /** The receiver is gone once the control loop has ended. */
  predicate CanPush(s: State, t: nat) {
    t < |s.tasks| && (Live(s.tasks[t]) ==> |s.tasks[t].queue| < CHANNEL_CAPACITY)
  }

  predicate NoSender(s: State, t: nat) {
    t !in s.sessions.Values && t !in s.closing && forall i | 0 <= i < |s.controls| :: s.controls[i].0 != t
  }

  predicate Enabled(s: State, a: Action) {
    match a
    case Start(_, _, _) => true
    case Spawned(t) => InPhase(s, t, Starting)
    case SpawnFailed(t) => InPhase(s, t, Starting)
    case Look(_, _) => true
    case Deliver(i) => i < |s.controls| && CanPush(s, s.controls[i].0)
    case Receive(t) => InPhase(s, t, Running) && s.tasks[t].queue != []
    case SendersGone(t) => InPhase(s, t, Running) && s.tasks[t].queue == [] && NoSender(s, t)
    case Expire(t) => InPhase(s, t, Running)
    case Exit(t) => InPhase(s, t, Running)
    case Cleanup(t) => InPhase(s, t, Exited)
    case Close(_) => true
    case SendTerminate(i) => i < |s.closing| && CanPush(s, s.closing[i])
  }

  function Push(t: Task, c: Control): Task { if Live(t) then t.(queue := t.queue + [c]) else t }

  function SetTask(s: State, t: nat, task: Task): State
    requires t < |s.tasks|
  { s.(tasks := s.tasks[t := task]) }

  function Drop<T>(q: seq<T>, i: nat): seq<T>
    requires i < |q|
  { q[..i] + q[i + 1..] }

  function KeysOf(sessions: map<Key, nat>, connection: nat): set<Key> {
    set k | k in sessions && k.connection == connection
  }

  function Begin(s: State, connection: nat, name: Option<string>, active: bool): State {
    match name
    case Some(n) =>
      var key := Key(connection, Client(n));
      if key in s.sessions then s
      else s.(sessions := s.sessions[key := |s.tasks|],
              tasks := s.tasks + [Task(key, active, true, if active then Starting else Running, [], false)])
    case None =>
      var key := Key(connection, Generated(s.nextGenerated));
      var t := Task(key, active, active, if active then Starting else Running, [], false);
      var s' := s.(nextGenerated := s.nextGenerated + 1);
      if active && key in s.sessions then s'
      else s'.(sessions := if active then s.sessions[key := |s.tasks|] else s.sessions, tasks := s.tasks + [t])
  }

  /** The commands behind the first `n` keys that have a control channel, key by key. */
  function Told(s: State, keys: seq<Key>, n: nat): seq<nat>
    requires n <= |keys|
  {
    if n == 0 then []
    else
      var k := keys[n - 1];
      Told(s, keys, n - 1) +
      if k in s.sessions && s.sessions[k] < |s.tasks| && s.tasks[s.sessions[k]].active then [s.sessions[k]] else []
  }

  /** The keys of a connection, each once, in some order. */
  ghost predicate Lists(keys: seq<Key>, sessions: map<Key, nat>, connection: nat) {
    && (forall i, j | 0 <= i < j < |keys| :: keys[i] != keys[j])
    && forall k :: k in keys <==> k in KeysOf(sessions, connection)
  }

  /** The commands of a connection that can be told to terminate, in some order and once for
      each entry. */
  ghost predicate ToTerminate(s: State, connection: nat, q: seq<nat>) {
    exists keys :: Lists(keys, s.sessions, connection) && q == Told(s, keys, |keys|)
  }

  lemma {:induction false} ToldAre(s: State, keys: seq<Key>, n: nat, t: nat)
    requires n <= |keys|
    ensures t in Told(s, keys, n) <==>
      exists i | 0 <= i < n :: keys[i] in s.sessions && s.sessions[keys[i]] == t && t < |s.tasks| && s.tasks[t].active
  {
    if n > 0 { ToldAre(s, keys, n - 1, t); }
  }

  lemma {:induction false} ToTerminateAre(s: State, connection: nat, q: seq<nat>, t: nat)
    requires ToTerminate(s, connection, q)
    ensures t in q <==>
      exists k :: k in KeysOf(s.sessions, connection) && s.sessions[k] == t && t < |s.tasks| && s.tasks[t].active
  {
    var keys :| Lists(keys, s.sessions, connection) && q == Told(s, keys, |keys|);
    ToldAre(s, keys, |keys|, t);
    if k :| k in KeysOf(s.sessions, connection) && s.sessions[k] == t && t < |s.tasks| && s.tasks[t].active {
      var i :| 0 <= i < |keys| && keys[i] == k;
    }
    if i :| 0 <= i < |keys| && keys[i] in s.sessions && s.sessions[keys[i]] == t && t < |s.tasks| && s.tasks[t].active {
      assert keys[i] in keys;
    }
  }

  /** One step. Removals are by key, as in the program. */
  ghost predicate Step(s: State, a: Action, s': State) {
    && Enabled(s, a)
    && match a
       case Start(c, n, active) => s' == Begin(s, c, n, active)
       case Spawned(t) => s' == SetTask(s, t, s.tasks[t].(phase := Running))
       case SpawnFailed(t) =>
         s' == SetTask(s, t, s.tasks[t].(phase := Dead)).(sessions := s.sessions - {s.tasks[t].key})
       case Look(k, c) =>
         s' == if k in s.sessions && s.sessions[k] < |s.tasks| && s.tasks[s.sessions[k]].active
               then s.(controls := s.controls + [(s.sessions[k], c)]) else s
       case Deliver(i) =>
         var (t, c) := s.controls[i];
         s' == SetTask(s, t, Push(s.tasks[t], c)).(controls := Drop(s.controls, i))
       case Receive(t) =>
         s' == SetTask(s, t, s.tasks[t].(queue := s.tasks[t].queue[1..],
                                         terminated := s.tasks[t].terminated || s.tasks[t].queue[0] == Terminate))
       case SendersGone(t) => s' == SetTask(s, t, s.tasks[t].(terminated := true))
       case Expire(t) => s' == SetTask(s, t, s.tasks[t].(terminated := true))
       case Exit(t) => s' == SetTask(s, t, s.tasks[t].(phase := Exited, queue := []))
       case Cleanup(t) =>
         s' == SetTask(s, t, s.tasks[t].(phase := Dead)).(sessions := s.sessions - {s.tasks[t].key})
       case Close(c) =>
         && s'.(closing := s.closing) == s.(closed := s.closed + {c}, sessions := s.sessions - KeysOf(s.sessions, c))
         && exists q :: ToTerminate(s, c, q) && s'.closing == s.closing + q
       case SendTerminate(i) =>
         var t := s.closing[i];
         s' == SetTask(s, t, Push(s.tasks[t], Terminate)).(closing := Drop(s.closing, i))
  }

  /** Steps taken one after the other. */
  ghost predicate Steps(states: seq<State>, actions: seq<Action>) {
    |states| == |actions| + 1 && forall i | 0 <= i < |actions| :: Step(states[i], actions[i], states[i + 1])
  }

  /** A run, as the states passed through and the actions taken between them. */
  ghost predicate Run(states: seq<State>, actions: seq<Action>) {
    Steps(states, actions) && states[0] == INITIAL
  }

  // ----- what every run keeps -----

  /** Entries belong to the task whose key they stand under. */
  ghost predicate TableSound(s: State) {
    forall k | k in s.sessions ::
      var t := s.sessions[k];
      t < |s.tasks| && s.tasks[t].key == k && s.tasks[t].registered && s.tasks[t].phase != Dead
  }

  predicate Listed(s: State, t: nat) {
    t < |s.tasks| && s.tasks[t].registered && s.tasks[t].phase != Dead && s.tasks[t].key.connection !in s.closed
  }

  /** Registered commands of open connections are in the table. */
  ghost predicate OpenComplete(s: State) {
    forall t | 0 <= t < |s.tasks| && Listed(s, t) ::
      s.tasks[t].key in s.sessions && s.sessions[s.tasks[t].key] == t
  }

  /** Generated ids are handed out once; commands kept out of the table have such an id. */
  ghost predicate IdsFresh(s: State) {
    && (forall t | 0 <= t < |s.tasks| :: s.tasks[t].key.process.Generated? ==> s.tasks[t].key.process.n < s.nextGenerated)
    && (forall t | 0 <= t < |s.tasks| :: !s.tasks[t].registered ==> s.tasks[t].key.process.Generated? && !s.tasks[t].active)
    && (forall t, u | 0 <= t < u < |s.tasks| && s.tasks[t].key == s.tasks[u].key :: !s.tasks[t].key.process.Generated?)
  }

  ghost predicate ClosingKnown(s: State) { forall t | t in s.closing :: t < |s.tasks| }

  ghost predicate Base(s: State) { TableSound(s) && OpenComplete(s) && IdsFresh(s) && ClosingKnown(s) }

  lemma {:induction false} AddTaskBase(s: State, task: Task, next: nat, s': State)
    requires Base(s) && next >= s.nextGenerated && task.phase != Dead && task.key !in s.sessions
    requires !task.registered ==> task.key.process.Generated? && !task.active
    requires task.key.process.Generated? ==> s.nextGenerated <= task.key.process.n < next
    requires s' == s.(tasks := s.tasks + [task], nextGenerated := next,
                      sessions := if task.registered then s.sessions[task.key := |s.tasks|] else s.sessions)
    ensures Base(s')
  {
    assert s'.tasks[|s.tasks|] == task && forall t | 0 <= t < |s.tasks| :: s'.tasks[t] == s.tasks[t];
    forall t | 0 <= t < |s'.tasks| && Listed(s', t)
      ensures s'.tasks[t].key in s'.sessions && s'.sessions[s'.tasks[t].key] == t
    {
      assert t < |s.tasks| ==> Listed(s, t);
    }
  }

  lemma {:induction false} BeginBase(s: State, c: nat, name: Option<string>, active: bool)
    requires Base(s)
    ensures Base(Begin(s, c, name, active))
  {
    var s' := Begin(s, c, name, active);
    if |s'.tasks| > |s.tasks| { AddTaskBase(s, s'.tasks[|s.tasks|], s'.nextGenerated, s'); }
  }

  /** Steps that change one task's phase or channel, and not its identity, nor the table. */
  lemma TaskStepBase(s: State, t: nat, task: Task, s': State)
    requires Base(s) && t < |s.tasks|
    requires s'.(closing := s.closing, controls := s.controls) == SetTask(s, t, task)
    requires task.key == s.tasks[t].key && task.active == s.tasks[t].active && task.registered == s.tasks[t].registered
    requires task.phase != Dead && s.tasks[t].phase != Dead
    requires forall u | u in s'.closing :: u in s.closing
    ensures Base(s')
  {
    assert forall u | 0 <= u < |s.tasks| && u != t :: s'.tasks[u] == s.tasks[u];
  }

  lemma ListsStepBase(s: State, s': State)
    requires Base(s) && s'.(closing := s.closing, controls := s.controls) == s
    requires forall u | u in s'.closing :: u in s.closing
    ensures Base(s')
  {
  }

  lemma RemovalBase(s: State, t: nat, s': State)
    requires Base(s) && t < |s.tasks| && s.tasks[t].phase != Dead
    requires s' == SetTask(s, t, s.tasks[t].(phase := Dead)).(sessions := s.sessions - {s.tasks[t].key})
    ensures Base(s')
  {
    assert forall u | 0 <= u < |s.tasks| && u != t :: s'.tasks[u] == s.tasks[u];
    forall u | 0 <= u < |s'.tasks| && Listed(s', u)
      ensures s'.tasks[u].key in s'.sessions && s'.sessions[s'.tasks[u].key] == u
    {
      assert u != t && Listed(s, u) && s.sessions[s.tasks[u].key] == u;
    }
  }

  lemma CloseBase(s: State, c: nat, q: seq<nat>, s': State)
    requires Base(s) && ToTerminate(s, c, q)
    requires s' == s.(closed := s.closed + {c}, sessions := s.sessions - KeysOf(s.sessions, c), closing := s.closing + q)
    ensures Base(s')
  {
    forall t | t in q ensures t < |s.tasks| { ToTerminateAre(s, c, q, t); }
    forall t | 0 <= t < |s.tasks| && Listed(s', t)
      ensures s.tasks[t].key in s'.sessions && s'.sessions[s.tasks[t].key] == t
    {
      assert Listed(s, t) && s.tasks[t].key in s.sessions;
    }
  }

  lemma DropKeeps<T>(q: seq<T>, i: nat)
    requires i < |q|
    ensures forall x | x in q && x != q[i] :: x in Drop(q, i)
    ensures forall x | x in Drop(q, i) :: x in q
  {
    forall x | x in q && x != q[i] ensures x in Drop(q, i) {
      var j :| 0 <= j < |q| && q[j] == x;
      assert j < i ==> Drop(q, i)[j] == x;
      assert j > i ==> Drop(q, i)[j - 1] == x;
    }
  }

  lemma DeliverBase(s: State, i: nat, s': State)
    requires Base(s) && Step(s, Deliver(i), s')
    ensures Base(s')
  {
    var t := s.controls[i].0;
    if Live(s.tasks[t]) {
      TaskStepBase(s, t, Push(s.tasks[t], s.controls[i].1), s');
    } else {
      assert s.tasks[t := s.tasks[t]] == s.tasks;
      ListsStepBase(s, s');
    }
  }

  lemma SendTerminateBase(s: State, i: nat, s': State)
    requires Base(s) && Step(s, SendTerminate(i), s')
    ensures Base(s')
  {
    var t := s.closing[i];
    DropKeeps(s.closing, i);
    if Live(s.tasks[t]) {
      TaskStepBase(s, t, Push(s.tasks[t], Terminate), s');
    } else {
      assert s.tasks[t := s.tasks[t]] == s.tasks;
      ListsStepBase(s, s');
    }
  }

  lemma {:induction false} StepKeepsBase(s: State, a: Action, s': State)
    requires Base(s) && Step(s, a, s')
    ensures Base(s')
  {
    match a
    case Start(c, n, active) => BeginBase(s, c, n, active);
    case Spawned(t) => TaskStepBase(s, t, s.tasks[t].(phase := Running), s');
    case SpawnFailed(t) => RemovalBase(s, t, s');
    case Look(k, c) => ListsStepBase(s, s');
    case Deliver(i) => DeliverBase(s, i, s');
    case Receive(t) => TaskStepBase(s, t, s'.tasks[t], s');
    case SendersGone(t) => TaskStepBase(s, t, s.tasks[t].(terminated := true), s');
    case Expire(t) => TaskStepBase(s, t, s.tasks[t].(terminated := true), s');
    case Exit(t) => TaskStepBase(s, t, s.tasks[t].(phase := Exited, queue := []), s');
    case Cleanup(t) => RemovalBase(s, t, s');
    case Close(c) =>
      var q :| ToTerminate(s, c, q) && s'.closing == s.closing + q;
      CloseBase(s, c, q, s');
    case SendTerminate(i) => SendTerminateBase(s, i, s');
  }

  lemma {:induction false} RunBase(states: seq<State>, actions: seq<Action>, i: nat)
    requires Run(states, actions) && i < |states|
    ensures Base(states[i])
  {
    if i > 0 {
      RunBase(states, actions, i - 1);
      StepKeepsBase(states[i - 1], actions[i - 1], states[i]);
    }
  }

  // ----- who owns a key -----

  /** A key has at most one command that is not cleaned up. */
  ghost predicate OneOwner(s: State) {
    forall t, u | 0 <= t < u < |s.tasks| && s.tasks[t].key == s.tasks[u].key ::
      s.tasks[t].phase == Dead || s.tasks[u].phase == Dead
  }

  /** The key is in the table, or every command that had it is cleaned up. */
  ghost predicate FreshKey(s: State, key: Key) {
    key in s.sessions || forall t | 0 <= t < |s.tasks| && s.tasks[t].key == key :: s.tasks[t].phase == Dead
  }

  /** A start does not take, for a new command, the key of one that is not cleaned up. */
  ghost predicate Fresh(s: State, a: Action) {
    a.Start? && a.name.Some? ==> FreshKey(s, Key(a.connection, Client(a.name.value)))
  }

  /** What a step does to the commands: one more, or another phase for one. */
  lemma StepTasks(s: State, a: Action, s': State)
    requires Step(s, a, s')
    ensures |s.tasks| <= |s'.tasks| <= |s.tasks| + 1
    ensures forall t | 0 <= t < |s.tasks| ::
      s'.tasks[t].key == s.tasks[t].key && (s.tasks[t].phase == Dead ==> s'.tasks[t].phase == Dead)
    ensures |s'.tasks| > |s.tasks| ==> a.Start? && s' == Begin(s, a.connection, a.name, a.active)
  {
  }

  lemma FreshKeepsOwner(s: State, a: Action, s': State)
    requires Base(s) && OneOwner(s) && Step(s, a, s') && Fresh(s, a)
    ensures OneOwner(s')
  {
    StepTasks(s, a, s');
    if |s'.tasks| > |s.tasks| {
      var key := s'.tasks[|s.tasks|].key;
      forall t | 0 <= t < |s.tasks| && s.tasks[t].key == key ensures s.tasks[t].phase == Dead {
        assert a.name.Some? ==> FreshKey(s, key);
      }
    }
  }

  lemma ReuseBreaksOwner(s: State, a: Action, s': State)
    requires Step(s, a, s') && !Fresh(s, a)
    ensures !OneOwner(s')
  {
    var key := Key(a.connection, Client(a.name.value));
    var t :| 0 <= t < |s.tasks| && s.tasks[t].key == key && s.tasks[t].phase != Dead;
    assert s'.tasks[|s.tasks|].key == key && s'.tasks[t] == s.tasks[t];
  }

  lemma {:induction false} FreshRun(states: seq<State>, actions: seq<Action>, i: nat)
    requires Run(states, actions) && i < |states| && forall j | 0 <= j < i :: Fresh(states[j], actions[j])
    ensures OneOwner(states[i])
  {
    if i > 0 {
      FreshRun(states, actions, i - 1);
      RunBase(states, actions, i - 1);
      FreshKeepsOwner(states[i - 1], actions[i - 1], states[i]);
    }
  }

  /** Over every run: each key is owned by at most one command that is not cleaned up if and
      only if no start takes the key of such a command. */
  lemma OwnershipExactly(states: seq<State>, actions: seq<Action>)
    requires Run(states, actions)
    ensures (forall i | 0 <= i < |states| :: OneOwner(states[i]))
      <==> (forall i | 0 <= i < |actions| :: Fresh(states[i], actions[i]))
  {
    if forall i | 0 <= i < |actions| :: Fresh(states[i], actions[i]) {
      forall i | 0 <= i < |states| ensures OneOwner(states[i]) { FreshRun(states, actions, i); }
    } else {
      var i :| 0 <= i < |actions| && !Fresh(states[i], actions[i]);
      ReuseBreaksOwner(states[i], actions[i], states[i + 1]);
    }
  }

  /** Only a closed connection can take such a key. */
  lemma OpenIsFresh(s: State, a: Action)
    requires Base(s) && a.Start? && a.connection !in s.closed
    ensures Fresh(s, a)
  {
  }

  /** An entry found at a command's key is its own. */
  lemma OwnEntry(s: State, t: nat)
    requires TableSound(s) && OneOwner(s) && t < |s.tasks| && s.tasks[t].phase != Dead
    ensures s.tasks[t].key in s.sessions ==> s.sessions[s.tasks[t].key] == t
  {
    if s.tasks[t].key in s.sessions {
      var u := s.sessions[s.tasks[t].key];
      assert s.tasks[u].key == s.tasks[t].key;
    }
  }

  /** While starts are fresh no step takes another command's entry away: an entry disappears
      only when its own command is cleaned up or its own connection is closed. */
  lemma EntriesAreKept(states: seq<State>, actions: seq<Action>, i: nat, k: Key)
    requires Run(states, actions) && i < |actions| && k in states[i].sessions
    requires forall j | 0 <= j < i :: Fresh(states[j], actions[j])
    ensures var t := states[i].sessions[k];
      (k in states[i + 1].sessions && states[i + 1].sessions[k] == t)
      || actions[i] == Cleanup(t) || actions[i] == SpawnFailed(t) || actions[i] == Close(k.connection)
  {
    var s, s' := states[i], states[i + 1];
    RunBase(states, actions, i);
    FreshRun(states, actions, i);
    assert Step(s, actions[i], s');
    match actions[i]
    case Cleanup(u) => OwnEntry(s, u);
    case SpawnFailed(u) => OwnEntry(s, u);
    case _ =>
  }

  /** ... and after a start that is not fresh the older command's next steps, at most two,
      can take the newer one's entry away while that is alive. */
  lemma ReuseCanLoseEntry(s: State, a: Action, s': State) returns (states: seq<State>, actions: seq<Action>)
    requires Step(s, a, s') && !Fresh(s, a)
    ensures Steps(states, actions) && states[0] == s'
    ensures var last, u := states[|states| - 1], |s.tasks|;
      && |s'.tasks| == u + 1 && s'.tasks[u].key in s'.sessions && s'.sessions[s'.tasks[u].key] == u
      && |last.tasks| == u + 1 && last.tasks[u] == s'.tasks[u] && Live(last.tasks[u])
      && last.tasks[u].key !in last.sessions
  {
    var key := Key(a.connection, Client(a.name.value));
    var t :| 0 <= t < |s.tasks| && s.tasks[t].key == key && s.tasks[t].phase != Dead;
    var exited := SetTask(s', t, s'.tasks[t].(phase := Exited, queue := []));
    if s.tasks[t].phase == Running {
      states := [s', exited, SetTask(exited, t, exited.tasks[t].(phase := Dead)).(sessions := s'.sessions - {key})];
      actions := [Exit(t), Cleanup(t)];
    } else {
      states := [s', SetTask(s', t, s'.tasks[t].(phase := Dead)).(sessions := s'.sessions - {key})];
      actions := [if s.tasks[t].phase == Starting then SpawnFailed(t) else Cleanup(t)];
    }
  }

  // ----- commands of closed connections -----

  /** A command that was told to stop, will read that it should, or is about to be told. */
  predicate Doomed(s: State, t: nat)
    requires t < |s.tasks|
  {
    s.tasks[t].terminated || Terminate in s.tasks[t].queue || t in s.closing
  }

  ghost predicate Doomable(s: State, t: nat) {
    t < |s.tasks| && s.tasks[t].active && Live(s.tasks[t]) && s.tasks[t].key.connection in s.closed
  }

  ghost predicate ClosedDoomed(s: State) { forall t | 0 <= t < |s.tasks| && Doomable(s, t) :: Doomed(s, t) }

  /** A start on a closed connection is refused, or has no control channel. */
  ghost predicate Punctual(s: State, a: Action) {
    a.Start? && a.active && a.connection in s.closed ==> Begin(s, a.connection, a.name, a.active).tasks == s.tasks
  }

  /** One task changes, and stays told if it has to be. */
  lemma TaskStepDoomed(s: State, t: nat, task: Task, s': State)
    requires ClosedDoomed(s) && t < |s.tasks|
    requires s'.(closing := s.closing, controls := s.controls, sessions := s.sessions) == SetTask(s, t, task)
    requires Doomable(s', t) ==> Doomed(s', t)
    requires forall u | u in s.closing && u != t :: u in s'.closing
    ensures ClosedDoomed(s')
  {
    forall u | 0 <= u < |s'.tasks| && Doomable(s', u) ensures Doomed(s', u) {
      if u != t { assert Doomable(s, u) && Doomed(s, u); }
    }
  }

  lemma BeginDoomed(s: State, a: Action)
    requires Base(s) && ClosedDoomed(s) && a.Start? && Punctual(s, a)
    ensures ClosedDoomed(Begin(s, a.connection, a.name, a.active))
  {
    var s' := Begin(s, a.connection, a.name, a.active);
    forall u | 0 <= u < |s'.tasks| && Doomable(s', u) ensures Doomed(s', u) {
      assert u < |s.tasks| && s'.tasks[u] == s.tasks[u] && Doomable(s, u);
    }
  }

  lemma CloseDoomed(s: State, c: nat, q: seq<nat>, s': State)
    requires Base(s) && ClosedDoomed(s) && ToTerminate(s, c, q)
    requires s' == s.(closed := s.closed + {c}, sessions := s.sessions - KeysOf(s.sessions, c), closing := s.closing + q)
    ensures ClosedDoomed(s')
  {
    forall t | 0 <= t < |s'.tasks| && Doomable(s', t) ensures Doomed(s', t) {
      if s.tasks[t].key.connection in s.closed {
        assert Doomable(s, t) && Doomed(s, t);
      } else {
        assert Listed(s, t);
        assert s.tasks[t].key in KeysOf(s.sessions, c) && s.sessions[s.tasks[t].key] == t;
        ToTerminateAre(s, c, q, t);
      }
    }
  }

  lemma QueueDoomed(s: State, a: Action, s': State)
    requires ClosedDoomed(s) && Step(s, a, s') && (a.Deliver? || a.SendTerminate? || a.Receive?)
    ensures ClosedDoomed(s')
  {
    match a
    case Deliver(i) =>
      var t := s.controls[i].0;
      if Doomable(s, t) { assert Doomed(s, t); }
      TaskStepDoomed(s, t, s'.tasks[t], s');
    case SendTerminate(i) =>
      var t := s.closing[i];
      DropKeeps(s.closing, i);
      if Live(s.tasks[t]) { assert s'.tasks[t].queue[|s.tasks[t].queue|] == Terminate; }
      TaskStepDoomed(s, t, s'.tasks[t], s');
    case Receive(t) =>
      var q := s.tasks[t].queue;
      if Doomable(s, t) {
        assert Doomed(s, t);
        assert q == [q[0]] + q[1..];
      }
      TaskStepDoomed(s, t, s'.tasks[t], s');
  }

  lemma {:induction false} PunctualKeepsDoomed(s: State, a: Action, s': State)
    requires Base(s) && ClosedDoomed(s) && Step(s, a, s') && Punctual(s, a)
    ensures ClosedDoomed(s')
  {
    match a
    case Start(_, _, _) => BeginDoomed(s, a);
    case Spawned(t) => if Doomable(s, t) { assert Doomed(s, t); } TaskStepDoomed(s, t, s'.tasks[t], s');
    case SpawnFailed(t) => TaskStepDoomed(s, t, s'.tasks[t], s');
    case Look(k, c) => forall t | 0 <= t < |s'.tasks| && Doomable(s', t) ensures Doomed(s', t) { assert Doomable(s, t); }
    case Deliver(_) => QueueDoomed(s, a, s');
    case Receive(_) => QueueDoomed(s, a, s');
    case SendersGone(t) => TaskStepDoomed(s, t, s'.tasks[t], s');
    case Expire(t) => TaskStepDoomed(s, t, s'.tasks[t], s');
    case Exit(t) => TaskStepDoomed(s, t, s'.tasks[t], s');
    case Cleanup(t) => TaskStepDoomed(s, t, s'.tasks[t], s');
    case Close(c) =>
      var q :| ToTerminate(s, c, q) && s'.closing == s.closing + q;
      CloseDoomed(s, c, q, s');
    case SendTerminate(_) => QueueDoomed(s, a, s');
  }

  lemma LateStartNotDoomed(s: State, a: Action, s': State)
    requires Base(s) && Step(s, a, s') && !Punctual(s, a)
    ensures !ClosedDoomed(s')
  {
    var t := |s.tasks|;
    assert |s'.tasks| == t + 1 && Doomable(s', t);
    assert t !in s.closing && !Doomed(s', t);
  }

  lemma {:induction false} PunctualRun(states: seq<State>, actions: seq<Action>, i: nat)
    requires Run(states, actions) && i < |states| && forall j | 0 <= j < i :: Punctual(states[j], actions[j])
    ensures ClosedDoomed(states[i])
  {
    if i > 0 {
      PunctualRun(states, actions, i - 1);
      RunBase(states, actions, i - 1);
      PunctualKeepsDoomed(states[i - 1], actions[i - 1], states[i]);
    }
  }

  /** Over every run: each live command with a control channel whose connection is closed has
      been told to terminate, has that order in its channel or is about to get it, if and
      only if no such command is started on a closed connection. */
  lemma TerminationExactly(states: seq<State>, actions: seq<Action>)
    requires Run(states, actions)
    ensures (forall i | 0 <= i < |states| :: ClosedDoomed(states[i]))
      <==> (forall i | 0 <= i < |actions| :: Punctual(states[i], actions[i]))
  {
    if forall i | 0 <= i < |actions| :: Punctual(states[i], actions[i]) {
      forall i | 0 <= i < |states| ensures ClosedDoomed(states[i]) { PunctualRun(states, actions, i); }
    } else {
      var i :| 0 <= i < |actions| && !Punctual(states[i], actions[i]);
      RunBase(states, actions, i);
      LateStartNotDoomed(states[i], actions[i], states[i + 1]);
    }
  }

  /** A connection that starts nothing once it is closed meets both conditions. */
  lemma QuietAfterClose(states: seq<State>, actions: seq<Action>)
    requires Run(states, actions)
    requires forall i | 0 <= i < |actions| :: actions[i].Start? ==> actions[i].connection !in states[i].closed
    ensures forall i | 0 <= i < |states| :: OneOwner(states[i]) && ClosedDoomed(states[i])
  {
    forall i | 0 <= i < |actions| ensures Fresh(states[i], actions[i]) {
      RunBase(states, actions, i);
      if actions[i].Start? { OpenIsFresh(states[i], actions[i]); }
    }
    OwnershipExactly(states, actions);
    TerminationExactly(states, actions);
  }

  // ----- a run in which an entry is lost -----

  /** The states of a run in which a connection is closed and starts the same id again. */
  function Restart(c: nat, name: string, n: nat): State {
    var key := Key(c, Client(name));
    var task := Task(key, true, true, Starting, [], false);
    var running := task.(phase := Running);
    if n == 0 then INITIAL
    else if n == 1 then State(map[key := 0], [task], 1, {}, [], [])
    else if n == 2 then State(map[key := 0], [running], 1, {}, [], [])
    else if n == 3 then State(map[], [running], 1, {c}, [0], [])
    else if n == 4 then State(map[key := 1], [running, task], 1, {c}, [0], [])
    else if n == 5 then State(map[key := 1], [task.(phase := Exited), task], 1, {c}, [0], [])
    else State(map[], [task.(phase := Dead), task], 1, {c}, [0], [])
  }

  function RestartAction(c: nat, name: string, n: nat): Action {
    if n == 0 || n == 3 then Start(c, Some(name), true)
    else if n == 1 then Spawned(0)
    else if n == 2 then Close(c)
    else if n == 4 then Exit(0)
    else Cleanup(0)
  }

  lemma RestartClose(c: nat, name: string)
    ensures Step(Restart(c, name, 2), Close(c), Restart(c, name, 3))
  {
    var key := Key(c, Client(name));
    var s, s' := Restart(c, name, 2), Restart(c, name, 3);
    assert KeysOf(s.sessions, c) == {key};
    assert s.sessions - {key} == map[];
    assert s.sessions[key] == 0;
    assert Lists([key], s.sessions, c) && Told(s, [key], 1) == [0];
    assert s'.closing == s.closing + [0];
  }

  lemma RestartStep(c: nat, name: string, n: nat)
    requires n < 6
    ensures Step(Restart(c, name, n), RestartAction(c, name, n), Restart(c, name, n + 1))
  {
    var key := Key(c, Client(name));
    if n == 2 {
      RestartClose(c, name);
    } else if n == 5 {
      assert map[key := 1] - {key} == map[];
    }
  }

  /** A connection that starts the same process id again after it was closed loses the
      new command's entry to the old command's cleanup. */
  lemma RestartAfterCloseLosesEntry(c: nat, name: string) returns (states: seq<State>, actions: seq<Action>)
    ensures Run(states, actions)
    ensures var last := states[|states| - 1];
      && |last.tasks| == 2 && Live(last.tasks[1]) && last.tasks[1].registered
      && last.tasks[1].key == Key(c, Client(name)) && last.tasks[1].key !in last.sessions
  {
    states := seq(7, n requires 0 <= n < 7 => Restart(c, name, n));
    actions := seq(6, n requires 0 <= n < 6 => RestartAction(c, name, n));
    forall n | 0 <= n < 6 ensures Step(states[n], actions[n], states[n + 1]) {
      RestartStep(c, name, n);
    }
  }

  // ----- the table as the program keeps it -----

  /** What `start` does to the table for a command it registers. */
  function Registered(sessions: map<Key, nat>, key: Key, task: nat): map<Key, nat> {
    if key in sessions then sessions else sessions[key := task]
  }

  /** The key of a command to start, and whether it is registered. */
  function StartKey(s: State, a: Action): Key
    requires a.Start?
  { Key(a.connection, match a.name case Some(n) => Client(n) case None => Generated(s.nextGenerated)) }

  predicate Registers(a: Action) { a.Start? && (a.name.Some? || a.active) }

  /** What each step does to the table. */
  lemma {:induction false} StepTable(s: State, a: Action, s': State)
    requires Step(s, a, s')
    ensures s'.sessions ==
      match a
      case Start(_, _, _) => if Registers(a) then Registered(s.sessions, StartKey(s, a), |s.tasks|) else s.sessions
      case SpawnFailed(t) => s.sessions - {s.tasks[t].key}
      case Cleanup(t) => s.sessions - {s.tasks[t].key}
      case Close(c) => s.sessions - KeysOf(s.sessions, c)
      case _ => s.sessions
  {
  }

  class SessionTable {
    var sessions: map<Key, nat>

    constructor ()
      ensures sessions == INITIAL.sessions
    { sessions := map[]; }

    method Register(key: Key, task: nat) returns (ok: bool)
      modifies this
      ensures ok <==> key !in old(sessions)
      ensures sessions == Registered(old(sessions), key, task)
    {
      if key in sessions { return false; }
      sessions := sessions[key := task];
      return true;
    }

    method Remove(key: Key)
      modifies this
      ensures sessions == old(sessions) - {key}
    {
      sessions := sessions - {key};
    }

    /** Takes out every entry of a connection and returns what was taken, one per key. */
    method ConnectionClosed(connection: nat) returns (keys: seq<Key>, controls: seq<nat>)
      modifies this
      ensures sessions == old(sessions) - KeysOf(old(sessions), connection)
      ensures |controls| == |keys| && (forall i, j | 0 <= i < j < |keys| :: keys[i] != keys[j])
      ensures forall k :: k in keys <==> k in KeysOf(old(sessions), connection)
      ensures forall i | 0 <= i < |keys| :: keys[i] in old(sessions) && controls[i] == old(sessions)[keys[i]]
    {
      var ids := KeysOf(sessions, connection);
      keys, controls := [], [];
      ghost var all := ids;
      while ids != {}
        invariant ids <= all && all == KeysOf(old(sessions), connection)
        invariant sessions == old(sessions) - (all - ids)
        invariant |controls| == |keys| && (forall i, j | 0 <= i < j < |keys| :: keys[i] != keys[j])
        invariant forall k :: k in keys <==> k in all - ids
        invariant forall i | 0 <= i < |keys| :: keys[i] in old(sessions) && controls[i] == old(sessions)[keys[i]]
        decreases ids
      {
        var k :| k in ids;
        assert k in sessions && sessions[k] == old(sessions)[k];
        controls := controls + [sessions[k]];
        keys := keys + [k];
        sessions := sessions - {k};
        ids := ids - {k};
      }
    }

    /** The closing connection's list of commands to tell: the active ones among those whose
        entries were taken out. */
    method Close(connection: nat, ghost s: State, tasks: seq<Task>) returns (q: seq<nat>)
      requires sessions == s.sessions && tasks == s.tasks
      modifies this
      ensures sessions == s.sessions - KeysOf(s.sessions, connection) && ToTerminate(s, connection, q)
    {
      var keys, controls := ConnectionClosed(connection);
      q := [];
      for i := 0 to |controls|
        invariant q == Told(s, keys, i)
      {
        if controls[i] < |tasks| && tasks[controls[i]].active { q := q + [controls[i]]; }
      }
      assert Lists(keys, s.sessions, connection);
    }

    /** Whatever step is taken, the calls it makes leave the table the step says. */
    method Perform(a: Action, tasks: seq<Task>, nextGenerated: nat, ghost s: State, ghost s': State)
      requires Step(s, a, s') && sessions == s.sessions && tasks == s.tasks && nextGenerated == s.nextGenerated
      modifies this
      ensures sessions == s'.sessions
    {
      StepTable(s, a, s');
      match a {
        case Start(c, name, active) =>
          if name.Some? || active {
            var process := match name case Some(n) => Client(n) case None => Generated(nextGenerated);
            var _ := Register(Key(c, process), |tasks|);
          }
        case SpawnFailed(t) => Remove(tasks[t].key);
        case Cleanup(t) => Remove(tasks[t].key);
        case Close(c) => var _ := Close(c, s, tasks);
        case _ =>
      }
    }
  }
}
