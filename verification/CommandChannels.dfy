/** The control channels of running commands, over every run: who is told what, and in what
    order. */
module CommandChannels {
  import opened Prelude
  import opened CommandSessions

  /** What a step puts in the channel of a command that still reads it. */
  function PutBy(s: State, a: Action, t: nat): seq<Control> {
    if !(t < |s.tasks| && Live(s.tasks[t])) then []
    else
      match a
      case Deliver(i) => if i < |s.controls| && s.controls[i].0 == t then [s.controls[i].1] else []
      case SendTerminate(i) => if i < |s.closing| && s.closing[i] == t then [Terminate] else []
      case _ => []
  }

  /** What a step has the command read. */
  function ReadBy(s: State, a: Action, t: nat): seq<Control> {
    if a == Receive(t) && t < |s.tasks| && s.tasks[t].queue != [] then [s.tasks[t].queue[0]] else []
  }

  /** What was put in the channel of a command in the first `n` steps, and what it read. */
  function Put(states: seq<State>, actions: seq<Action>, n: nat, t: nat): seq<Control>
    requires n <= |actions| && n <= |states|
  { if n == 0 then [] else Put(states, actions, n - 1, t) + PutBy(states[n - 1], actions[n - 1], t) }

  function Read(states: seq<State>, actions: seq<Action>, n: nat, t: nat): seq<Control>
    requires n <= |actions| && n <= |states|
  { if n == 0 then [] else Read(states, actions, n - 1, t) + ReadBy(states[n - 1], actions[n - 1], t) }

  /** How one step changes one command: what is put in its channel goes behind what waits,
      what it reads comes from the front. */
  ghost predicate Passes(s: State, a: Action, s': State, t: nat) {
    && (t < |s.tasks| ==> t < |s'.tasks|)
    && (t < |s.tasks| && Live(s'.tasks[t]) ==>
          Live(s.tasks[t]) && s.tasks[t].queue + PutBy(s, a, t) == ReadBy(s, a, t) + s'.tasks[t].queue)
    && (|s.tasks| <= t ==> PutBy(s, a, t) == [] && ReadBy(s, a, t) == [] && (t < |s'.tasks| ==> s'.tasks[t].queue == []))
  }

  lemma {:induction false} StepPasses(s: State, a: Action, s': State, t: nat)
    requires Step(s, a, s')
    ensures Passes(s, a, s', t)
  {
    if a == Receive(t) {
      assert s.tasks[t].queue == [s.tasks[t].queue[0]] + s.tasks[t].queue[1..];
    }
  }

  lemma {:induction false} AllPass(states: seq<State>, actions: seq<Action>, t: nat)
    requires Run(states, actions)
    ensures forall k | 0 <= k < |actions| :: Passes(states[k], actions[k], states[k + 1], t)
  {
    forall k | 0 <= k < |actions| ensures Passes(states[k], actions[k], states[k + 1], t) {
      StepPasses(states[k], actions[k], states[k + 1], t);
    }
  }

  lemma Follow(put: seq<Control>, read: seq<Control>, q: seq<Control>, more: seq<Control>, out: seq<Control>,
               q': seq<Control>)
    requires put == read + q && q + more == out + q'
    ensures put + more == (read + out) + q'
  {
    assert put + more == read + (q + more);
  }

  /** What was put in the channel of a command, what it has read, and what waits. */
  ghost predicate Flows(s: State, t: nat, put: seq<Control>, read: seq<Control>) {
    if t < |s.tasks| then Live(s.tasks[t]) ==> put == read + s.tasks[t].queue else put == [] && read == []
  }

  lemma {:induction false} StepFlows(s: State, a: Action, s': State, t: nat, put: seq<Control>, read: seq<Control>)
    requires Passes(s, a, s', t) && Flows(s, t, put, read)
    ensures Flows(s', t, put + PutBy(s, a, t), read + ReadBy(s, a, t))
  {
    if t < |s.tasks| && Live(s'.tasks[t]) {
      Follow(put, read, s.tasks[t].queue, PutBy(s, a, t), ReadBy(s, a, t), s'.tasks[t].queue);
    }
  }

  lemma {:induction false} PassedInOrder(states: seq<State>, actions: seq<Action>, n: nat, t: nat)
    requires |states| == |actions| + 1 && n < |states| && states[0].tasks == []
    requires forall k | 0 <= k < |actions| :: Passes(states[k], actions[k], states[k + 1], t)
    ensures Flows(states[n], t, Put(states, actions, n, t), Read(states, actions, n, t))
  {
    if n > 0 {
      PassedInOrder(states, actions, n - 1, t);
      StepFlows(states[n - 1], actions[n - 1], states[n], t,
                Put(states, actions, n - 1, t), Read(states, actions, n - 1, t));
    }
  }

  /** Nothing is lost, repeated or reordered on the way to a live command: what was put in its
      channel is what it has read and then what waits there. */
  lemma {:induction false} ReadInOrder(states: seq<State>, actions: seq<Action>, n: nat, t: nat)
    requires Run(states, actions) && n < |states|
    ensures Flows(states[n], t, Put(states, actions, n, t), Read(states, actions, n, t))
  {
    AllPass(states, actions, t);
    PassedInOrder(states, actions, n, t);
  }

  predicate Ends(a: Action, t: nat) { a == Expire(t) || a == SendersGone(t) }

  /** How one step can stop one command. */
  ghost predicate Stops(s: State, a: Action, s': State, t: nat) {
    && (Ends(a, t) ==> t < |s.tasks|)
    && (t < |s'.tasks| ==>
          (s'.tasks[t].terminated <==>
             (t < |s.tasks| && s.tasks[t].terminated) || Terminate in ReadBy(s, a, t) || Ends(a, t)))
  }

  lemma {:induction false} StepStops(s: State, a: Action, s': State, t: nat)
    requires Step(s, a, s')
    ensures Stops(s, a, s', t)
  {
  }

  lemma {:induction false} AllStop(states: seq<State>, actions: seq<Action>, t: nat)
    requires Run(states, actions)
    ensures forall k | 0 <= k < |actions| :: Stops(states[k], actions[k], states[k + 1], t)
  {
    forall k | 0 <= k < |actions| ensures Stops(states[k], actions[k], states[k + 1], t) {
      StepStops(states[k], actions[k], states[k + 1], t);
    }
  }

  ghost predicate Ended(actions: seq<Action>, n: nat, t: nat)
    requires n <= |actions|
  { exists k | 0 <= k < n :: Ends(actions[k], t) }

  lemma {:induction false} EndedMore(actions: seq<Action>, n: nat, t: nat)
    requires 0 < n <= |actions|
    ensures Ended(actions, n, t) <==> Ended(actions, n - 1, t) || Ends(actions[n - 1], t)
  {
    if Ended(actions, n, t) && !Ends(actions[n - 1], t) {
      var k :| 0 <= k < n && Ends(actions[k], t);
    }
  }

  /** The command is stopped as what it has read and the steps so far say; one that is not
      there has read nothing. */
  ghost predicate Told(s: State, t: nat, read: seq<Control>, ended: bool) {
    if t < |s.tasks| then s.tasks[t].terminated <==> Terminate in read || ended else read == [] && !ended
  }

  lemma {:induction false} StoppedBySteps(states: seq<State>, actions: seq<Action>, n: nat, t: nat)
    requires |states| == |actions| + 1 && n < |states| && states[0].tasks == []
    requires forall k | 0 <= k < |actions| :: Passes(states[k], actions[k], states[k + 1], t)
    requires forall k | 0 <= k < |actions| :: Stops(states[k], actions[k], states[k + 1], t)
    ensures Told(states[n], t, Read(states, actions, n, t), Ended(actions, n, t))
  {
    if n > 0 {
      StoppedBySteps(states, actions, n - 1, t);
      EndedMore(actions, n, t);
      assert Passes(states[n - 1], actions[n - 1], states[n], t);
      assert Stops(states[n - 1], actions[n - 1], states[n], t);
    }
  }

  /** A command has been stopped if and only if it has read an order to terminate, its time
      ran out, or nobody could send to it any more. */
  lemma {:induction false} StoppedExactly(states: seq<State>, actions: seq<Action>, n: nat, t: nat)
    requires Run(states, actions) && n < |states| && t < |states[n].tasks|
    ensures states[n].tasks[t].terminated <==>
      Terminate in Read(states, actions, n, t) || exists k | 0 <= k < n :: Ends(actions[k], t)
  {
    AllPass(states, actions, t);
    AllStop(states, actions, t);
    StoppedBySteps(states, actions, n, t);
    assert Ended(actions, n, t) <==> exists k | 0 <= k < n :: Ends(actions[k], t);
  }

  /** A registered command with that key and a control channel, not cleaned up. */
  predicate Serves(s: State, t: nat, key: Key) {
    t < |s.tasks| && s.tasks[t].key == key && s.tasks[t].registered && s.tasks[t].active && s.tasks[t].phase != Dead
  }

  /** Over every run, a control request on an open connection is for the command that has the
      process id it names, and for nobody if there is none. */
  lemma {:induction false} ControlFindsItsCommand(states: seq<State>, actions: seq<Action>, n: nat, key: Key, c: Control,
                                                  t: nat)
    requires Run(states, actions) && n < |actions| && actions[n] == Look(key, c) && key.connection !in states[n].closed
    ensures Serves(states[n], t, key) ==> states[n + 1] == states[n].(controls := states[n].controls + [(t, c)])
    ensures (forall u :: !Serves(states[n], u, key)) ==> states[n + 1] == states[n]
  {
    var s := states[n];
    RunBase(states, actions, n);
    assert Step(s, actions[n], states[n + 1]);
    if Serves(s, t, key) {
      assert Listed(s, t);
    } else if key in s.sessions {
      var u := s.sessions[key];
      assert s.tasks[u].active ==> Serves(s, u, key);
    }
  }

  lemma {:induction false} StepBounded(s: State, a: Action, s': State, t: nat)
    requires Step(s, a, s') && t < |s'.tasks| && (t < |s.tasks| ==> |s.tasks[t].queue| <= 32)
    ensures |s'.tasks[t].queue| <= 32
  {
  }

  /** A channel never holds more than 32 requests; those that find it full wait. */
  lemma {:induction false} ChannelBounded(states: seq<State>, actions: seq<Action>, n: nat, t: nat)
    requires Run(states, actions) && n < |states| && t < |states[n].tasks|
    ensures |states[n].tasks[t].queue| <= 32
    ensures forall i | 0 <= i < |states[n].controls| && states[n].controls[i].0 == t ::
      Enabled(states[n], Deliver(i)) <==> !Live(states[n].tasks[t]) || |states[n].tasks[t].queue| < 32
  {
    if n > 0 {
      if t < |states[n - 1].tasks| { ChannelBounded(states, actions, n - 1, t); }
      StepBounded(states[n - 1], actions[n - 1], states[n], t);
    }
  }

  /** Only a command of a closed connection can be stopped because nobody can send to it. */
  lemma {:induction false} AbandonedOnlyWhenClosed(states: seq<State>, actions: seq<Action>, n: nat, t: nat)
    requires Run(states, actions) && n < |actions| && actions[n] == SendersGone(t)
    ensures t < |states[n].tasks|
    ensures states[n].tasks[t].active ==> states[n].tasks[t].key.connection in states[n].closed
  {
    var s := states[n];
    RunBase(states, actions, n);
    assert Step(s, actions[n], states[n + 1]);
    SendersGoneMeans(s, t);
  }

  lemma {:induction false} SendersGoneMeans(s: State, t: nat)
    requires Base(s) && Enabled(s, SendersGone(t))
    ensures t < |s.tasks| && !Listed(s, t) && (s.tasks[t].active ==> s.tasks[t].registered)
  {
    assert t < |s.tasks| && t !in s.sessions.Values;
  }
}
