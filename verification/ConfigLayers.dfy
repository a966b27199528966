/** The stack of configuration layers, the configuration it amounts to, and whether a
    write to the user layer took effect. */
module ConfigLayers {
  import opened Prelude
  import opened Toml
  import opened ConfigEdits

  datatype Source = Mdm | System | User | Project | SessionFlags | LegacyManagedFile | LegacyManagedMdm

  function Precedence(s: Source): nat {
    match s
    case Mdm => 0
    case System => 10
    case User => 20
    case Project => 25
    case SessionFlags => 30
    case LegacyManagedFile => 40
    case LegacyManagedMdm => 50
  }

  datatype Layer = Layer(name: Source, config: Toml, disabled: bool)

  /** Layers from lowest precedence to highest, and which one is the user's. */
  datatype Stack = Stack(layers: seq<Layer>, user: Option<nat>)

  ghost predicate Valid(s: Stack) {
    && (s.user.Some? ==> s.user.value < |s.layers| && s.layers[s.user.value].name == User)
    && (forall i | 0 <= i < |s.layers| && s.layers[i].name == User :: s.user == Some(i))
    && (forall i, j | 0 <= i < j < |s.layers| :: Precedence(s.layers[i].name) <= Precedence(s.layers[j].name))
  }

  /** The position before the first layer that outranks the user's. */
  function UserPosition(layers: seq<Layer>): (i: nat)
    ensures i <= |layers|
    ensures forall j | 0 <= j < i :: Precedence(layers[j].name) <= Precedence(User)
    ensures i < |layers| ==> Precedence(layers[i].name) > Precedence(User)
  {
    if layers == [] || Precedence(layers[0].name) > Precedence(User) then 0
    else 1 + UserPosition(layers[1..])
  }

  /** Replaces the user layer, or inserts one where its precedence puts it. */
  function WithUserConfig(s: Stack, config: Toml): Stack {
    var layer := Layer(User, config, false);
    match s.user
    case Some(i) => if i < |s.layers| then Stack(s.layers[i := layer], s.user) else s
    case None =>
      var i := UserPosition(s.layers);
      Stack(s.layers[..i] + [layer] + s.layers[i..], Some(i))
  }

  lemma InsertedAt(layers: seq<Layer>, i: nat, l: Layer, j: nat)
    requires i <= |layers| && j <= |layers|
    ensures (layers[..i] + [l] + layers[i..])[j] == if j < i then layers[j] else if j == i then l else layers[j - 1]
  {
  }

  lemma InsertedValid(s: Stack, config: Toml)
    requires Valid(s) && s.user.None?
    ensures Valid(WithUserConfig(s, config))
  {
    var i := UserPosition(s.layers);
    var l := Layer(User, config, false);
    var t := s.layers[..i] + [l] + s.layers[i..];
    forall j | 0 <= j < |t| && t[j].name == User ensures j == i {
      InsertedAt(s.layers, i, l, j);
    }
    InsertedAt(s.layers, i, l, i);
    forall j, k | 0 <= j < k < |t| ensures Precedence(t[j].name) <= Precedence(t[k].name) {
      InsertedAt(s.layers, i, l, j);
      InsertedAt(s.layers, i, l, k);
      if i < k { assert i < k - 1 ==> Precedence(s.layers[i].name) <= Precedence(s.layers[k - 1].name); }
    }
  }

  ghost function Others(s: Stack): seq<Layer> {
    match s.user
    case Some(i) => if i < |s.layers| then s.layers[..i] + s.layers[i + 1..] else s.layers
    case None => s.layers
  }

  lemma ReplacedValid(s: Stack, config: Toml)
    requires Valid(s) && s.user.Some?
    ensures Valid(WithUserConfig(s, config))
  {
    var i := s.user.value;
    var t := s.layers[i := Layer(User, config, false)];
    assert forall j | 0 <= j < |t| :: t[j].name == s.layers[j].name;
  }

  lemma OthersKept(s: Stack, config: Toml)
    requires s.user.Some? ==> s.user.value < |s.layers|
    ensures Others(WithUserConfig(s, config)) == Others(s)
  {
    var t := WithUserConfig(s, config).layers;
    match s.user
    case Some(i) => assert t[..i] == s.layers[..i] && t[i + 1..] == s.layers[i + 1..];
    case None =>
      var i := UserPosition(s.layers);
      assert t[..i] == s.layers[..i] && t[i + 1..] == s.layers[i..];
      assert s.layers[..i] + s.layers[i..] == s.layers;
  }

  /** The new stack is in order, its user layer is the given configuration and enabled,
      and the other layers are the old ones. */
  lemma {:induction false} WithUserConfigValid(s: Stack, config: Toml)
    requires Valid(s)
    ensures var t := WithUserConfig(s, config);
      && Valid(t) && t.user.Some? && t.layers[t.user.value] == Layer(User, config, false)
      && Others(t) == Others(s)
  {
    OthersKept(s, config);
    if s.user.None? {
      InsertedValid(s, config);
      var i := UserPosition(s.layers);
      InsertedAt(s.layers, i, Layer(User, config, false), i);
    } else {
      ReplacedValid(s, config);
    }
  }

  /** Enabled layers merged from the bottom up. */
  function EffectiveOf(layers: seq<Layer>): Toml {
    if layers == [] then EMPTY
    else
      var below := EffectiveOf(layers[..|layers| - 1]);
      var top := layers[|layers| - 1];
      if top.disabled then below else Merged(below, top.config, [])
  }

  method EffectiveConfig(s: Stack) returns (merged: Toml)
    ensures merged == EffectiveOf(s.layers)
  {
    merged := EMPTY;
    for k := 0 to |s.layers|
      invariant merged == EffectiveOf(s.layers[..k])
    {
      assert s.layers[..k + 1][..k] == s.layers[..k];
      if !s.layers[k].disabled {
        merged := Merged(merged, s.layers[k].config, []);
      }
    }
    assert s.layers[..|s.layers|] == s.layers;
  }

  predicate Holds(l: Layer, path: Path) { !l.disabled && ValueAt(l.config, path).Some? }

  /** The highest enabled layer that has a value at `path`. */
  ghost predicate IsHighest(layers: seq<Layer>, path: Path, i: nat) {
    i < |layers| && Holds(layers[i], path) && forall j | i < j < |layers| :: !Holds(layers[j], path)
  }

  method FindEffectiveLayer(s: Stack, path: Path) returns (r: Option<nat>)
    ensures r.Some? ==> IsHighest(s.layers, path, r.value)
    ensures r.None? <==> forall i | 0 <= i < |s.layers| :: !Holds(s.layers[i], path)
  {
    var k := |s.layers|;
    while k > 0
      invariant 0 <= k <= |s.layers| && forall j | k <= j < |s.layers| :: !Holds(s.layers[j], path)
    {
      k := k - 1;
      if !s.layers[k].disabled {
        var v := ValueAtPath(s.layers[k].config, path);
        if v.Some? { return Some(k); }
      }
    }
    return None;
  }

  /** What a write reports about a path that another layer overrides. */
  datatype Overridden = Overridden(layer: nat, effective: Option<Toml>)

  ghost predicate SameReading(s: Stack, effective: Toml, path: Path)
    requires s.user.Some? && s.user.value < |s.layers|
  {
    ValueAt(s.layers[s.user.value].config, path) == ValueAt(effective, path)
  }

  method ComputeOverrideMetadata(s: Stack, effective: Toml, path: Path) returns (r: Option<Overridden>)
    requires s.user.Some? ==> s.user.value < |s.layers|
    ensures s.user.None? ==> r == None
    ensures s.user.Some? ==>
      (r.Some? <==> !SameReading(s, effective, path) && !Unheld(s, path))
    ensures r.Some? ==> IsHighest(s.layers, path, r.value.layer) && r.value.effective == ValueAt(effective, path)
  {
    if s.user == None { return None; }
    var userValue := ValueAtPath(s.layers[s.user.value].config, path);
    var effectiveValue := ValueAtPath(effective, path);
    if userValue.Some? && userValue == effectiveValue { return None; }
    if userValue.None? && effectiveValue.None? { return None; }
    var found := FindEffectiveLayer(s, path);
    if found == None { return None; }
    return Some(Overridden(found.value, effectiveValue));
  }

  /** No enabled layer has a value at `path`. */
  ghost predicate Unheld(s: Stack, path: Path) { forall i | 0 <= i < |s.layers| :: !Holds(s.layers[i], path) }

  /** `r` is the first path that reads differently and some layer holds, if there is one. */
  ghost predicate IsFirst(s: Stack, effective: Toml, paths: seq<Path>, r: Option<(nat, Overridden)>)
    requires s.user.Some? && s.user.value < |s.layers|
  {
    match r
    case None => forall k | 0 <= k < |paths| :: SameReading(s, effective, paths[k]) || Unheld(s, paths[k])
    case Some((first, meta)) =>
      && first < |paths| && !SameReading(s, effective, paths[first]) && !Unheld(s, paths[first])
      && IsHighest(s.layers, paths[first], meta.layer) && meta.effective == ValueAt(effective, paths[first])
      && forall k | 0 <= k < first :: SameReading(s, effective, paths[k]) || Unheld(s, paths[k])
  }

  method FirstOverriddenEdit(s: Stack, effective: Toml, paths: seq<Path>) returns (r: Option<(nat, Overridden)>)
    requires s.user.Some? && s.user.value < |s.layers|
    ensures IsFirst(s, effective, paths, r)
  {
    for k := 0 to |paths|
      invariant forall j | 0 <= j < k :: SameReading(s, effective, paths[j]) || Unheld(s, paths[j])
    {
      var meta := ComputeOverrideMetadata(s, effective, paths[k]);
      if meta.Some? {
        return Some((k, meta.value));
      }
    }
    return None;
  }

  // ----- which layer a reading comes from -----

  /** What a layer contributes, its legacy keys renamed. */
  function Contribution(l: Layer): Toml { Normalized(l.config, []) }

  /** Says nothing at `path`, and nothing on the way that is not a table. */
  ghost predicate Silent(l: Layer, path: Path) {
    l.disabled || (ValueAt(Contribution(l), path) == None && Open(Contribution(l), path))
  }

  /** Says `v` at `path`, which is not a table and stands in tables only. */
  ghost predicate Says(l: Layer, path: Path, v: Toml) {
    !l.disabled && ValueAt(Contribution(l), path) == Some(v) && !v.Table? && Through(Contribution(l), path)
  }

  /** The effective reading of a value is that of the highest enabled layer that says
      anything: whatever lower layers say, and whatever silent layers lie above. */
  lemma {:induction false} HighestLayerWins(layers: seq<Layer>, i: nat, path: Path, v: Toml)
    requires i < |layers| && path != [] && Says(layers[i], path, v)
    requires forall j | i < j < |layers| :: Silent(layers[j], path)
    ensures ValueAt(EffectiveOf(layers), path) == Some(v) && Through(EffectiveOf(layers), path)
  {
    var below, top := layers[..|layers| - 1], layers[|layers| - 1];
    if i == |layers| - 1 {
      OverlayWins(EffectiveOf(below), top.config, [], path);
      OverlayThrough(EffectiveOf(below), top.config, [], path);
    } else {
      HighestLayerWins(below, i, path, v);
      if !top.disabled {
        EffectiveIsModern(below);
        BaseShows(EffectiveOf(below), top.config, [], path);
      }
    }
  }

  /** A value of the topmost enabled layer is effective wherever it stands. */
  lemma {:induction false} TopLayerWins(layers: seq<Layer>, i: nat, path: Path)
    requires i < |layers| && !layers[i].disabled && forall j | i < j < |layers| :: layers[j].disabled
    requires ValueAt(Contribution(layers[i]), path).Some? && !ValueAt(Contribution(layers[i]), path).value.Table?
    ensures ValueAt(EffectiveOf(layers), path) == ValueAt(Contribution(layers[i]), path)
  {
    var below := layers[..|layers| - 1];
    if i == |layers| - 1 {
      OverlayWins(EffectiveOf(below), layers[i].config, [], path);
    } else {
      TopLayerWins(below, i, path);
    }
  }

  /** From the lowest precedence to the highest. */
  lemma PrecedenceOrder()
    ensures Precedence(Mdm) < Precedence(System) < Precedence(User) < Precedence(Project)
    ensures Precedence(Project) < Precedence(SessionFlags) < Precedence(LegacyManagedFile) < Precedence(LegacyManagedMdm)
  {
  }

  // ----- does every difference have a layer to blame? -----

  /** No enabled layer uses a legacy key. */
  ghost predicate AllModern(layers: seq<Layer>) {
    forall i | 0 <= i < |layers| :: !layers[i].disabled ==> Modern(layers[i].config, [])
  }

  lemma {:induction false} EffectiveIsModern(layers: seq<Layer>)
    ensures Modern(EffectiveOf(layers), [])
  {
    if layers != [] {
      var below, top := layers[..|layers| - 1], layers[|layers| - 1];
      EffectiveIsModern(below);
      if !top.disabled { MergedIsModern(EffectiveOf(below), top.config, []); }
    }
  }

  /** The layer has a value at `path` once its legacy keys are renamed. */
  predicate Yields(l: Layer, path: Path) { !l.disabled && ValueAt(Normalized(l.config, []), path).Some? }

  /** Whatever can be read from the effective configuration some enabled layer yields. */
  lemma {:induction false} EffectiveHasSource(layers: seq<Layer>, path: Path)
    requires path != [] && ValueAt(EffectiveOf(layers), path).Some?
    ensures exists i | 0 <= i < |layers| :: Yields(layers[i], path)
  {
    if layers == [] {
      EmptyReads(path);
    } else {
      var below, top := layers[..|layers| - 1], layers[|layers| - 1];
      if Yields(top, path) {
        assert Yields(layers[|layers| - 1], path);
      } else {
        EffectiveIsModern(below);
        if !top.disabled { MergedReads(EffectiveOf(below), top.config, [], path); }
        EffectiveHasSource(below, path);
        var i :| 0 <= i < |below| && Yields(below[i], path);
        assert Yields(layers[i], path);
      }
    }
  }

  /** Without legacy keys it is in some enabled layer as it stands. */
  lemma EffectiveHasLayer(layers: seq<Layer>, path: Path)
    requires AllModern(layers) && path != [] && ValueAt(EffectiveOf(layers), path).Some?
    ensures exists i | 0 <= i < |layers| :: Holds(layers[i], path)
  {
    EffectiveHasSource(layers, path);
    var i :| 0 <= i < |layers| && Yields(layers[i], path);
    ModernIsNormalized(layers[i].config, []);
    assert Holds(layers[i], path);
  }

  /** The effective configuration has a value at `path` and no enabled layer does. */
  ghost predicate Hidden(s: Stack, path: Path) {
    ValueAt(EffectiveOf(s.layers), path).Some? && Unheld(s, path)
  }

  /** Nothing to report: no difference, or a hidden one. */
  ghost predicate Settled(s: Stack, path: Path)
    requires s.user.Some? && s.user.value < |s.layers|
  {
    SameReading(s, EffectiveOf(s.layers), path) || Hidden(s, path)
  }

  /** A difference goes unreported exactly at a hidden path, and behind a hidden path is an
      enabled layer that yields it by a legacy key and does not hold it. */
  lemma UnreportedExactly(s: Stack, path: Path)
    requires s.user.Some? && s.user.value < |s.layers| && !s.layers[s.user.value].disabled
    ensures Hidden(s, path) <==> !SameReading(s, EffectiveOf(s.layers), path) && Unheld(s, path)
    ensures Hidden(s, path) ==> exists i | 0 <= i < |s.layers| ::
      Yields(s.layers[i], path) && !Holds(s.layers[i], path) && !Modern(s.layers[i].config, [])
  {
    assert Holds(s.layers[s.user.value], path) <==> ValueAt(s.layers[s.user.value].config, path).Some?;
    if Hidden(s, path) {
      assert path != [];
      EffectiveHasSource(s.layers, path);
      var i :| 0 <= i < |s.layers| && Yields(s.layers[i], path);
      assert !Holds(s.layers[i], path);
      if Modern(s.layers[i].config, []) { ModernIsNormalized(s.layers[i].config, []); }
    }
  }

  // ----- a write -----

  function UserConfig(s: Stack, onDisk: Toml): Toml {
    match s.user
    case Some(i) => if i < |s.layers| then s.layers[i].config else onDisk
    case None => onDisk
  }

  datatype Response =
    | Refused(error: WriteError)
    | Written(config: Toml, log: seq<ConfigEdit>, overridden: Option<(nat, Overridden)>)

  /** What a write reports: nothing if every edited path is settled, else the first that is
      not, with the highest layer that has a value there. */
  ghost predicate Reports(t: Stack, paths: seq<Path>, overridden: Option<(nat, Overridden)>)
    requires t.user.Some? && t.user.value < |t.layers|
  {
    match overridden
    case None => forall k | 0 <= k < |paths| :: Settled(t, paths[k])
    case Some((first, meta)) =>
      && first < |paths| && !Settled(t, paths[first]) && (forall k | 0 <= k < first :: Settled(t, paths[k]))
      && IsHighest(t.layers, paths[first], meta.layer)
      && meta.effective == ValueAt(EffectiveOf(t.layers), paths[first])
  }

  lemma FirstIsReported(t: Stack, paths: seq<Path>, r: Option<(nat, Overridden)>)
    requires t.user.Some? && t.user.value < |t.layers| && !t.layers[t.user.value].disabled
    requires IsFirst(t, EffectiveOf(t.layers), paths, r)
    ensures Reports(t, paths, r)
  {
    forall k | 0 <= k < |paths|
      ensures Settled(t, paths[k]) <==> SameReading(t, EffectiveOf(t.layers), paths[k]) || Unheld(t, paths[k])
    {
      UnreportedExactly(t, paths[k]);
    }
  }

  /** The response to a write of `edits`, when the user layer, or without one the file,
      holds `start`. */
  ghost predicate IsResponse(s: Stack, start: Toml, edits: seq<EditRequest>, accepts: Toml -> bool, r: Response) {
    match RunBatch(start, edits)
    case Failed(error) => r == Refused(error)
    case Applied(config, log, paths) =>
      var t := WithUserConfig(s, config);
      if accepts(config) && accepts(EffectiveOf(t.layers))
      then r.Written? && r.config == config && r.log == log
           && t.user.Some? && t.user.value < |t.layers| && Reports(t, paths, r.overridden)
      else r == Refused(ValidationError)
  }

  /** Applies a batch of edits to the user layer, or to what its file holds when the stack
      has no such layer. `accepts` stands for the schema validation of a configuration. A
      write is plain `Ok`, with nothing overridden, exactly when every edited path that is
      not hidden reads the same in the user layer and in the effective configuration;
      otherwise it names the highest layer with a value at the first path that does not. */
  method Write(s: Stack, onDisk: Toml, edits: seq<EditRequest>, accepts: Toml -> bool) returns (r: Response)
    requires Valid(s)
    ensures IsResponse(s, UserConfig(s, onDisk), edits, accepts, r)
    ensures r.Written? && NoneMissed(UserConfig(s, onDisk), edits) ==> ReplayAll(UserConfig(s, onDisk), r.log) == r.config
  {
    var start := UserConfig(s, onDisk);
    var batch := ApplyEdits(start, edits);
    if batch.Failed? { return Refused(batch.error); }
    if !accepts(batch.config) { return Refused(ValidationError); }
    var t := WithUserConfig(s, batch.config);
    WithUserConfigValid(s, batch.config);
    var effective := EffectiveConfig(t);
    if !accepts(effective) { return Refused(ValidationError); }
    var overridden := FirstOverriddenEdit(t, effective, batch.paths);
    FirstIsReported(t, batch.paths, overridden);
    return Written(batch.config, batch.log, overridden);
  }

  /** Without legacy keys nothing is hidden, and plain `Ok` means that every edited path reads
      the same in the user layer and in the effective configuration. */
  lemma OkMeansEffective(t: Stack, paths: seq<Path>, overridden: Option<(nat, Overridden)>)
    requires t.user.Some? && t.user.value < |t.layers| && !t.layers[t.user.value].disabled
    requires AllModern(t.layers) && Reports(t, paths, overridden)
    ensures overridden.None? <==> forall k | 0 <= k < |paths| :: SameReading(t, EffectiveOf(t.layers), paths[k])
  {
    forall k | 0 <= k < |paths| ensures Settled(t, paths[k]) <==> SameReading(t, EffectiveOf(t.layers), paths[k]) {
      UnreportedExactly(t, paths[k]);
    }
  }

  // ----- a write that reports Ok and has no effect -----

  const LEGACY := Table(map["agents" := Table(map["max_concurrent_threads_per_session" := Leaf("4")])])
  const EIGHT := Table(map["agents" := Table(map["max_threads" := Leaf("8")])])
  const NO_AGENTS := Table(map["agents" := Table(map[])])
  const THREADS: Path := ["agents", "max_threads"]
  const BEFORE := Stack([Layer(System, LEGACY, false), Layer(User, EIGHT, false)], Some(1))
  const AFTER := Stack([Layer(System, LEGACY, false), Layer(User, NO_AGENTS, false)], Some(1))

  /** A request to clear the number of threads. */
  predicate ClearsThreads(e: EditRequest) { ParseKeyPath(e.keyPath) == Some(THREADS) && e.value == Null }

  lemma ClearsThreadsByName(strategy: Strategy)
    ensures ClearsThreads(EditRequest("agents" + "." + "max_threads", Null, strategy))
  {
    ParseTwo("agents", "max_threads");
  }

  lemma InAgents(m: map<string, Toml>)
    ensures ValueAt(Table(map["agents" := Table(m)]), THREADS)
      == if "max_threads" in m then Some(m["max_threads"]) else None
  {
    assert THREADS[0] == "agents" && THREADS[1..] == ["max_threads"] && ["max_threads"][1..] == [];
    assert Child(Table(map["agents" := Table(m)]), "agents") == Some(Table(m));
    assert ValueAt(Table(m), ["max_threads"]) == if "max_threads" in m then Some(m["max_threads"]) else None;
  }

  lemma RenamedAgents(m: map<string, Toml>)
    requires m == map["max_concurrent_threads_per_session" := Leaf("4")]
    ensures Normalized(Table(m), ["agents"]) == Table(map["max_threads" := Leaf("4")])
  {
    assert (map k | k in m :: Normalized(m[k], ["agents"] + [k])) == m;
    assert AliasAt(["agents"]) == Some(Alias("max_concurrent_threads_per_session", "max_threads"));
    assert m - {"max_concurrent_threads_per_session"} == map[];
  }

  lemma MergedLow(m: map<string, Toml>)
    ensures Merged(EMPTY, Table(map["agents" := Table(m)]), []) == Table(map["agents" := Normalized(Table(m), ["agents"])])
  {
    assert [] + ["agents"] == ["agents"];
  }

  /** An empty table merged over a modern one changes nothing. */
  lemma MergedNothing(n: map<string, Toml>)
    requires "max_concurrent_threads_per_session" !in n
    ensures Merged(Table(map["agents" := Table(n)]), NO_AGENTS, []) == Table(map["agents" := Table(n)])
  {
    assert [] + ["agents"] == ["agents"];
    assert Merged(Table(n), Table(map[]), ["agents"]) == Table(n);
  }

  lemma TwoLayers(a: Layer, b: Layer)
    requires !a.disabled && !b.disabled
    ensures EffectiveOf([a, b]) == Merged(Merged(EMPTY, a.config, []), b.config, [])
  {
    assert [a, b][..1] == [a] && [a][..0] == [];
    assert EffectiveOf([a]) == Merged(EMPTY, a.config, []);
  }

  lemma EffectiveAfter()
    ensures ValueAt(EffectiveOf(AFTER.layers), THREADS) == Some(Leaf("4"))
  {
    var m, n := map["max_concurrent_threads_per_session" := Leaf("4")], map["max_threads" := Leaf("4")];
    TwoLayers(AFTER.layers[0], AFTER.layers[1]);
    RenamedAgents(m);
    MergedLow(m);
    MergedNothing(n);
    InAgents(n);
  }

  lemma HiddenInTwo(low: Toml, user: Toml, path: Path)
    requires ValueAt(low, path) == None && ValueAt(user, path) == None
    requires ValueAt(EffectiveOf([Layer(System, low, false), Layer(User, user, false)]), path).Some?
    ensures var s := Stack([Layer(System, low, false), Layer(User, user, false)], Some(1));
      Valid(s) && !SameReading(s, EffectiveOf(s.layers), path) && Hidden(s, path)
  {
    var layers := [Layer(System, low, false), Layer(User, user, false)];
    assert !Holds(layers[0], path) && !Holds(layers[1], path);
  }

  /** Clearing the path in the user layer hides it. */
  lemma AfterIsHidden()
    ensures ValueAt(NO_AGENTS, THREADS) == None && Hidden(AFTER, THREADS)
  {
    EffectiveAfter();
    InAgents(map["max_concurrent_threads_per_session" := Leaf("4")]);
    InAgents(map[]);
    HiddenInTwo(LEGACY, NO_AGENTS, THREADS);
  }

  lemma ClearInAgents(m: map<string, Toml>)
    requires m.Keys == {"max_threads"}
    ensures ClearAt(Table(map["agents" := Table(m)]), THREADS) == Edited(NO_AGENTS, Done(true))
  {
    assert THREADS[1..] == ["max_threads"];
    assert m - {"max_threads"} == map[];
    assert ClearAt(Table(m), ["max_threads"]) == Edited(Table(map[]), Done(true));
    assert map["agents" := Table(m)]["agents" := Table(map[])] == map["agents" := Table(map[])];
  }

  lemma ClearThreads(e: EditRequest)
    requires ClearsThreads(e)
    ensures RunBatch(EIGHT, [e]) == Applied(NO_AGENTS, [ClearPath(THREADS)], [THREADS])
  {
    var m := map["max_threads" := Leaf("8")];
    ClearInAgents(m);
    InAgents(m);
    InAgents(map[]);
    var one := RunOne(EIGHT, e);
    assert one == Applied(NO_AGENTS, [ClearPath(THREADS)], [THREADS]);
    SequelOfNothing(NO_AGENTS, one);
    assert [e][1..] == [];
  }

  lemma NoReport(t: Stack, path: Path, overridden: Option<(nat, Overridden)>)
    requires t.user.Some? && t.user.value < |t.layers| && Hidden(t, path) && Reports(t, [path], overridden)
    ensures overridden == None
  {
    assert Settled(t, [path][0]);
  }

  lemma ReplacesUser()
    ensures Valid(BEFORE) && UserConfig(BEFORE, EMPTY) == EIGHT && WithUserConfig(BEFORE, NO_AGENTS) == AFTER
  {
  }

  /** The system layer sets the number of threads by its legacy name. The user clears their
      own number, and the write reports plain `Ok`; but what is then in effect is neither
      what the user layer has nor the default, and no layer is named. */
  lemma LegacyKeyUnreported(e: EditRequest, accepts: Toml -> bool, r: Response)
    requires ClearsThreads(e) && IsResponse(BEFORE, EIGHT, [e], accepts, r) && r.Written?
    ensures Valid(BEFORE) && UserConfig(BEFORE, EMPTY) == EIGHT
    ensures r == Written(NO_AGENTS, [ClearPath(THREADS)], None)
    ensures WithUserConfig(BEFORE, r.config) == AFTER
    ensures ValueAt(NO_AGENTS, THREADS) == None && ValueAt(EffectiveOf(AFTER.layers), THREADS) == Some(Leaf("4"))
  {
    AfterIsHidden();
    ClearThreads(e);
    EffectiveAfter();
    ReplacesUser();
    NoReport(AFTER, THREADS, r.overridden);
  }
}
