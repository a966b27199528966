/** Setting, merging and clearing configuration values by path, and the log of
    edits that is replayed on the file. */
module ConfigEdits {
  import opened Prelude
  import opened Toml

  datatype Strategy = Replace | Upsert
  datatype MergeError = PathNotFound | Validation
  datatype Outcome = Done(changed: bool) | Fail(error: MergeError)

  /** A tree after an edit that may have failed half-way. */
  datatype Edited = Edited(root: Toml, outcome: Outcome)

  /** What an insertion under `key` leaves there. */
  function Inserted(m: map<string, Toml>, key: string, v: Toml, strategy: Strategy): Toml {
    if strategy == Upsert && key in m && m[key].Table? && v.Table? then Merged(m[key], v, []) else v
  }

  function InsertChanges(m: map<string, Toml>, key: string, v: Toml, strategy: Strategy): bool {
    if strategy == Upsert && key in m && m[key].Table? && v.Table? then true
    else key !in m || m[key] != v
  }

  /** Descends through `path`, making tables as needed and overwriting whatever is not
      a table on the way, but refusing to overwrite the last parent. */
  function SetAt(v: Toml, path: Path, value: Toml, strategy: Strategy): Edited
    decreases path
  {
    if path == [] then Edited(v, Fail(Validation))
    else if |path| == 1 then
      if v.Table? then
        Edited(Table(v.entries[path[0] := Inserted(v.entries, path[0], value, strategy)]),
               Done(InsertChanges(v.entries, path[0], value, strategy)))
      else Edited(v, Fail(Validation))
    else
      var m := if v.Table? then v.entries else map[];
      var sub := SetAt(if path[0] in m then m[path[0]] else EMPTY, path[1..], value, strategy);
      Edited(Table(m[path[0] := sub.root]), sub.outcome)
  }

  function ClearAt(v: Toml, path: Path): Edited {
    if path == [] then Edited(v, Fail(Validation))
    else if !v.Table? then Edited(v, Fail(PathNotFound))
    else if |path| == 1 then Edited(Table(v.entries - {path[0]}), Done(path[0] in v.entries))
    else if path[0] !in v.entries then Edited(v, Fail(PathNotFound))
    else
      var sub := ClearAt(v.entries[path[0]], path[1..]);
      Edited(Table(v.entries[path[0] := sub.root]), sub.outcome)
  }

  function Apply(root: Toml, path: Path, value: Option<Toml>, strategy: Strategy): Edited {
    match value case Some(v) => SetAt(root, path, v, strategy) case None => ClearAt(root, path)
  }

  // ----- the program: a cursor that moves down the tree -----

  /** The tables above the cursor, outermost first, each with the key taken. */
  datatype Step = Step(table: map<string, Toml>, key: string)

  function Plug(trail: seq<Step>, v: Toml): Toml {
    if trail == [] then v
    else
      var last := trail[|trail| - 1];
      Plug(trail[..|trail| - 1], Table(last.table[last.key := v]))
  }

  lemma PlugStep(trail: seq<Step>, s: Step, v: Toml)
    ensures Plug(trail + [s], v) == Plug(trail, Table(s.table[s.key := v]))
  {
    assert (trail + [s])[..|trail|] == trail;
  }

  method ApplyMerge(root: Toml, segments: Path, value: Option<Toml>, strategy: Strategy)
    returns (r: Toml, outcome: Outcome)
    ensures Edited(r, outcome) == Apply(root, segments, value, strategy)
  {
    if value == None {
      r, outcome := ClearValue(root, segments);
      return;
    }
    if segments == [] { return root, Fail(Validation); }
    var current := root;
    var trail: seq<Step> := [];
    for k := 0 to |segments| - 1
      invariant var here := SetAt(current, segments[k..], value.value, strategy);
        SetAt(root, segments, value.value, strategy) == Edited(Plug(trail, here.root), here.outcome)
    {
      assert segments[k..][1..] == segments[k + 1..];
      var segment := segments[k];
      if !current.Table? {
        current := EMPTY;
      }
      var table := current.entries;
      ghost var sub := SetAt(if segment in table then table[segment] else EMPTY, segments[k + 1..], value.value, strategy);
      PlugStep(trail, Step(table, segment), sub.root);
      trail := trail + [Step(table, segment)];
      current := if segment in table then table[segment] else EMPTY;
    }
    var last := segments[|segments| - 1];
    assert segments[|segments| - 1..] == [last];
    if !current.Table? {
      return Plug(trail, current), Fail(Validation);
    }
    outcome := Done(InsertChanges(current.entries, last, value.value, strategy));
    r := Plug(trail, Table(current.entries[last := Inserted(current.entries, last, value.value, strategy)]));
  }

  method ClearValue(root: Toml, segments: Path) returns (r: Toml, outcome: Outcome)
    ensures Edited(r, outcome) == ClearAt(root, segments)
  {
    if segments == [] { return root, Fail(Validation); }
    var current := root;
    var trail: seq<Step> := [];
    for k := 0 to |segments| - 1
      invariant var here := ClearAt(current, segments[k..]);
        ClearAt(root, segments) == Edited(Plug(trail, here.root), here.outcome)
    {
      assert segments[k..][1..] == segments[k + 1..];
      if !current.Table? || segments[k] !in current.entries {
        return Plug(trail, current), Fail(PathNotFound);
      }
      PlugStep(trail, Step(current.entries, segments[k]), ClearAt(current.entries[segments[k]], segments[k + 1..]).root);
      trail := trail + [Step(current.entries, segments[k])];
      current := current.entries[segments[k]];
    }
    var last := segments[|segments| - 1];
    assert segments[|segments| - 1..] == [last];
    if !current.Table? {
      return Plug(trail, current), Fail(PathNotFound);
    }
    return Plug(trail, Table(current.entries - {last})), Done(last in current.entries);
  }

  // ----- edits are atomic -----

  lemma {:induction false} SetFresh(path: Path, value: Toml, strategy: Strategy)
    requires path != []
    ensures SetAt(EMPTY, path, value, strategy).outcome.Done?
  {
    if |path| > 1 { SetFresh(path[1..], value, strategy); }
  }

  lemma {:induction false} SetFailUntouched(v: Toml, path: Path, value: Toml, strategy: Strategy)
    requires SetAt(v, path, value, strategy).outcome.Fail?
    ensures SetAt(v, path, value, strategy).root == v
    decreases path
  {
    if |path| > 1 {
      var m := if v.Table? then v.entries else map[];
      if path[0] in m {
        SetFailUntouched(m[path[0]], path[1..], value, strategy);
        assert m[path[0] := m[path[0]]] == m;
      } else {
        SetFresh(path[1..], value, strategy);
      }
    }
  }

  lemma {:induction false} ClearFailUntouched(v: Toml, path: Path)
    requires ClearAt(v, path).outcome.Fail?
    ensures ClearAt(v, path).root == v
    decreases path
  {
    if |path| > 1 && v.Table? && path[0] in v.entries {
      ClearFailUntouched(v.entries[path[0]], path[1..]);
      assert v.entries[path[0] := v.entries[path[0]]] == v.entries;
    }
  }

  /** A failed edit leaves the whole tree as it was, although the descent may create
      and overwrite tables on its way. */
  lemma FailedEditUntouched(root: Toml, path: Path, value: Option<Toml>, strategy: Strategy)
    requires Apply(root, path, value, strategy).outcome.Fail?
    ensures Apply(root, path, value, strategy).root == root
  {
    if value.Some? { SetFailUntouched(root, path, value.value, strategy); } else { ClearFailUntouched(root, path); }
  }

  /** Which edits fail: setting, when the last parent exists and is not a table;
      clearing, when some parent is missing or not a table. */
  ghost function ParentOf(v: Toml, path: Path): Option<Toml>
    requires path != []
    decreases path
  {
    if |path| == 1 then Some(v)
    else if !v.Table? || path[0] !in v.entries then None
    else ParentOf(v.entries[path[0]], path[1..])
  }

  lemma {:induction false} WhenEditsFail(v: Toml, path: Path, value: Toml, strategy: Strategy)
    requires path != []
    ensures SetAt(v, path, value, strategy).outcome.Fail? <==> ParentOf(v, path).Some? && !ParentOf(v, path).value.Table?
    ensures ClearAt(v, path).outcome.Fail? <==> ParentOf(v, path) == None || !ParentOf(v, path).value.Table?
    decreases path
  {
    if |path| > 1 {
      if v.Table? && path[0] in v.entries {
        WhenEditsFail(v.entries[path[0]], path[1..], value, strategy);
      } else {
        SetFresh(path[1..], value, strategy);
      }
    }
  }

  // ----- edits read back, and touch nothing else -----

  /** The value a successful set leaves at its path. */
  ghost function Outcoming(v: Toml, path: Path, value: Toml, strategy: Strategy): Toml
    requires path != []
    decreases path
  {
    var m := if v.Table? then v.entries else map[];
    if |path| == 1 then Inserted(m, path[0], value, strategy)
    else Outcoming(if path[0] in m then m[path[0]] else EMPTY, path[1..], value, strategy)
  }

  lemma {:induction false} SetReadsBack(v: Toml, path: Path, value: Toml, strategy: Strategy)
    requires SetAt(v, path, value, strategy).outcome.Done?
    ensures ValueAt(SetAt(v, path, value, strategy).root, path) == Some(Outcoming(v, path, value, strategy))
    ensures strategy == Replace ==> Outcoming(v, path, value, strategy) == value
    decreases path
  {
    if |path| > 1 {
      var m := if v.Table? then v.entries else map[];
      SetReadsBack(if path[0] in m then m[path[0]] else EMPTY, path[1..], value, strategy);
    }
  }

  /** The value says nothing at a path, nor anything that is in the way of it. */
  ghost predicate Silently(value: Toml, q: Path) {
    ValueAt(Normalized(value, []), q) == None && Open(Normalized(value, []), q)
  }

  /** A table upserted over a table: what it says, other than tables, reads back, and a
      value of the old table shows wherever the new one is silent. */
  lemma {:induction false} UpsertReadsBack(v: Toml, path: Path, value: Toml, old': Toml, q: Path)
    requires path != [] && SetAt(v, path, value, Upsert).outcome.Done? && !ThroughArray(v, path)
    requires ValueAt(v, path) == Some(old') && old'.Table? && value.Table? && q != []
    ensures var r := ValueAt(SetAt(v, path, value, Upsert).root, path);
      && r.Some?
      && (ValueAt(Normalized(value, []), q).Some? && !ValueAt(Normalized(value, []), q).value.Table? ==>
            ValueAt(r.value, q) == ValueAt(Normalized(value, []), q))
      && (Silently(value, q) && Modern(old', []) && Through(old', q) ==> ValueAt(r.value, q) == ValueAt(old', q))
  {
    SetReadsBack(v, path, value, Upsert);
    UpsertLeavesMerge(v, path, value, old');
    if ValueAt(Normalized(value, []), q).Some? {
      if !ValueAt(Normalized(value, []), q).value.Table? { OverlayWins(old', value, [], q); }
    } else if Silently(value, q) && Modern(old', []) && Through(old', q) {
      BaseShows(old', value, [], q);
    }
  }

  lemma {:induction false} UpsertLeavesMerge(v: Toml, path: Path, value: Toml, old': Toml)
    requires path != [] && !ThroughArray(v, path) && ValueAt(v, path) == Some(old') && old'.Table? && value.Table?
    ensures Outcoming(v, path, value, Upsert) == Merged(old', value, [])
    decreases path
  {
    if |path| > 1 { UpsertLeavesMerge(v.entries[path[0]], path[1..], value, old'); }
  }

  /** Any other upsert leaves the value itself, as a replacement does. */
  lemma {:induction false} UpsertReplaces(v: Toml, path: Path, value: Toml)
    requires path != [] && SetAt(v, path, value, Upsert).outcome.Done?
    requires ThroughArray(v, path) || ValueAt(v, path) == None || !ValueAt(v, path).value.Table? || !value.Table?
    ensures ValueAt(SetAt(v, path, value, Upsert).root, path) == Some(value)
  {
    SetReadsBack(v, path, value, Upsert);
    UpsertLeavesValue(v, path, value);
  }

  lemma {:induction false} UpsertLeavesValue(v: Toml, path: Path, value: Toml)
    requires path != []
    requires ThroughArray(v, path) || ValueAt(v, path) == None || !ValueAt(v, path).value.Table? || !value.Table?
    ensures Outcoming(v, path, value, Upsert) == value
    decreases path
  {
    if ThroughArray(v, path) {
      ThroughArrayLeavesValue(v, path, value, Upsert);
    } else if |path| > 1 {
      if v.Table? && path[0] in v.entries {
        UpsertLeavesValue(v.entries[path[0]], path[1..], value);
      } else {
        FreshLeavesValue(path[1..], value, Upsert);
      }
    }
  }

  /** What an edit says of itself: a clear changed something exactly when there was
      something, a replacement exactly when the same was not there already. */
  lemma {:induction false} ChangedExactly(v: Toml, path: Path, value: Toml)
    requires path != []
    ensures ClearAt(v, path).outcome.Done? ==> (ClearAt(v, path).outcome.changed <==> ValueAt(v, path).Some?)
    ensures SetAt(v, path, value, Replace).outcome.Done? ==>
      (SetAt(v, path, value, Replace).outcome.changed <==> ThroughArray(v, path) || ValueAt(v, path) != Some(value))
    decreases path
  {
    if |path| == 1 {
      assert path[1..] == [];
    } else if v.Table? && path[0] in v.entries {
      ChangedExactly(v.entries[path[0]], path[1..], value);
    } else {
      ChangedExactly(EMPTY, path[1..], value);
      EmptyReads(path[1..]);
    }
  }

  lemma {:induction false} ClearReadsBack(v: Toml, path: Path)
    requires ClearAt(v, path).outcome.Done?
    ensures ValueAt(ClearAt(v, path).root, path) == None
    decreases path
  {
    if |path| > 1 { ClearReadsBack(v.entries[path[0]], path[1..]); }
  }

  predicate Diverge(p: Path, q: Path) {
    p != [] && q != [] && (p[0] != q[0] || Diverge(p[1..], q[1..]))
  }

  /** The walk along `path` steps into an array before the path ends. */
  predicate ThroughArray(v: Toml, path: Path)
    decreases path
  {
    && path != []
    && match v
       case Array(_) => true
       case Table(m) => path[0] in m && ThroughArray(m[path[0]], path[1..])
       case Leaf(_) => false
  }

  lemma {:induction false} EmptyReads(path: Path)
    requires path != []
    ensures ValueAt(EMPTY, path) == None
  {
  }

  /** Diverging paths are untouched, as long as no array is overwritten on the way. */
  lemma {:induction false} SetFrames(v: Toml, path: Path, value: Toml, strategy: Strategy, q: Path)
    requires Diverge(path, q) && !ThroughArray(v, path)
    ensures ValueAt(SetAt(v, path, value, strategy).root, q) == ValueAt(v, q)
    decreases path
  {
    if |path| > 1 {
      var m := if v.Table? then v.entries else map[];
      if path[0] == q[0] {
        if path[0] in m {
          SetFrames(m[path[0]], path[1..], value, strategy, q[1..]);
        } else {
          SetFrames(EMPTY, path[1..], value, strategy, q[1..]);
          EmptyReads(q[1..]);
        }
      }
    }
  }

  lemma {:induction false} ClearFrames(v: Toml, path: Path, q: Path)
    requires Diverge(path, q)
    ensures ValueAt(ClearAt(v, path).root, q) == ValueAt(v, q)
    decreases path
  {
    if |path| > 1 && v.Table? && path[0] in v.entries {
      if path[0] == q[0] { ClearFrames(v.entries[path[0]], path[1..], q[1..]); }
    }
  }

  // ----- the log of edits -----

  datatype ConfigEdit = SetPath(segments: Path, value: Toml) | ClearPath(segments: Path)

  /** Applying one recorded edit to a configuration. */
  function Replay(config: Toml, edit: ConfigEdit): Toml {
    match edit
    case SetPath(p, v) => SetAt(config, p, v, Replace).root
    case ClearPath(p) => ClearAt(config, p).root
  }

  function ReplayAll(config: Toml, log: seq<ConfigEdit>): Toml
    decreases log
  {
    if log == [] then config else ReplayAll(Replay(config, log[0]), log[1..])
  }

  /** What is recorded of an edit: nothing if the path reads the same before and after. */
  function Recorded(before: Toml, after: Toml, path: Path): seq<ConfigEdit> {
    if ValueAt(before, path) == ValueAt(after, path) then []
    else match ValueAt(after, path) case Some(v) => [SetPath(path, v)] case None => [ClearPath(path)]
  }

  /** A set, of either strategy, is the plain setting of the value it leaves. */
  lemma {:induction false} SetIsReplace(v: Toml, path: Path, value: Toml, strategy: Strategy)
    requires path != [] && SetAt(v, path, value, strategy).outcome.Done?
    ensures SetAt(v, path, Outcoming(v, path, value, strategy), Replace).root == SetAt(v, path, value, strategy).root
    decreases path
  {
    if |path| > 1 {
      var m := if v.Table? then v.entries else map[];
      SetIsReplace(if path[0] in m then m[path[0]] else EMPTY, path[1..], value, strategy);
    }
  }

  /** Setting what is already there changes nothing, unless it goes through an array. */
  lemma {:induction false} SetSame(v: Toml, path: Path, value: Toml, strategy: Strategy)
    requires path != [] && SetAt(v, path, value, strategy).outcome.Done?
    requires ValueAt(v, path) == Some(Outcoming(v, path, value, strategy))
    ensures SetAt(v, path, value, strategy).root == v <==> !ThroughArray(v, path)
    decreases path
  {
    if v.Table? {
      var m := v.entries;
      assert m[path[0] := m[path[0]]] == m;
      if |path| > 1 {
        SetSame(m[path[0]], path[1..], value, strategy);
        var sub := SetAt(m[path[0]], path[1..], value, strategy).root;
        assert m[path[0] := sub][path[0]] == sub;
      }
    }
  }

  /** Below an array everything is rebuilt from scratch, so the value given is the value left. */
  lemma {:induction false} ThroughArrayLeavesValue(v: Toml, path: Path, value: Toml, strategy: Strategy)
    requires path != [] && ThroughArray(v, path)
    ensures Outcoming(v, path, value, strategy) == value
    decreases path
  {
    if |path| > 1 {
      if v.Table? {
        ThroughArrayLeavesValue(v.entries[path[0]], path[1..], value, strategy);
      } else {
        FreshLeavesValue(path[1..], value, strategy);
      }
    }
  }

  lemma {:induction false} FreshLeavesValue(path: Path, value: Toml, strategy: Strategy)
    requires path != []
    ensures Outcoming(EMPTY, path, value, strategy) == value
  {
    if |path| > 1 { FreshLeavesValue(path[1..], value, strategy); }
  }

  lemma {:induction false} ClearSame(v: Toml, path: Path)
    requires ClearAt(v, path).outcome.Done? && ValueAt(v, path) == None
    ensures ClearAt(v, path).root == v
    decreases path
  {
    if |path| == 1 {
      assert v.entries - {path[0]} == v.entries;
    } else {
      ClearSame(v.entries[path[0]], path[1..]);
      assert v.entries[path[0] := v.entries[path[0]]] == v.entries;
    }
  }

  /** An edit whose effect the log misses: it writes, below an array, the value that
      could already be read there. */
  predicate Missed(config: Toml, path: Path, value: Option<Toml>) {
    value.Some? && ThroughArray(config, path) && ValueAt(config, path) == value
  }

  /** Replaying the record of one successful edit gives the edited tree, exactly when
      the edit is not of the missed kind. */
  lemma RecordedReplays(config: Toml, path: Path, value: Option<Toml>, strategy: Strategy)
    requires path != [] && Apply(config, path, value, strategy).outcome.Done?
    ensures var after := Apply(config, path, value, strategy).root;
      ReplayAll(config, Recorded(config, after, path)) == after <==> !Missed(config, path, value)
  {
    var after := Apply(config, path, value, strategy).root;
    var log := Recorded(config, after, path);
    if value.None? {
      ClearReadsBack(config, path);
      if log == [] { ClearSame(config, path); }
    } else {
      SetReadsBack(config, path, value.value, strategy);
      if log == [] {
        SetSame(config, path, value.value, strategy);
        if ThroughArray(config, path) { ThroughArrayLeavesValue(config, path, value.value, strategy); }
      } else {
        SetIsReplace(config, path, value.value, strategy);
        if ThroughArray(config, path) { ThroughArrayLeavesValue(config, path, value.value, strategy); }
      }
    }
    if log != [] { assert log[1..] == []; }
  }

  /** Such an edit exists: rewriting element 0 of an array of tables with what it holds. */
  lemma MissedEditExists()
    ensures var config := Table(map["a" := Array([Table(map["b" := Leaf("1")])])]);
      && Missed(config, ["a", "0", "b"], Some(Leaf("1")))
      && Apply(config, ["a", "0", "b"], Some(Leaf("1")), Replace).outcome.Done?
      && Apply(config, ["a", "0", "b"], Some(Leaf("1")), Replace).root != config
      && Recorded(config, Apply(config, ["a", "0", "b"], Some(Leaf("1")), Replace).root, ["a", "0", "b"]) == []
  {
    var element := Table(map["b" := Leaf("1")]);
    var list := Array([element]);
    var config := Table(map["a" := list]);
    var p: Path := ["a", "0", "b"];
    assert p[1..] == ["0", "b"] && p[1..][1..] == ["b"] && p[1..][1..][1..] == [];
    assert "0"[..0] == "" && Decimal("0") == 0 && ParseIndex("0") == Some(0);
    assert ValueAt(element, ["b"]) == Some(Leaf("1"));
    assert ValueAt(list, ["0", "b"]) == Some(Leaf("1"));
    assert ValueAt(config, p) == Some(Leaf("1"));
    var bottom := SetAt(EMPTY, ["b"], Leaf("1"), Replace);
    var middle := SetAt(list, ["0", "b"], Leaf("1"), Replace);
    assert middle == Edited(Table(map["0" := bottom.root]), bottom.outcome);
    assert SetAt(config, p, Leaf("1"), Replace) == Edited(Table(map["a" := list]["a" := middle.root]), middle.outcome);
    assert SetAt(config, p, Leaf("1"), Replace).root.entries["a"] == middle.root;
    SetReadsBack(config, p, Leaf("1"), Replace);
    RecordedReplays(config, p, Some(Leaf("1")), Replace);
  }

  // ----- a batch of edits -----

  datatype NewValue = Null | Unparsable | Parsed(value: Toml)
  datatype EditRequest = EditRequest(keyPath: string, value: NewValue, strategy: Strategy)
  datatype WriteError = ValidationError | ConfigPathNotFound
  datatype Batch = Failed(error: WriteError) | Applied(config: Toml, log: seq<ConfigEdit>, paths: seq<Path>)

  /** `str::split('.')`. */
  function SplitDots(s: string): (r: seq<string>)
    ensures r != []
  {
    if s == [] then [""]
    else
      var rest := SplitDots(s[1..]);
      if s[0] == '.' then [""] + rest else [[s[0]] + rest[0]] + rest[1..]
  }

  lemma {:induction false} SplitDotsNone(s: string)
    requires '.' !in s
    ensures SplitDots(s) == [s]
  {
    if s != [] {
      SplitDotsNone(s[1..]);
      assert s == [s[0]] + s[1..];
    }
  }

  /** The first dot ends the first segment. */
  lemma {:induction false} SplitDotsAt(a: string, b: string)
    requires '.' !in a
    ensures SplitDots(a + "." + b) == [a] + SplitDots(b)
  {
    var s := a + "." + b;
    if a == [] {
      assert s[1..] == b;
    } else {
      SplitDotsAt(a[1..], b);
      assert s[1..] == a[1..] + "." + b;
      assert a == [a[0]] + a[1..];
    }
  }

  function ParseKeyPath(s: string): Option<Path> { if AllBlank(s) then None else Some(SplitDots(s)) }

  lemma {:induction false} ParseTwo(a: string, b: string)
    requires a != [] && !Blank(a[0]) && '.' !in a && '.' !in b
    ensures ParseKeyPath(a + "." + b) == Some([a, b])
  {
    SplitDotsAt(a, b);
    SplitDotsNone(b);
    var s := a + "." + b;
    assert s[0] == a[0] && !AllBlank(s);
    assert [a] + [b] == [a, b];
  }

  function Wanted(v: NewValue): Option<Toml> { match v case Parsed(t) => Some(t) case _ => None }

  /** One edit of a batch. */
  function RunOne(config: Toml, e: EditRequest): Batch {
    match ParseKeyPath(e.keyPath)
    case None => Failed(ValidationError)
    case Some(path) =>
      if e.value == Unparsable then Failed(ValidationError)
      else
        var r := Apply(config, path, Wanted(e.value), e.strategy);
        match r.outcome
        case Fail(err) => Failed(if err == PathNotFound then ConfigPathNotFound else ValidationError)
        case Done(_) => Applied(r.root, Recorded(config, r.root, path), [path])
  }

  ghost predicate TableParent(config: Toml, path: Path)
    requires path != []
  { ParentOf(config, path).Some? && ParentOf(config, path).value.Table? }

  /** When one edit of a batch fails, and how: a path not found is only ever reported for a
      clear whose parent is not an existing table. */
  lemma WhenOneFails(config: Toml, e: EditRequest)
    ensures RunOne(config, e).Failed? <==>
      || AllBlank(e.keyPath) || e.value == Unparsable
      || (e.value.Parsed? && ParentOf(config, SplitDots(e.keyPath)).Some? && !TableParent(config, SplitDots(e.keyPath)))
      || (e.value == Null && !TableParent(config, SplitDots(e.keyPath)))
    ensures RunOne(config, e) == Failed(ConfigPathNotFound)
      <==> RunOne(config, e).Failed? && !AllBlank(e.keyPath) && e.value == Null
    ensures RunOne(config, e).Applied? ==> RunOne(config, e).paths == [SplitDots(e.keyPath)]
  {
    if !AllBlank(e.keyPath) {
      var path := SplitDots(e.keyPath);
      match e.value
      case Parsed(v) =>
        WhenEditsFail(config, path, v, e.strategy);
        SetErrs(config, path, v, e.strategy);
      case Null =>
        WhenEditsFail(config, path, config, e.strategy);
        ClearErrs(config, path);
      case Unparsable =>
    }
  }

  lemma {:induction false} SetErrs(v: Toml, path: Path, value: Toml, strategy: Strategy)
    ensures SetAt(v, path, value, strategy).outcome.Fail? ==> SetAt(v, path, value, strategy).outcome.error == Validation
    decreases path
  {
    if |path| > 1 {
      var m := if v.Table? then v.entries else map[];
      SetErrs(if path[0] in m then m[path[0]] else EMPTY, path[1..], value, strategy);
    }
  }

  lemma {:induction false} ClearErrs(v: Toml, path: Path)
    requires path != []
    ensures ClearAt(v, path).outcome.Fail? ==> ClearAt(v, path).outcome.error == PathNotFound
    decreases path
  {
    if |path| > 1 && v.Table? && path[0] in v.entries { ClearErrs(v.entries[path[0]], path[1..]); }
  }

  function Sequel(first: Batch, rest: Batch): Batch
    requires first.Applied?
  {
    match rest
    case Failed(_) => rest
    case Applied(c, log, paths) => Applied(c, first.log + log, first.paths + paths)
  }

  function RunBatch(config: Toml, edits: seq<EditRequest>): Batch
    decreases edits
  {
    if edits == [] then Applied(config, [], [])
    else
      var one := RunOne(config, edits[0]);
      if one.Failed? then one else Sequel(one, RunBatch(one.config, edits[1..]))
  }

  /** No edit of the batch is of the missed kind when its turn comes. */
  predicate NoneMissed(config: Toml, edits: seq<EditRequest>)
    decreases edits
  {
    edits == [] ||
    match ParseKeyPath(edits[0].keyPath)
    case None => true
    case Some(path) =>
      var value := Wanted(edits[0].value);
      !Missed(config, path, value) && NoneMissed(Apply(config, path, value, edits[0].strategy).root, edits[1..])
  }

  lemma {:induction false} ReplayConcat(config: Toml, a: seq<ConfigEdit>, b: seq<ConfigEdit>)
    ensures ReplayAll(config, a + b) == ReplayAll(ReplayAll(config, a), b)
    decreases a
  {
    if a == [] {
      assert a + b == b;
    } else {
      assert (a + b)[1..] == a[1..] + b;
      ReplayConcat(Replay(config, a[0]), a[1..], b);
    }
  }

  /** Replaying only the recorded edits over the starting configuration gives the
      configuration the batch computed, although unchanged edits are left out of the log
      and merges are logged as whole values. */
  lemma {:induction false} BatchReplays(config: Toml, edits: seq<EditRequest>)
    requires NoneMissed(config, edits)
    ensures match RunBatch(config, edits)
      case Applied(final, log, _) => ReplayAll(config, log) == final
      case Failed(_) => true
    decreases edits
  {
    if edits != [] && RunBatch(config, edits).Applied? {
      var path := ParseKeyPath(edits[0].keyPath).value;
      var value := Wanted(edits[0].value);
      var after := Apply(config, path, value, edits[0].strategy).root;
      var rest := RunBatch(after, edits[1..]);
      RecordedReplays(config, path, value, edits[0].strategy);
      BatchReplays(after, edits[1..]);
      ReplayConcat(config, Recorded(config, after, path), rest.log);
    }
  }

  /** No edited path goes through an array when its turn comes. */
  predicate NoArrays(config: Toml, edits: seq<EditRequest>)
    decreases edits
  {
    edits == [] ||
    match ParseKeyPath(edits[0].keyPath)
    case None => true
    case Some(path) =>
      !ThroughArray(config, path) &&
      NoArrays(Apply(config, path, Wanted(edits[0].value), edits[0].strategy).root, edits[1..])
  }

  lemma {:induction false} NoArraysNoneMissed(config: Toml, edits: seq<EditRequest>)
    requires NoArrays(config, edits)
    ensures NoneMissed(config, edits)
    decreases edits
  {
    if edits != [] && ParseKeyPath(edits[0].keyPath).Some? {
      var path := ParseKeyPath(edits[0].keyPath).value;
      NoArraysNoneMissed(Apply(config, path, Wanted(edits[0].value), edits[0].strategy).root, edits[1..]);
    }
  }

  lemma SequelAssociates(a: Batch, b: Batch, c: Batch)
    requires a.Applied? && b.Applied?
    ensures Sequel(Sequel(a, b), c) == Sequel(a, Sequel(b, c))
  {
    if c.Applied? {
      assert (a.log + b.log) + c.log == a.log + (b.log + c.log);
      assert (a.paths + b.paths) + c.paths == a.paths + (b.paths + c.paths);
    }
  }

  lemma SequelOfNothing(config: Toml, b: Batch)
    ensures Sequel(Applied(config, [], []), b) == b
    ensures b.Applied? ==> Sequel(b, Applied(b.config, [], [])) == b
  {
    if b.Applied? {
      assert [] + b.log == b.log == b.log + [] && [] + b.paths == b.paths == b.paths + [];
    }
  }

  /** A batch with one edit more is the batch and then that edit. */
  lemma {:induction false} RunBatchPush(config: Toml, edits: seq<EditRequest>, e: EditRequest)
    ensures RunBatch(config, edits + [e]) ==
      var b := RunBatch(config, edits); if b.Failed? then b else Sequel(b, RunOne(b.config, e))
    decreases edits
  {
    if edits == [] {
      assert edits + [e] == [e] && [e][1..] == [];
      SequelOfNothing(config, RunOne(config, e));
    } else {
      assert (edits + [e])[1..] == edits[1..] + [e];
      var one := RunOne(config, edits[0]);
      if one.Applied? {
        var rest := RunBatch(one.config, edits[1..]);
        RunBatchPush(one.config, edits[1..], e);
        if rest.Applied? { SequelAssociates(one, rest, RunOne(rest.config, e)); }
      }
    }
  }

  /** The edit loop. */
  method ApplyEdits(start: Toml, edits: seq<EditRequest>) returns (r: Batch)
    ensures r == RunBatch(start, edits)
    ensures NoneMissed(start, edits) && r.Applied? ==> ReplayAll(start, r.log) == r.config
  {
    var config := start;
    var log: seq<ConfigEdit> := [];
    var paths: seq<Path> := [];
    for k := 0 to |edits|
      invariant RunBatch(start, edits[..k]) == Applied(config, log, paths)
    {
      var e := edits[k];
      RunBatchPush(start, edits[..k], e);
      assert edits[..k + 1] == edits[..k] + [e];
      FailedPrefix(start, edits, k + 1);
      var segments := ParseKeyPath(e.keyPath);
      if segments == None { return Failed(ValidationError); }
      var original := ValueAtPath(config, segments.value);
      if e.value == Unparsable { return Failed(ValidationError); }
      var after, outcome := ApplyMerge(config, segments.value, Wanted(e.value), e.strategy);
      if outcome.Fail? {
        return Failed(if outcome.error == PathNotFound then ConfigPathNotFound else ValidationError);
      }
      var updated := ValueAtPath(after, segments.value);
      if original != updated {
        match updated
        case Some(v) => log := log + [SetPath(segments.value, v)];
        case None => log := log + [ClearPath(segments.value)];
      } else {
        assert log + [] == log;
      }
      paths := paths + [segments.value];
      config := after;
    }
    assert edits[..|edits|] == edits;
    r := Applied(config, log, paths);
    if NoneMissed(start, edits) { BatchReplays(start, edits); }
  }

  /** A batch fails as soon as a beginning of it does. */
  lemma {:induction false} FailedPrefix(config: Toml, edits: seq<EditRequest>, k: nat)
    requires k <= |edits|
    ensures RunBatch(config, edits[..k]).Failed? ==> RunBatch(config, edits) == RunBatch(config, edits[..k])
    decreases |edits| - k
  {
    if k < |edits| {
      assert edits[..k + 1] == edits[..k] + [edits[k]];
      RunBatchPush(config, edits[..k], edits[k]);
      FailedPrefix(config, edits, k + 1);
    } else {
      assert edits[..k] == edits;
    }
  }
}
