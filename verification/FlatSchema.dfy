/** Flattening the `v2` namespace of a schema bundle into its root definitions. */
module FlatSchema {
  import opened Prelude
  import opened SchemaRefs

  const SHARED: set<string> := {"ClientRequest", "ServerNotification"}

  // ----- rewriting references -----

  /** `str::replace`: every occurrence, left to right. */
  function ReplaceAll(s: string, pattern: string, to: string): string
    requires pattern != []
  {
    if s == [] then []
    else if pattern <= s then to + ReplaceAll(s[|pattern|..], pattern, to)
    else [s[0]] + ReplaceAll(s[1..], pattern, to)
  }

  function RewriteRef(r: string): string { ReplaceAll(r, V2, DEFS) }

  function Rewrite(v: Value): Value {
    match v
    case List(items) => List(seq(|items|, i requires 0 <= i < |items| => Rewrite(items[i])))
    case Object(m) =>
      Object(map k | k in m :: if k == "$ref" && m[k].Text? then Text(RewriteRef(m[k].s)) else Rewrite(m[k]))
    case _ => v
  }

  predicate Simple(name: string) { '/' !in name }

  /** No occurrence of `#/`, with which the pattern begins. */
  ghost predicate NoHashSlash(s: string) { forall i | 0 <= i < |s| - 1 :: !(s[i] == '#' && s[i + 1] == '/') }

  lemma PrefixText()
    ensures |DEFS| == 14 && |V2| == 17 && V2[0] == '#' && V2[1] == '/' && V2[16] == '/'
  {
  }

  lemma {:induction false} ReplaceNothing(s: string)
    requires NoHashSlash(s)
    ensures RewriteRef(s) == s
  {
    if s != [] {
      PrefixText();
      assert NoHashSlash(s[1..]);
      ReplaceNothing(s[1..]);
      assert s == [s[0]] + s[1..];
    }
  }

  /** The first occurrence of the pattern is replaced, what precedes it stays, and what
      follows it is treated in the same way. */
  lemma {:induction false} ReplaceFirst(a: string, pattern: string, b: string, to: string)
    requires pattern != [] && forall i | 0 <= i < |a| :: !(pattern <= (a + pattern + b)[i..])
    ensures ReplaceAll(a + pattern + b, pattern, to) == a + to + ReplaceAll(b, pattern, to)
  {
    var s := a + pattern + b;
    if a == [] {
      assert s == pattern + b && s[|pattern|..] == b;
    } else {
      assert s[0..] == s && s[1..] == a[1..] + pattern + b;
      forall i | 0 <= i < |a[1..]| ensures !(pattern <= (a[1..] + pattern + b)[i..]) { assert s[1..][i..] == s[i + 1..]; }
      ReplaceFirst(a[1..], pattern, b, to);
      assert [s[0]] + (a[1..] + to + ReplaceAll(b, pattern, to)) == a + to + ReplaceAll(b, pattern, to);
    }
  }

  /** A text in which the pattern does not occur stays. */
  lemma {:induction false} ReplaceAbsent(s: string, pattern: string, to: string)
    requires pattern != [] && forall i | 0 <= i < |s| :: !(pattern <= s[i..])
    ensures ReplaceAll(s, pattern, to) == s
  {
    if s != [] {
      assert s[0..] == s;
      forall i | 0 <= i < |s[1..]| ensures !(pattern <= s[1..][i..]) { assert s[1..][i..] == s[i + 1..]; }
      ReplaceAbsent(s[1..], pattern, to);
      assert [s[0]] + s[1..] == s;
    }
  }

  lemma RewriteV2(n: string)
    requires Simple(n)
    ensures RewriteRef(V2 + n) == DEFS + n
  {
    assert (V2 + n)[|V2|..] == n;
    ReplaceNothing(n);
  }

  /** A simple root name keeps its reference and is not mistaken for a `v2` one. */
  lemma RewriteRoot(n: string)
    requires Simple(n)
    ensures RewriteRef(DEFS + n) == DEFS + n && !(V2 <= DEFS + n)
  {
    var r := DEFS + n;
    PrefixText();
    assert |r| >= 17 ==> r[16] == n[2];
    assert r[1..] == "/definitions/" + n;
    assert NoHashSlash(r[1..]);
    ReplaceNothing(r[1..]);
    assert r == [r[0]] + r[1..];
  }

  lemma RefHereRewrite(v: Value)
    ensures RefHere(Rewrite(v)) == Rewritten(RefHere(v))
  {
  }

  function Rewritten(refs: set<string>): set<string> { set r | r in refs :: RewriteRef(r) }

  lemma ListRefsRewrite(v: Value)
    requires v.List? && forall i | 0 <= i < |v.items| :: Refs(Rewrite(v.items[i])) == Rewritten(Refs(v.items[i]))
    ensures Refs(Rewrite(v)) == Rewritten(Refs(v))
  {
    var w := Rewrite(v);
    forall r | r in Refs(v) ensures RewriteRef(r) in Refs(w) {
      var i :| 0 <= i < |v.items| && r in Refs(v.items[i]);
      assert RewriteRef(r) in Refs(w.items[i]);
    }
    forall s | s in Refs(w) ensures s in Rewritten(Refs(v)) {
      var i :| 0 <= i < |v.items| && s in Refs(w.items[i]);
      var r :| r in Refs(v.items[i]) && s == RewriteRef(r);
      assert r in Refs(v);
    }
  }

  lemma FieldRefs(v: Value, k: string)
    requires v.Object? && k in v.fields && Refs(Rewrite(v.fields[k])) == Rewritten(Refs(v.fields[k]))
    ensures Refs(Rewrite(v).fields[k]) == Rewritten(Refs(v.fields[k]))
  {
  }

  lemma ObjectRefsRewrite(v: Value)
    requires v.Object? && forall k | k in v.fields :: Refs(Rewrite(v.fields[k])) == Rewritten(Refs(v.fields[k]))
    ensures Refs(Rewrite(v)) == Rewritten(Refs(v))
  {
    var w := Rewrite(v);
    RefHereRewrite(v);
    forall r | r in Refs(v) ensures RewriteRef(r) in Refs(w) {
      if r in RefHere(v) {
        assert RewriteRef(r) in RefHere(w);
      } else {
        var k :| k in v.fields && r in Refs(v.fields[k]);
        FieldRefs(v, k);
        assert k in w.fields && RewriteRef(r) in Refs(w.fields[k]);
      }
    }
    forall s | s in Refs(w) ensures s in Rewritten(Refs(v)) {
      if s in RefHere(w) {
        var r :| r in RefHere(v) && s == RewriteRef(r);
        assert r in Refs(v);
      } else {
        var k :| k in w.fields && s in Refs(w.fields[k]);
        FieldRefs(v, k);
        var r :| r in Refs(v.fields[k]) && s == RewriteRef(r);
        assert r in Refs(v);
      }
    }
  }

  /** Rewriting a value rewrites its references, each one and no others. */
  lemma {:induction false} RefsRewrite(v: Value)
    ensures Refs(Rewrite(v)) == Rewritten(Refs(v))
  {
    match v
    case List(items) =>
      forall i | 0 <= i < |items| { RefsRewrite(items[i]); }
      ListRefsRewrite(v);
    case Object(m) =>
      forall k | k in m { RefsRewrite(m[k]); }
      ObjectRefsRewrite(v);
    case _ =>
  }

  /** What `w` has at a place, given what `v` has there: the same, but for references. */
  ghost predicate SameAt(v: Value, w: Value, place: seq<Hop>) {
    match At(v, place)
    case None => At(w, place) == None
    case Some(Scalar(text)) => At(w, place) == Some(Scalar(text))
    case Some(Text(s)) => At(w, place) == Some(Text(if AtRef(place) then RewriteRef(s) else s))
    case Some(List(items)) =>
      At(w, place).Some? && At(w, place).value.List? && |At(w, place).value.items| == |items|
    case Some(Object(m)) =>
      At(w, place).Some? && At(w, place).value.Object? && At(w, place).value.fields.Keys == m.Keys
  }

  /** Rewriting keeps every key, every list length and every leaf that is not a reference,
      at every place. */
  lemma {:induction false} RewriteAt(v: Value, place: seq<Hop>)
    ensures SameAt(v, Rewrite(v), place)
    decreases |place|
  {
    if place != [] {
      match place[0]
      case Key(k) =>
        if v.Object? && k in v.fields {
          if k == "$ref" && v.fields[k].Text? {
            TextAt(v.fields[k].s, place[1..]);
            TextAt(RewriteRef(v.fields[k].s), place[1..]);
          } else {
            RewriteAt(v.fields[k], place[1..]);
          }
        }
      case Index(i) =>
        if v.List? && i < |v.items| { RewriteAt(v.items[i], place[1..]); }
    }
  }

  lemma TextAt(s: string, place: seq<Hop>)
    ensures At(Text(s), place) == if place == [] then Some(Text(s)) else None
  {
  }

  /** A value whose references stay is left alone. */
  lemma {:induction false} RewriteFixed(v: Value)
    requires forall r | r in Refs(v) :: RewriteRef(r) == r
    ensures Rewrite(v) == v
  {
    match v
    case List(items) =>
      forall i | 0 <= i < |items| ensures Rewrite(items[i]) == items[i] {
        assert forall r | r in Refs(items[i]) :: r in Refs(v);
        RewriteFixed(items[i]);
      }
    case Object(m) =>
      forall k | k in m ensures Rewrite(v).fields[k] == m[k] {
        assert forall r | r in Refs(m[k]) :: r in Refs(v);
        RewriteFixed(m[k]);
        if k == "$ref" && m[k].Text? { assert m[k].s in RefHere(v); }
      }
      assert Rewrite(v).fields == m;
    case _ =>
  }

  // ----- bundles -----

  datatype Outcome = Flat(bundle: Value) | Refused(reason: Reason)
  datatype Reason = NoDefinitions | NoNamespace | NamespacedRef | Missing(names: set<string>)

  ghost predicate HasNamespace(bundle: Value) {
    ObjectField(bundle, "definitions").Some? && ObjectField(Object(Definitions(bundle)), "v2").Some?
  }

  function Namespace(bundle: Value): map<string, Value> {
    match ObjectField(Object(Definitions(bundle)), "v2") case Some(m) => m case None => map[]
  }

  function SharedHere(bundle: Value): set<string> { Definitions(bundle).Keys * SHARED }

  /** The root names that the shared definitions refer to directly. */
  function SharedRoots(bundle: Value): set<string> {
    set s, n | s in SharedHere(bundle) && n in NonV2Names(Refs(Definitions(bundle)[s])) :: n
  }

  /** The flat definition map before references are rewritten: `v2`, then what the
      shared definitions need, then the shared definitions themselves. */
  function FlatDefinitions(bundle: Value, deps: set<string>): map<string, Value> {
    var defs, v2 := Definitions(bundle), Namespace(bundle);
    v2
    + (map n | n in defs && n in deps && n != "v2" && n !in v2 :: defs[n])
    + (map n | n in SharedHere(bundle) :: defs[n])
  }

  function FlatTitle(bundle: Value): string {
    (match TextField(bundle, "title") case Some(t) => t case None => "CodexAppServerProtocol") + "V2"
  }

  function Plain(bundle: Value, deps: set<string>): Value
    requires bundle.Object?
  {
    Object(bundle.fields["title" := Text(FlatTitle(bundle))]["definitions" := Object(FlatDefinitions(bundle, deps))])
  }

  /** The flat bundle before the final checks. */
  function Unchecked(bundle: Value, deps: set<string>): Value
    requires bundle.Object?
  {
    Rewrite(Plain(bundle, deps))
  }

  function NamespacedRefs(v: Value): set<string> { set r | r in Refs(v) && V2 <= r }

  function MissingNames(v: Value): set<string> {
    set n | n in LocalNames(Refs(v)) && n !in Definitions(v)
  }

  // ----- what a bundle must satisfy -----

  /** Every reference is to a root definition or to one in `v2`, by a name without `/`. */
  ghost predicate LocalRef(r: string) {
    (exists n :: Simple(n) && r == DEFS + n) || (exists n :: Simple(n) && r == V2 + n)
  }

  /** What a reference of the original bundle points to. */
  function ResolveBundle(bundle: Value, r: string): Option<Value> {
    if V2 <= r then
      (if r[|V2|..] in Namespace(bundle) then Some(Namespace(bundle)[r[|V2|..]]) else None)
    else if DEFS <= r then
      (if r[|DEFS|..] in Definitions(bundle) && r[|DEFS|..] != "v2" then Some(Definitions(bundle)[r[|DEFS|..]]) else None)
    else None
  }

  ghost predicate RefsResolve(bundle: Value, v: Value) {
    forall r | r in Refs(v) :: LocalRef(r) && ResolveBundle(bundle, r).Some?
  }

  /** Reference-closed, definitions are schemas rather than strings, nothing outside
      the definition map refers into it, and `v2` refers only to itself. */
  ghost predicate WellFormed(bundle: Value) {
    && HasNamespace(bundle)
    && (forall k | k in bundle.fields && k != "definitions" ::
          Refs(bundle.fields[k]) == {} && (k == "$ref" ==> !bundle.fields[k].Text?))
    && (forall n | n in Definitions(bundle) && n != "v2" ::
          !Definitions(bundle)[n].Text? && RefsResolve(bundle, Definitions(bundle)[n]))
    && (forall n | n in Namespace(bundle) :: !Namespace(bundle)[n].Text? && RefsResolve(bundle, Namespace(bundle)[n]))
    && (forall n, r | n in Namespace(bundle) && r in Refs(Namespace(bundle)[n]) :: V2 <= r)
  }

  /** The original definition behind a name of the flat map. */
  ghost function Origin(bundle: Value, n: string): Value
    requires n in Namespace(bundle) || n in Definitions(bundle)
  {
    if n in SharedHere(bundle) then Definitions(bundle)[n]
    else if n in Namespace(bundle) then Namespace(bundle)[n]
    else Definitions(bundle)[n]
  }

  ghost function FlatNames(bundle: Value, deps: set<string>): set<string> {
    Namespace(bundle).Keys + (Definitions(bundle).Keys * deps - {"v2"}) + SharedHere(bundle)
  }

  lemma FlatMapIs(bundle: Value, deps: set<string>)
    ensures FlatDefinitions(bundle, deps).Keys == FlatNames(bundle, deps)
    ensures forall n | n in FlatNames(bundle, deps) :: FlatDefinitions(bundle, deps)[n] == Origin(bundle, n)
  {
  }

  lemma UncheckedIs(bundle: Value, deps: set<string>)
    requires WellFormed(bundle)
    ensures var u := Unchecked(bundle, deps);
      && Definitions(u).Keys == FlatNames(bundle, deps)
      && forall n | n in FlatNames(bundle, deps) :: Definitions(u)[n] == Rewrite(Origin(bundle, n))
  {
    FlatMapIs(bundle, deps);
    var plain := Plain(bundle, deps);
    assert plain.fields["definitions"] == Object(FlatDefinitions(bundle, deps));
    var d := Rewrite(Object(FlatDefinitions(bundle, deps)));
    assert Rewrite(plain).fields["definitions"] == d;
    forall n | n in FlatNames(bundle, deps) ensures d.fields[n] == Rewrite(Origin(bundle, n)) {
      assert !Origin(bundle, n).Text? by {
        assert n in Definitions(bundle) ==> n != "v2" ==> !Definitions(bundle)[n].Text?;
      }
    }
  }

  /** References inside an object that is not itself a reference lie in its fields. */
  lemma RefInField(v: Value, r: string)
    requires v.Object? && r in Refs(v) && TextField(v, "$ref") == None
    ensures exists k :: k in v.fields && r in Refs(v.fields[k])
  {
  }

  lemma FlatMapPlain(bundle: Value, deps: set<string>)
    requires WellFormed(bundle)
    ensures TextField(Object(FlatDefinitions(bundle, deps)), "$ref") == None
  {
    FlatMapIs(bundle, deps);
  }

  lemma PlainFields(bundle: Value, deps: set<string>, k: string)
    requires WellFormed(bundle) && k in Plain(bundle, deps).fields
    ensures k != "definitions" ==> Refs(Plain(bundle, deps).fields[k]) == {}
    ensures TextField(Plain(bundle, deps), "$ref") == None
  {
  }

  lemma PlainRefs(bundle: Value, deps: set<string>, r: string)
    requires WellFormed(bundle) && r in Refs(Plain(bundle, deps))
    ensures exists n :: n in FlatNames(bundle, deps) && r in Refs(Origin(bundle, n))
  {
    var plain := Plain(bundle, deps);
    var flat := Object(FlatDefinitions(bundle, deps));
    PlainFields(bundle, deps, "definitions");
    RefInField(plain, r);
    var k :| k in plain.fields && r in Refs(plain.fields[k]);
    PlainFields(bundle, deps, k);
    FlatMapPlain(bundle, deps);
    RefInField(flat, r);
    var n :| n in flat.fields && r in Refs(flat.fields[n]);
    FlatMapIs(bundle, deps);
  }

  /** The references of the flat bundle are the rewritten references of its origins. */
  lemma UncheckedRefs(bundle: Value, deps: set<string>, s: string)
    requires WellFormed(bundle) && s in Refs(Unchecked(bundle, deps))
    ensures exists n, r :: n in FlatNames(bundle, deps) && r in Refs(Origin(bundle, n)) && s == RewriteRef(r)
  {
    RefsRewrite(Plain(bundle, deps));
    var r :| r in Refs(Plain(bundle, deps)) && s == RewriteRef(r);
    PlainRefs(bundle, deps, r);
  }

  /** A reference kept in the flat bundle names something that was pulled in. */
  lemma KeptTargetPresent(bundle: Value, deps: set<string>, n: string, r: string)
    requires WellFormed(bundle) && LeastClosed(Edges(Definitions(bundle)), SharedRoots(bundle), deps)
    requires n in FlatNames(bundle, deps) && r in Refs(Origin(bundle, n))
    ensures LocalRef(r) && ResolveBundle(bundle, r).Some?
    ensures V2 <= r ==> r[|V2|..] in Namespace(bundle) && RewriteRef(r) == DEFS + r[|V2|..] && Simple(r[|V2|..])
    ensures !(V2 <= r) ==> DEFS <= r && RewriteRef(r) == r && Simple(r[|DEFS|..])
    ensures !(V2 <= r) ==> r[|DEFS|..] in deps && r[|DEFS|..] in Definitions(bundle) && r[|DEFS|..] != "v2"
  {
    assert RefsResolve(bundle, Origin(bundle, n));
    if V2 <= r {
      if m :| Simple(m) && r == V2 + m {
        assert r[|V2|..] == m;
        RewriteV2(m);
      } else {
        var m :| Simple(m) && r == DEFS + m;
        RewriteRoot(m);
      }
    } else {
      var m :| Simple(m) && r == DEFS + m;
      assert r[|DEFS|..] == m;
      RewriteRoot(m);
      if n in SharedHere(bundle) {
        assert m in NonV2Names(Refs(Definitions(bundle)[n]));
        assert m in SharedRoots(bundle);
      } else {
        assert n in deps && m in Edges(Definitions(bundle))[n];
      }
    }
  }

  lemma SimpleFirstSegment(n: string)
    requires Simple(n)
    ensures FirstSegment(n) == n
  {
    if n != [] {
      assert n == [n[0]] + n[1..];
      SimpleFirstSegment(n[1..]);
    }
  }

  lemma RefTarget(n: string)
    requires Simple(n)
    ensures FirstSegment((DEFS + n)[|DEFS|..]) == n && !(V2 <= DEFS + n) && DEFS <= DEFS + n
  {
    assert (DEFS + n)[|DEFS|..] == n;
    SimpleFirstSegment(n);
    RewriteRoot(n);
  }

  /** The name in the flat map that a kept reference is rewritten to. */
  ghost function TargetName(r: string): string
    requires V2 <= r || DEFS <= r
  { if V2 <= r then r[|V2|..] else r[|DEFS|..] }

  lemma KeptRefResolves(bundle: Value, deps: set<string>, n: string, r: string)
    requires WellFormed(bundle) && LeastClosed(Edges(Definitions(bundle)), SharedRoots(bundle), deps)
    requires n in FlatNames(bundle, deps) && r in Refs(Origin(bundle, n))
    ensures V2 <= r || DEFS <= r
    ensures var m := TargetName(r);
      && m in FlatNames(bundle, deps) && RewriteRef(r) == DEFS + m && Simple(m)
      && Resolve(Unchecked(bundle, deps), RewriteRef(r)) == Some(Rewrite(Origin(bundle, m)))
  {
    KeptTargetPresent(bundle, deps, n, r);
    var m := TargetName(r);
    assert DEFS + r[|DEFS|..] == r || V2 <= r;
    RefTarget(m);
    UncheckedIs(bundle, deps);
  }

  /** On a well-formed bundle flattening succeeds. */
  lemma FlatteningSucceeds(bundle: Value, deps: set<string>)
    requires WellFormed(bundle) && LeastClosed(Edges(Definitions(bundle)), SharedRoots(bundle), deps)
    ensures var u := Unchecked(bundle, deps);
      NamespacedRefs(u) == {} && MissingNames(u) == {}
  {
    var u := Unchecked(bundle, deps);
    UncheckedIs(bundle, deps);
    forall s | s in Refs(u) ensures !(V2 <= s) && DEFS <= s && FirstSegment(s[|DEFS|..]) in Definitions(u) {
      UncheckedRefs(bundle, deps, s);
      var n, r :| n in FlatNames(bundle, deps) && r in Refs(Origin(bundle, n)) && s == RewriteRef(r);
      KeptRefResolves(bundle, deps, n, r);
      RefTarget(TargetName(r));
    }
  }

  /** No reference of the value is namespaced, and each local one finds its definition. */
  ghost predicate Sound(v: Value) {
    forall place, r | RefAt(v, place, r) :: !(V2 <= r) && (DEFS <= r ==> Resolve(v, r).Some?)
  }

  /** The two final checks together look for exactly the references that are unsound. */
  lemma {:induction false} ChecksAreSound(v: Value)
    ensures NamespacedRefs(v) == {} && MissingNames(v) == {} <==> Sound(v)
    ensures forall n :: n in MissingNames(v) <==>
      n !in Definitions(v) && exists place, r :: RefAt(v, place, r) && DEFS <= r && FirstSegment(r[|DEFS|..]) == n
  {
    forall r ensures r in Refs(v) <==> exists place :: RefAt(v, place, r) { RefsByPlace(v, r); }
    if NamespacedRefs(v) == {} && MissingNames(v) == {} {
      forall place, r | RefAt(v, place, r) ensures !(V2 <= r) && (DEFS <= r ==> Resolve(v, r).Some?) {
        SoundAt(v, r);
      }
    }
    if Sound(v) {
      forall r | r in Refs(v) ensures !(V2 <= r) && (DEFS <= r ==> FirstSegment(r[|DEFS|..]) in Definitions(v)) {
        var place :| RefAt(v, place, r);
      }
    }
  }

  lemma SoundAt(v: Value, r: string)
    requires r in Refs(v) && NamespacedRefs(v) == {} && MissingNames(v) == {}
    ensures !(V2 <= r) && (DEFS <= r ==> Resolve(v, r).Some?)
  {
    assert V2 <= r ==> r in NamespacedRefs(v);
    if DEFS <= r {
      LocalNameOf(Refs(v), r);
      assert FirstSegment(r[|DEFS|..]) !in MissingNames(v);
    }
  }

  ghost function SuffixedTitle(bundle: Value): string {
    match TextField(bundle, "title") case Some(t) => t + "V2" case None => "CodexAppServerProtocolV2"
  }

  lemma {:induction false} TitleIs(bundle: Value, deps: set<string>)
    requires bundle.Object?
    ensures "title" in Unchecked(bundle, deps).fields
    ensures Unchecked(bundle, deps).fields["title"] == Text(SuffixedTitle(bundle))
  {
    assert "CodexAppServerProtocol" + "V2" == "CodexAppServerProtocolV2";
    var plain := Plain(bundle, deps);
    assert plain.fields["title"] == Text(FlatTitle(bundle));
    assert Rewrite(Text(FlatTitle(bundle))) == Text(FlatTitle(bundle));
  }

  /** What is flat about a bundle: its definitions are those of `v2`, of the shared names and
      of the names these need, each the same as its original but for references; its title
      gets a suffix and its other fields stay. */
  ghost predicate FlatOf(bundle: Value, deps: set<string>, r: Value)
    requires HasNamespace(bundle)
  {
    && r.Object? && r.fields.Keys == bundle.fields.Keys + {"title"}
    && (forall k | k in bundle.fields && k != "title" && k != "definitions" :: r.fields[k] == bundle.fields[k])
    && r.fields["title"] == Text(SuffixedTitle(bundle))
    && Definitions(r).Keys == FlatNames(bundle, deps)
    && (forall n | n in Definitions(bundle) && (n == "ClientRequest" || n == "ServerNotification") ::
          n in FlatNames(bundle, deps) && Origin(bundle, n) == Definitions(bundle)[n])
    && forall n, place | n in FlatNames(bundle, deps) :: SameAt(Origin(bundle, n), Definitions(r)[n], place)
  }

  lemma {:induction false} FlatRoot(bundle: Value, deps: set<string>, k: string)
    requires WellFormed(bundle) && k in bundle.fields && k != "title" && k != "definitions"
    ensures Unchecked(bundle, deps).fields[k] == bundle.fields[k]
  {
    RewriteFixed(bundle.fields[k]);
    assert Plain(bundle, deps).fields[k] == bundle.fields[k];
  }

  lemma {:induction false} UncheckedIsFlat(bundle: Value, deps: set<string>)
    requires WellFormed(bundle)
    ensures FlatOf(bundle, deps, Unchecked(bundle, deps))
  {
    var u := Unchecked(bundle, deps);
    UncheckedIs(bundle, deps);
    forall k | k in bundle.fields && k != "title" && k != "definitions" ensures u.fields[k] == bundle.fields[k] {
      FlatRoot(bundle, deps, k);
    }
    TitleIs(bundle, deps);
    forall n, place | n in FlatNames(bundle, deps) ensures SameAt(Origin(bundle, n), Definitions(u)[n], place) {
      RewriteAt(Origin(bundle, n), place);
    }
  }

  /** Each refusal exactly when its check finds something. */
  method BuildFlatV2Schema(bundle: Value) returns (r: Outcome, ghost deps: set<string>)
    ensures r.Refused? && r.reason.NoDefinitions? <==> ObjectField(bundle, "definitions") == None
    ensures r.Refused? && r.reason.NoNamespace? <==> ObjectField(bundle, "definitions").Some? && !HasNamespace(bundle)
    ensures HasNamespace(bundle) ==> LeastClosed(Edges(Definitions(bundle)), SharedRoots(bundle), deps)
    ensures HasNamespace(bundle) ==>
      var u := Unchecked(bundle, deps);
      r == if NamespacedRefs(u) != {} then Refused(NamespacedRef)
           else if MissingNames(u) != {} then Refused(Missing(MissingNames(u)))
           else Flat(u)
    ensures r.Flat? ==> Sound(r.bundle)
    ensures WellFormed(bundle) ==> r == Flat(Unchecked(bundle, deps)) && FlatOf(bundle, deps, r.bundle)
  {
    deps := {};
    if ObjectField(bundle, "definitions") == None { return Refused(NoDefinitions), deps; }
    var definitions := Definitions(bundle);
    if ObjectField(Object(definitions), "v2") == None { return Refused(NoNamespace), deps; }
    var names := CollectDefinitionDependencies(definitions, SharedRoots(bundle));
    deps := names;
    var u := Unchecked(bundle, names);
    if WellFormed(bundle) {
      FlatteningSucceeds(bundle, deps);
      UncheckedIsFlat(bundle, deps);
    }
    ChecksAreSound(u);
    if NamespacedRefs(u) != {} { return Refused(NamespacedRef), deps; }
    if MissingNames(u) != {} { return Refused(Missing(MissingNames(u))), deps; }
    return Flat(u), deps;
  }

  /** A reference keeps its meaning: the rewritten reference finds, in the flat bundle,
      the rewritten form of what the original reference found. */
  ghost predicate MeaningKept(bundle: Value, deps: set<string>, r: string) {
    && ResolveBundle(bundle, r).Some?
    && Resolve(Unchecked(bundle, deps), RewriteRef(r)) == Some(Rewrite(ResolveBundle(bundle, r).value))
  }

  /** A name that the root and `v2` both define, differently. */
  ghost predicate Clashes(bundle: Value, m: string) {
    && m in Namespace(bundle) && m in Definitions(bundle)
    && Rewrite(Namespace(bundle)[m]) != Rewrite(Definitions(bundle)[m])
  }

  /** Exactly which references keep their meaning: all but those whose name clashes,
      when the flat map took the other one of the two. */
  lemma {:induction false} FlatteningMeaning(bundle: Value, deps: set<string>, n: string, r: string)
    requires WellFormed(bundle) && LeastClosed(Edges(Definitions(bundle)), SharedRoots(bundle), deps)
    requires n in FlatNames(bundle, deps) && r in Refs(Origin(bundle, n))
    ensures V2 <= r || DEFS <= r
    ensures MeaningKept(bundle, deps, r) <==>
      !(Clashes(bundle, TargetName(r)) && (V2 <= r <==> TargetName(r) in SHARED))
  {
    KeptTargetPresent(bundle, deps, n, r);
    KeptRefResolves(bundle, deps, n, r);
  }

  /** With no name defined on both sides, flattening succeeds and preserves the
      meaning of every reference it keeps. */
  lemma {:induction false} FlatteningPreservesMeaning(bundle: Value, deps: set<string>)
    requires WellFormed(bundle) && LeastClosed(Edges(Definitions(bundle)), SharedRoots(bundle), deps)
    requires Namespace(bundle).Keys !! Definitions(bundle).Keys
    ensures forall n, r | n in FlatNames(bundle, deps) && r in Refs(Origin(bundle, n)) :: MeaningKept(bundle, deps, r)
    ensures forall n | n in Namespace(bundle) :: Origin(bundle, n) == Namespace(bundle)[n]
    ensures var u := Unchecked(bundle, deps);
      NamespacedRefs(u) == {} && MissingNames(u) == {}
  {
    FlatteningSucceeds(bundle, deps);
    forall n, r | n in FlatNames(bundle, deps) && r in Refs(Origin(bundle, n)) ensures MeaningKept(bundle, deps, r) {
      FlatteningMeaning(bundle, deps, n, r);
    }
  }

  const REFERS_TO_A := Object(map["$ref" := Text(DEFS + "A")])
  const TWO_AS := map["v2" := Object(map["A" := Scalar("2")]), "ClientRequest" := REFERS_TO_A, "A" := Scalar("1")]
  const CLASHING := Object(map["definitions" := Object(TWO_AS)])

  lemma ClashingParts()
    ensures HasNamespace(CLASHING) && Definitions(CLASHING) == TWO_AS && Namespace(CLASHING) == map["A" := Scalar("2")]
    ensures Refs(REFERS_TO_A) == {DEFS + "A"} && Refs(Scalar("1")) == {} && Refs(Scalar("2")) == {}
    ensures (DEFS + "A")[|DEFS|..] == "A" && !(V2 <= DEFS + "A")
  {
    RewriteRoot("A");
  }

  lemma ClashingIsWellFormed()
    ensures WellFormed(CLASHING)
  {
    ClashingParts();
    assert Simple("A") && LocalRef(DEFS + "A");
    assert ResolveBundle(CLASHING, DEFS + "A") == Some(Scalar("1"));
  }

  lemma ClashingDeps()
    ensures SharedRoots(CLASHING) == {"A"} && LeastClosed(Edges(Definitions(CLASHING)), SharedRoots(CLASHING), {"A"})
  {
    ClashingParts();
    assert SharedHere(CLASHING) == {"ClientRequest"};
    assert NonV2Names({DEFS + "A"}) == {"A"};
    assert Edges(TWO_AS)["A"] == {};
  }

  lemma {:induction false} ClashingDepsAre(deps: set<string>)
    requires LeastClosed(Edges(Definitions(CLASHING)), SharedRoots(CLASHING), deps)
    ensures deps == {"A"}
  {
    ClashingDeps();
    LeastClosedUnique(Edges(Definitions(CLASHING)), SharedRoots(CLASHING), deps, {"A"});
  }

  lemma ClashingOrigins()
    ensures "ClientRequest" in SharedHere(CLASHING) && Origin(CLASHING, "ClientRequest") == REFERS_TO_A
    ensures "A" in Namespace(CLASHING) && Origin(CLASHING, "A") == Scalar("2")
  {
    ClashingParts();
  }

  /** A name in both places: `ClientRequest` refers to the root's `A`, and in the flat bundle
      its reference finds the one of `v2`. */
  lemma ClashChangesMeaning(deps: set<string>)
    requires LeastClosed(Edges(Definitions(CLASHING)), SharedRoots(CLASHING), deps)
    ensures deps == {"A"} && WellFormed(CLASHING) && ResolveBundle(CLASHING, DEFS + "A") == Some(Scalar("1"))
    ensures Resolve(Unchecked(CLASHING, deps), RewriteRef(DEFS + "A")) == Some(Scalar("2"))
    ensures !MeaningKept(CLASHING, deps, DEFS + "A")
  {
    ClashingParts();
    ClashingIsWellFormed();
    ClashingDepsAre(deps);
    ClashingOrigins();
    KeptRefResolves(CLASHING, deps, "ClientRequest", DEFS + "A");
  }
}
