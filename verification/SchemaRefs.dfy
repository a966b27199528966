/** References between JSON schema definitions: collecting them, following them to
    a closed set, and pruning to that set. */
module SchemaRefs {
  import opened Prelude

  /** A JSON value, as far as references go; object order plays no part here. */
  datatype Value =
    | Scalar(text: string)
    | Text(s: string)
    | List(items: seq<Value>)
    | Object(fields: map<string, Value>)

  const DEFS := "#/definitions/"
  const V2 := "#/definitions/v2/"

  function Field(v: Value, key: string): Option<Value> {
    if v.Object? && key in v.fields then Some(v.fields[key]) else None
  }

  function TextField(v: Value, key: string): Option<string> {
    match Field(v, key) case Some(Text(s)) => Some(s) case _ => None
  }

  function ObjectField(v: Value, key: string): Option<map<string, Value>> {
    match Field(v, key) case Some(Object(m)) => Some(m) case _ => None
  }

  function RefHere(v: Value): set<string> {
    match TextField(v, "$ref") case Some(r) => {r} case None => {}
  }

  /** Every `$ref` in a value, at any depth. */
  function Refs(v: Value): set<string> {
    match v
    case List(items) => set i, r | 0 <= i < |items| && r in Refs(items[i]) :: r
    case Object(m) => RefHere(v) + set k, r | k in m && r in Refs(m[k]) :: r
    case _ => {}
  }

  /** The same, but not below a `definitions` or `$defs` key. */
  function VisibleRefs(v: Value): set<string> {
    match v
    case List(items) => set i, r | 0 <= i < |items| && r in VisibleRefs(items[i]) :: r
    case Object(m) =>
      RefHere(v) + set k, r | k in m && k != "definitions" && k != "$defs" && r in VisibleRefs(m[k]) :: r
    case _ => {}
  }

  // ----- values, place by place -----

  datatype Hop = Key(key: string) | Index(index: nat)

  /** The value at a place, if there is one. */
  function At(v: Value, place: seq<Hop>): Option<Value>
    decreases |place|
  {
    if place == [] then Some(v)
    else
      match place[0]
      case Key(k) => if v.Object? && k in v.fields then At(v.fields[k], place[1..]) else None
      case Index(i) => if v.List? && i < |v.items| then At(v.items[i], place[1..]) else None
  }

  predicate AtRef(place: seq<Hop>) { place != [] && place[|place| - 1] == Key("$ref") }

  /** The reference `r` stands at that place. */
  predicate RefAt(v: Value, place: seq<Hop>, r: string) { AtRef(place) && At(v, place) == Some(Text(r)) }

  /** The place is not below a `definitions` or `$defs` key. */
  predicate Outside(place: seq<Hop>) { Key("definitions") !in place && Key("$defs") !in place }

  /** What is at a place below one hop is what is there from the hop on. */
  lemma AtHop(v: Value, hop: Hop, rest: seq<Hop>)
    ensures At(v, [hop] + rest) ==
      match hop
      case Key(k) => if v.Object? && k in v.fields then At(v.fields[k], rest) else None
      case Index(i) => if v.List? && i < |v.items| then At(v.items[i], rest) else None
  {
    assert ([hop] + rest)[1..] == rest;
  }

  lemma {:induction false} PlaceOfRef(v: Value, r: string) returns (place: seq<Hop>)
    requires r in Refs(v)
    ensures RefAt(v, place, r)
  {
    match v
    case List(items) =>
      var i :| 0 <= i < |items| && r in Refs(items[i]);
      var rest := PlaceOfRef(items[i], r);
      place := [Index(i)] + rest;
      AtHop(v, Index(i), rest);
    case Object(m) =>
      if r in RefHere(v) {
        place := [Key("$ref")];
      } else {
        var k :| k in m && r in Refs(m[k]);
        var rest := PlaceOfRef(m[k], r);
        place := [Key(k)] + rest;
        AtHop(v, Key(k), rest);
      }
  }

  lemma {:induction false} RefAtPlace(v: Value, place: seq<Hop>, r: string)
    requires RefAt(v, place, r)
    ensures r in Refs(v)
    decreases |place|
  {
    if |place| == 1 {
      assert place[0] == Key("$ref") && place[1..] == [];
      assert At(v.fields["$ref"], []) == Some(v.fields["$ref"]);
      assert r in RefHere(v);
    } else {
      match place[0]
      case Key(k) => RefAtPlace(v.fields[k], place[1..], r);
      case Index(i) => RefAtPlace(v.items[i], place[1..], r);
    }
  }

  lemma {:induction false} PlaceOfVisible(v: Value, r: string) returns (place: seq<Hop>)
    requires r in VisibleRefs(v)
    ensures RefAt(v, place, r) && Outside(place)
  {
    match v
    case List(items) =>
      var i :| 0 <= i < |items| && r in VisibleRefs(items[i]);
      var rest := PlaceOfVisible(items[i], r);
      place := [Index(i)] + rest;
      AtHop(v, Index(i), rest);
    case Object(m) =>
      if r in RefHere(v) {
        place := [Key("$ref")];
      } else {
        var k :| k in m && k != "definitions" && k != "$defs" && r in VisibleRefs(m[k]);
        var rest := PlaceOfVisible(m[k], r);
        place := [Key(k)] + rest;
        AtHop(v, Key(k), rest);
      }
  }

  lemma {:induction false} VisibleAtPlace(v: Value, place: seq<Hop>, r: string)
    requires RefAt(v, place, r) && Outside(place)
    ensures r in VisibleRefs(v)
    decreases |place|
  {
    if |place| == 1 {
      assert place[0] == Key("$ref") && place[1..] == [];
      assert At(v.fields["$ref"], []) == Some(v.fields["$ref"]);
      assert r in RefHere(v);
    } else {
      match place[0]
      case Key(k) =>
        assert place[0] == Key(k);
        VisibleAtPlace(v.fields[k], place[1..], r);
      case Index(i) => VisibleAtPlace(v.items[i], place[1..], r);
    }
  }

  /** The references of a value are the texts at its `$ref` places, and the visible ones are
      those at places that are not below a definition map. */
  lemma {:induction false} RefsByPlace(v: Value, r: string)
    ensures r in Refs(v) <==> exists place :: RefAt(v, place, r)
    ensures r in VisibleRefs(v) <==> exists place :: RefAt(v, place, r) && Outside(place)
  {
    if r in Refs(v) { var _ := PlaceOfRef(v, r); }
    if place :| RefAt(v, place, r) { RefAtPlace(v, place, r); }
    if r in VisibleRefs(v) { var _ := PlaceOfVisible(v, r); }
    if place :| RefAt(v, place, r) && Outside(place) { VisibleAtPlace(v, place, r); }
  }

  function FirstSegment(s: string): string {
    if s == [] || s[0] == '/' then [] else [s[0]] + FirstSegment(s[1..])
  }

  /** The text up to the first slash. */
  lemma {:induction false} FirstSegmentIs(s: string)
    ensures var n := FirstSegment(s);
      n <= s && '/' !in n && (n == s || s[|n|] == '/')
  {
    if s != [] && s[0] != '/' { FirstSegmentIs(s[1..]); }
  }

  /** The local definitions that a set of references names. */
  function LocalNames(refs: set<string>): set<string> {
    set r | r in refs && DEFS <= r :: FirstSegment(r[|DEFS|..])
  }

  function NonV2Names(refs: set<string>): set<string> {
    set r | r in refs && DEFS <= r && !(V2 <= r) :: r[|DEFS|..]
  }

  /** The names that local references have for their first segment. */
  lemma {:induction false} LocalNamesAre(refs: set<string>, n: string)
    ensures n in LocalNames(refs) <==>
      '/' !in n && exists rest :: DEFS + (n + rest) in refs && (rest == [] || rest[0] == '/')
  {
    if n in LocalNames(refs) {
      var r :| r in refs && DEFS <= r && n == FirstSegment(r[|DEFS|..]);
      FirstSegmentIs(r[|DEFS|..]);
      var rest := r[|DEFS|..][|n|..];
      assert r == DEFS + (n + rest);
    }
    if '/' !in n {
      if rest :| DEFS + (n + rest) in refs && (rest == [] || rest[0] == '/') {
        SegmentOf(n, rest);
        assert (DEFS + (n + rest))[|DEFS|..] == n + rest;
        assert DEFS <= DEFS + (n + rest);
      }
    }
  }

  lemma {:induction false} SegmentOf(n: string, rest: string)
    requires '/' !in n && (rest == [] || rest[0] == '/')
    ensures FirstSegment(n + rest) == n
  {
    if n == [] {
      assert n + rest == rest;
    } else {
      assert (n + rest)[1..] == n[1..] + rest && n == [n[0]] + n[1..];
      SegmentOf(n[1..], rest);
    }
  }

  /** The names that references outside the namespace have, whole. */
  lemma NonV2NamesAre(refs: set<string>, n: string)
    ensures n in NonV2Names(refs) <==> DEFS + n in refs && !(V2 <= DEFS + n)
  {
    if n in NonV2Names(refs) {
      var r :| r in refs && DEFS <= r && !(V2 <= r) && n == r[|DEFS|..];
      assert r == DEFS + n;
    }
    assert (DEFS + n)[|DEFS|..] == n;
  }

  // ----- following references -----

  /** `s` holds the roots and everything its members point to. */
  ghost predicate Closed(edges: map<string, set<string>>, roots: set<string>, s: set<string>) {
    roots <= s && forall n | n in s && n in edges :: edges[n] <= s
  }

  /** ... and nothing more than it has to. */
  ghost predicate LeastClosed(edges: map<string, set<string>>, roots: set<string>, s: set<string>) {
    Closed(edges, roots, s) && forall t :: Closed(edges, roots, t) ==> s <= t
  }

  lemma LeastClosedUnique(edges: map<string, set<string>>, roots: set<string>, s: set<string>, t: set<string>)
    requires LeastClosed(edges, roots, s) && LeastClosed(edges, roots, t)
    ensures s == t
  {
    assert s <= t && t <= s;
  }

  /** Every name a search can meet. */
  ghost function Universe(edges: map<string, set<string>>, roots: set<string>): set<string> {
    roots + set n, m | n in edges && m in edges[n] :: m
  }

  lemma UniverseHas(edges: map<string, set<string>>, roots: set<string>, n: string)
    requires n in edges
    ensures edges[n] <= Universe(edges, roots)
  {
    forall m | m in edges[n] ensures m in Universe(edges, roots) {}
  }

  function Elements(q: seq<string>): set<string> { set x | x in q }

  method Listed(s: set<string>) returns (q: seq<string>)
    ensures Elements(q) == s
  {
    q := [];
    var rest := s;
    while rest != {}
      invariant rest <= s && Elements(q) == s - rest
      decreases rest
    {
      var x :| x in rest;
      assert Elements(q + [x]) == Elements(q) + {x};
      q := q + [x];
      rest := rest - {x};
    }
  }

  lemma PopElements(q: seq<string>)
    requires q != []
    ensures Elements(q) == Elements(q[..|q| - 1]) + {q[|q| - 1]}
  {
    assert q == q[..|q| - 1] + [q[|q| - 1]];
  }

  function Edges(definitions: map<string, Value>): map<string, set<string>> {
    map n | n in definitions :: NonV2Names(Refs(definitions[n]))
  }

  function LocalEdges(definitions: map<string, Value>): map<string, set<string>> {
    map n | n in definitions :: LocalNames(Refs(definitions[n]))
  }

  /** The first worklist marks a name when it is taken off the stack. It ends on
      cyclic schemas too, with exactly the least closed set. */
  method CollectDefinitionDependencies(definitions: map<string, Value>, names: set<string>)
    returns (seen: set<string>)
    ensures LeastClosed(Edges(definitions), names, seen)
  {
    ghost var edges := Edges(definitions);
    ghost var all := Universe(edges, names);
    seen := {};
    var toProcess := Listed(names);
    while toProcess != []
      invariant names <= seen + Elements(toProcess) <= all
      invariant forall n | n in seen && n in edges :: edges[n] <= seen + Elements(toProcess)
      invariant forall t | Closed(edges, names, t) :: seen + Elements(toProcess) <= t
      decreases all - seen, |toProcess|
    {
      var name := toProcess[|toProcess| - 1];
      PopElements(toProcess);
      toProcess := toProcess[..|toProcess| - 1];
      if name in seen {
        continue;
      }
      ghost var before := seen + {name} + Elements(toProcess);
      seen := seen + {name};
      if name in definitions {
        UniverseHas(edges, names, name);
        var deps := NonV2Names(Refs(definitions[name]));
        var more := Listed(deps - seen);
        ghost var rest := toProcess;
        toProcess := toProcess + more;
        assert Elements(toProcess) == Elements(rest) + Elements(more);
      }
    }
  }

  /** The second worklist marks a name when it is put on the queue. */
  method ReachableLocalDefinitions(definitions: map<string, Value>, roots: set<string>)
    returns (reachable: set<string>)
    ensures LeastClosed(LocalEdges(definitions), roots, reachable)
  {
    ghost var edges := LocalEdges(definitions);
    ghost var all := Universe(edges, roots);
    reachable := roots;
    var queue := Listed(roots);
    while queue != []
      invariant roots <= reachable <= all && Elements(queue) <= reachable
      invariant forall n | n in reachable && n !in Elements(queue) && n in edges :: edges[n] <= reachable
      invariant forall t | Closed(edges, roots, t) :: reachable <= t
      decreases all - reachable, |queue|
    {
      var name := queue[|queue| - 1];
      PopElements(queue);
      queue := queue[..|queue| - 1];
      if name in definitions {
        UniverseHas(edges, roots, name);
        var fresh' := LocalNames(Refs(definitions[name])) - reachable;
        var more := Listed(fresh');
        ghost var rest := queue;
        queue := queue + more;
        assert Elements(queue) == Elements(rest) + Elements(more);
        reachable := reachable + fresh';
        assert fresh' == {} ==> more == [] by {
          if more != [] { assert more[0] in Elements(more); }
        }
      }
    }
  }

  // ----- pruning -----

  /** The literal a schema pins a string to: `const`, else the first of `enum`. */
  function StringLiteral(v: Value): Option<string> {
    match TextField(v, "const")
    case Some(s) => Some(s)
    case None =>
      match Field(v, "enum")
      case Some(List(items)) => if items != [] && items[0].Text? then Some(items[0].s) else None
      case _ => None
  }

  predicate IsMethodVariant(v: Value, methods: set<string>) {
    match ObjectField(v, "properties")
    case None => false
    case Some(properties) =>
      if "method" !in properties then false
      else match StringLiteral(properties["method"]) case Some(m) => m in methods case None => false
  }

  /** The variants that go, by what stands in them: the `const` of the `method` property is a
      listed method or, if that is not a text, the first of its `enum` is. */
  lemma MethodVariantIs(v: Value, methods: set<string>)
    ensures var here := [Key("properties"), Key("method")];
      var pinned, first := At(v, here + [Key("const")]), At(v, here + [Key("enum"), Index(0)]);
      IsMethodVariant(v, methods) <==>
        if pinned.Some? && pinned.value.Text? then pinned.value.s in methods
        else first.Some? && first.value.Text? && first.value.s in methods
  {
    MethodAt(v, [Key("const")]);
    MethodAt(v, [Key("enum"), Index(0)]);
    var p := ObjectField(v, "properties");
    if p.Some? && "method" in p.value { LiteralAt(p.value["method"]); }
  }

  lemma MethodAt(v: Value, rest: seq<Hop>)
    ensures At(v, [Key("properties"), Key("method")] + rest) ==
      match ObjectField(v, "properties")
      case Some(m) => if "method" in m then At(m["method"], rest) else None
      case None => None
  {
    assert [Key("properties"), Key("method")] + rest == [Key("properties")] + ([Key("method")] + rest);
    AtHop(v, Key("properties"), [Key("method")] + rest);
    if Field(v, "properties").Some? { AtHop(v.fields["properties"], Key("method"), rest); }
  }

  lemma LiteralAt(v: Value)
    ensures At(v, [Key("const")]) == Field(v, "const")
    ensures At(v, [Key("enum"), Index(0)]) ==
      match Field(v, "enum") case Some(List(items)) => (if items != [] then Some(items[0]) else None) case _ => None
  {
    assert [Key("const")] + [] == [Key("const")] && [Key("enum")] + [Index(0)] == [Key("enum"), Index(0)];
    AtHop(v, Key("const"), []);
    AtHop(v, Key("enum"), [Index(0)]);
    assert [Index(0)] + [] == [Index(0)];
    if Field(v, "enum").Some? { AtHop(v.fields["enum"], Index(0), []); }
  }

  function KeepVariants(items: seq<Value>, methods: set<string>): seq<Value> {
    if items == [] then []
    else (if IsMethodVariant(items[0], methods) then [] else [items[0]]) + KeepVariants(items[1..], methods)
  }

  /** Exactly the variants of the listed methods go. */
  lemma {:induction false} KeptMembers(items: seq<Value>, methods: set<string>, v: Value)
    ensures v in KeepVariants(items, methods) <==> v in items && !IsMethodVariant(v, methods)
  {
    if items != [] {
      KeptMembers(items[1..], methods, v);
      assert items == [items[0]] + items[1..];
    }
  }

  /** The variants that stay, stay in their order: each list splits anywhere. */
  lemma {:induction false} KeptInOrder(items: seq<Value>, v: Value, rest: seq<Value>, methods: set<string>)
    ensures KeepVariants(items + [v] + rest, methods) ==
      KeepVariants(items, methods) + (if IsMethodVariant(v, methods) then [] else [v]) + KeepVariants(rest, methods)
  {
    assert items + [v] + rest == items + ([v] + rest);
    KeepConcat(items, [v] + rest, methods);
    assert ([v] + rest)[1..] == rest;
  }

  lemma {:induction false} KeepConcat(a: seq<Value>, b: seq<Value>, methods: set<string>)
    ensures KeepVariants(a + b, methods) == KeepVariants(a, methods) + KeepVariants(b, methods)
  {
    if a == [] {
      assert a + b == b;
    } else {
      KeepConcat(a[1..], b, methods);
      assert (a + b)[0] == a[0] && (a + b)[1..] == a[1..] + b;
    }
  }

  /** The schema once the unwanted variants are gone and before definitions are pruned. */
  function WithoutVariants(schema: Value, methods: set<string>): Value {
    match Field(schema, "oneOf")
    case Some(List(items)) => Object(schema.fields["oneOf" := List(KeepVariants(items, methods))])
    case _ => schema
  }

  function Definitions(schema: Value): map<string, Value> {
    match ObjectField(schema, "definitions") case Some(m) => m case None => map[]
  }

  function Restrict(m: map<string, Value>, keep: set<string>): map<string, Value> {
    map n | n in m && n in keep :: m[n]
  }

  /** `r` is the schema with the variants of some methods removed and, if it has variants
      at all, its definitions cut down to those that can be reached. */
  ghost predicate Stripped(schema: Value, methods: set<string>, r: Value) {
    match Field(schema, "oneOf")
    case Some(List(_)) =>
      var kept := WithoutVariants(schema, methods);
      exists reachable :: LeastClosed(LocalEdges(Definitions(kept)), LocalNames(VisibleRefs(kept)), reachable)
                          && r == Pruned(kept, reachable)
    case _ => r == schema
  }

  method StripMethodVariants(schema: Value, methods: set<string>) returns (r: Value)
    ensures Stripped(schema, methods, r)
  {
    match Field(schema, "oneOf")
    case Some(List(items)) =>
      var kept := WithoutVariants(schema, methods);
      match ObjectField(kept, "definitions") {
        case Some(definitions) =>
          var names := ReachableLocalDefinitions(definitions, LocalNames(VisibleRefs(kept)));
          r := Object(kept.fields["definitions" := Object(Restrict(definitions, names))]);
          assert r == Pruned(kept, names);
        case None =>
          var names := ReachableLocalDefinitions(map[], LocalNames(VisibleRefs(kept)));
          r := kept;
          assert r == Pruned(kept, names);
      }
    case _ =>
      r := schema;
  }

  function Pruned(schema: Value, keep: set<string>): Value {
    match ObjectField(schema, "definitions")
    case Some(definitions) => Object(schema.fields["definitions" := Object(Restrict(definitions, keep))])
    case None => schema
  }

  /** What stripping leaves of a schema with variants: the wanted ones in their order, every
      other field as it was, and no definition changed. */
  lemma {:induction false} StrippedFields(schema: Value, methods: set<string>, r: Value, items: seq<Value>)
    requires Stripped(schema, methods, r) && Field(schema, "oneOf") == Some(List(items))
    ensures r.Object? && r.fields.Keys == schema.fields.Keys
    ensures r.fields["oneOf"] == List(KeepVariants(items, methods))
    ensures forall k | k in schema.fields && k != "oneOf" && k != "definitions" :: r.fields[k] == schema.fields[k]
    ensures ObjectField(schema, "definitions") == None && "definitions" in schema.fields ==>
      r.fields["definitions"] == schema.fields["definitions"]
    ensures ObjectField(schema, "definitions").Some? ==> ObjectField(r, "definitions").Some?
    ensures forall n | n in Definitions(r) :: n in Definitions(schema) && Definitions(r)[n] == Definitions(schema)[n]
  {
    var kept := WithoutVariants(schema, methods);
    assert Definitions(kept) == Definitions(schema);
    var reachable :| LeastClosed(LocalEdges(Definitions(kept)), LocalNames(VisibleRefs(kept)), reachable)
                     && r == Pruned(kept, reachable);
  }

  /** A definition stays if it is referred to from outside the definition maps. */
  lemma {:induction false} ReferredStays(schema: Value, methods: set<string>, r: Value, items: seq<Value>,
                                         place: seq<Hop>, ref: string)
    requires Stripped(schema, methods, r) && Field(schema, "oneOf") == Some(List(items))
    requires RefAt(WithoutVariants(schema, methods), place, ref) && Outside(place) && Resolve(schema, ref).Some?
    ensures Resolve(r, ref) == Resolve(schema, ref)
  {
    var kept := WithoutVariants(schema, methods);
    assert Definitions(kept) == Definitions(schema);
    var reachable :| LeastClosed(LocalEdges(Definitions(kept)), LocalNames(VisibleRefs(kept)), reachable)
                     && r == Pruned(kept, reachable);
    VisibleAtPlace(kept, place, ref);
    LocalNameOf(VisibleRefs(kept), ref);
    PrunedDefinitions(kept, reachable);
  }

  /** The references of a schema outside its own definition map. */
  function OuterRefs(schema: Value): set<string> {
    if !schema.Object? then Refs(schema)
    else RefHere(schema) + set k, r | k in schema.fields && k != "definitions" && r in Refs(schema.fields[k]) :: r
  }

  function Resolve(schema: Value, r: string): Option<Value> {
    if !(DEFS <= r) then None
    else
      var n := FirstSegment(r[|DEFS|..]);
      if n in Definitions(schema) then Some(Definitions(schema)[n]) else None
  }

  /** References that survive pruning: outside the definition map, or in a kept definition. */
  ghost predicate KeptRef(schema: Value, r: string) {
    r in OuterRefs(schema) || exists n | n in Definitions(schema) :: r in Refs(Definitions(schema)[n])
  }

  /** Everything outside that the collector passes over, below a nested `definitions`
      or `$defs` key. */
  ghost function HiddenNames(schema: Value): set<string> {
    LocalNames(OuterRefs(schema) - VisibleRefs(schema))
  }

  lemma LocalNameOf(refs: set<string>, r: string)
    requires r in refs && DEFS <= r
    ensures FirstSegment(r[|DEFS|..]) in LocalNames(refs)
  {
  }

  lemma PrunedDefinitions(schema: Value, keep: set<string>)
    ensures Definitions(Pruned(schema, keep)) == Restrict(Definitions(schema), keep)
    ensures OuterRefs(Pruned(schema, keep)) == OuterRefs(schema)
  {
    if ObjectField(schema, "definitions").Some? {
      var p := Pruned(schema, keep);
      assert forall k | k in p.fields && k != "definitions" :: p.fields[k] == schema.fields[k];
      assert Field(p, "definitions") == Some(Object(Restrict(Definitions(schema), keep)));
      assert RefHere(p) == RefHere(schema);
    } else {
      assert Restrict(map[], keep) == map[];
    }
  }

  /** Pruning keeps exactly the reachable definitions, and every surviving reference
      resolves as before if and only if no hidden reference names an unreachable definition. */
  lemma PruneKeepsResolution(schema: Value, keep: set<string>)
    requires LeastClosed(LocalEdges(Definitions(schema)), LocalNames(VisibleRefs(schema)), keep)
    ensures Definitions(Pruned(schema, keep)).Keys == Definitions(schema).Keys * keep
    ensures (forall r | KeptRef(Pruned(schema, keep), r) :: Resolve(Pruned(schema, keep), r) == Resolve(schema, r))
      <==> HiddenNames(schema) * Definitions(schema).Keys <= keep
  {
    var p := Pruned(schema, keep);
    PrunedDefinitions(schema, keep);
    var hidden := OuterRefs(schema) - VisibleRefs(schema);
    if HiddenNames(schema) * Definitions(schema).Keys <= keep {
      forall r | KeptRef(p, r) ensures Resolve(p, r) == Resolve(schema, r) {
        if DEFS <= r {
          var n := FirstSegment(r[|DEFS|..]);
          if r in OuterRefs(schema) {
            if r in VisibleRefs(schema) {
              LocalNameOf(VisibleRefs(schema), r);
            } else {
              LocalNameOf(hidden, r);
            }
          } else {
            var d :| d in Definitions(p) && r in Refs(Definitions(p)[d]);
            LocalNameOf(Refs(Definitions(schema)[d]), r);
            assert LocalEdges(Definitions(schema))[d] <= keep;
          }
        }
      }
    }
    if forall r | KeptRef(p, r) :: Resolve(p, r) == Resolve(schema, r) {
      forall n | n in HiddenNames(schema) && n in Definitions(schema) ensures n in keep {
        var r :| r in hidden && DEFS <= r && n == FirstSegment(r[|DEFS|..]);
        assert KeptRef(p, r);
        assert Resolve(schema, r).Some?;
      }
    }
  }

  /** A schema in which no nested object uses a definition-map key hides nothing. */
  predicate NoNestedMaps(v: Value) {
    match v
    case List(items) => forall i | 0 <= i < |items| :: NoNestedMaps(items[i])
    case Object(m) => "definitions" !in m && "$defs" !in m && forall k | k in m :: NoNestedMaps(m[k])
    case _ => true
  }

  lemma {:induction false} VisibleAll(v: Value)
    requires NoNestedMaps(v)
    ensures VisibleRefs(v) == Refs(v)
  {
    match v
    case List(items) =>
      forall i | 0 <= i < |items| ensures VisibleRefs(items[i]) == Refs(items[i]) { VisibleAll(items[i]); }
    case Object(m) =>
      forall k | k in m ensures VisibleRefs(m[k]) == Refs(m[k]) { VisibleAll(m[k]); }
      forall r | r in Refs(v) ensures r in VisibleRefs(v) {
        if r !in RefHere(v) {
          var k :| k in m && r in Refs(m[k]);
          assert r in VisibleRefs(m[k]);
        }
      }
    case _ =>
  }

  lemma NothingHidden(schema: Value)
    requires schema.Object? && "$defs" !in schema.fields
    requires forall k | k in schema.fields && k != "definitions" :: NoNestedMaps(schema.fields[k])
    ensures HiddenNames(schema) == {}
  {
    forall r | r in OuterRefs(schema) ensures r in VisibleRefs(schema) {
      if r !in RefHere(schema) {
        var k :| k in schema.fields && k != "definitions" && r in Refs(schema.fields[k]);
        VisibleAll(schema.fields[k]);
        assert r in VisibleRefs(schema.fields[k]);
      }
    }
  }

  const HIDING_VARIANT :=
    Object(map["properties" := Object(map["definitions" := Object(map["$ref" := Text("#/definitions/A")])])])
  const HIDING := Object(map["oneOf" := List([HIDING_VARIANT]), "definitions" := Object(map["A" := Scalar("true")])])

  lemma {:induction false} OneField(k: string, v: Value)
    requires k != "$ref"
    ensures Refs(Object(map[k := v])) == Refs(v)
    ensures VisibleRefs(Object(map[k := v])) == if k == "definitions" || k == "$defs" then {} else VisibleRefs(v)
  {
    var o := Object(map[k := v]);
    assert RefHere(o) == {} && o.fields[k] == v;
  }

  lemma {:induction false} OneItem(v: Value)
    ensures Refs(List([v])) == Refs(v) && VisibleRefs(List([v])) == VisibleRefs(v)
  {
    var l := List([v]);
    assert l.items[0] == v;
  }

  lemma {:induction false} NestedHides(ref: Value)
    ensures var v := Object(map["properties" := Object(map["definitions" := ref])]);
      VisibleRefs(v) == {} && Refs(v) == Refs(ref)
  {
    OneField("definitions", ref);
    OneField("properties", Object(map["definitions" := ref]));
  }

  lemma {:induction false} VariantRefs(variants: Value, definitions: Value)
    ensures var schema := Object(map["oneOf" := variants, "definitions" := definitions]);
      VisibleRefs(schema) == VisibleRefs(variants) && OuterRefs(schema) == Refs(variants)
  {
    var m := map["oneOf" := variants, "definitions" := definitions];
    var schema := Object(m);
    assert m["oneOf"] == variants && RefHere(schema) == {};
    forall r ensures r in VisibleRefs(schema) <==> r in VisibleRefs(variants) {}
    forall r ensures r in OuterRefs(schema) <==> r in Refs(variants) {}
  }

  lemma {:induction false} HidingRefs()
    ensures VisibleRefs(HIDING) == {} && "#/definitions/A" in OuterRefs(HIDING)
  {
    var ref := Object(map["$ref" := Text("#/definitions/A")]);
    assert "#/definitions/A" in RefHere(ref);
    NestedHides(ref);
    OneItem(HIDING_VARIANT);
    VariantRefs(List([HIDING_VARIANT]), Object(map["A" := Scalar("true")]));
  }

  lemma {:induction false} HidingKept(methods: set<string>)
    ensures Field(HIDING, "oneOf") == Some(List([HIDING_VARIANT])) && WithoutVariants(HIDING, methods) == HIDING
  {
    assert !IsMethodVariant(HIDING_VARIANT, methods);
    assert KeepVariants([HIDING_VARIANT], methods) == [HIDING_VARIANT];
    assert HIDING.fields["oneOf" := List([HIDING_VARIANT])] == HIDING.fields;
  }

  /** A schema of which no variant is removed: one property of its variant happens to be
      called `definitions`, and what that property refers to is lost all the same. */
  lemma {:induction false} NestedMapLosesDefinition(methods: set<string>, r: Value)
    requires Stripped(HIDING, methods, r)
    ensures Resolve(HIDING, "#/definitions/A") == Some(Scalar("true"))
    ensures KeptRef(r, "#/definitions/A") && Resolve(r, "#/definitions/A") == None
  {
    HidingRefs();
    HidingKept(methods);
    var edges := LocalEdges(Definitions(HIDING));
    var reachable :| LeastClosed(edges, LocalNames(VisibleRefs(HIDING)), reachable) && r == Pruned(HIDING, reachable);
    assert Closed(edges, LocalNames(VisibleRefs(HIDING)), {});
    PrunedDefinitions(HIDING, reachable);
    assert "#/definitions/A"[|DEFS|..] == "A" && FirstSegment("A") == "A";
  }
}
