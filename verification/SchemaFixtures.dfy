/** The canonical form in which vendored and generated schema files are compared. */
module SchemaFixtures {
  import opened Prelude
  import opened Ordering
  import opened JsonText

  function Lookup(es: seq<Entry>, key: string): Option<Json> {
    if es == [] then None
    else if es[0].key == key then Some(es[0].value)
    else Lookup(es[1..], key)
  }

  function SortKey(item: Json): Option<string> {
    match item
    case Null => Some("null")
    case Bool(b) => Some(if b then "b:true" else "b:false")
    case Number(t) => Some("n:" + t)
    case String(s) => Some("s:" + s)
    case Array(_) => None
    case Object(es) =>
      match Lookup(es, "$ref")
      case Some(String(r)) => Some("ref:" + r)
      case _ =>
        match Lookup(es, "title")
        case Some(String(t)) => Some("title:" + t)
        case _ => None
  }

  /** Only arrays whose every element has a key may be reordered. */
  predicate Sortable(items: seq<Json>) { forall i | 0 <= i < |items| :: SortKey(items[i]).Some? }

  function KeyOf(item: Json): string { match SortKey(item) case Some(k) => k case None => "" }

  /** By sort key, ties broken by text. */
  predicate ItemLe(a: Json, b: Json) {
    if KeyOf(a) != KeyOf(b) then LexLe(KeyOf(a), KeyOf(b)) else LexLe(Text(a), Text(b))
  }

  predicate EntryLe(e: Entry, f: Entry) { LexLe(e.key, f.key) }

  function Canon(v: Json): Json {
    match v
    case Array(items) =>
      var cs := CanonItems(items);
      Array(if Sortable(cs) then Sort(ItemLe, cs) else cs)
    case Object(es) => Object(Sort(EntryLe, CanonEntries(es)))
    case _ => v
  }

  function CanonItems(items: seq<Json>): seq<Json> {
    seq(|items|, i requires 0 <= i < |items| => Canon(items[i]))
  }

  function CanonEntries(es: seq<Entry>): seq<Entry> {
    seq(|es|, i requires 0 <= i < |es| => Entry(es[i].key, Canon(es[i].value)))
  }

  /** A member of an object that is a string. */
  ghost predicate HasString(es: seq<Entry>, key: string) {
    exists i | 0 <= i < |es| :: es[i].key == key && es[i].value.String?
  }

  /** Everything but arrays, and objects with neither a reference nor a title. */
  ghost predicate Orderable(v: Json) {
    match v
    case Array(_) => false
    case Object(es) => HasString(es, "$ref") || HasString(es, "title")
    case _ => true
  }

  ghost predicate Reorderable(vs: seq<Json>) { forall i | 0 <= i < |vs| :: Orderable(vs[i]) }

  /** Same value up to the order of object entries and of reorderable arrays, at any depth. */
  ghost predicate SameUpToOrder(v: Json, w: Json)
    decreases v, 0
  {
    match (v, w)
    case (Array(vs), Array(ws)) =>
      if Reorderable(vs) && Reorderable(ws) then Shuffled(vs, ws)
      else |vs| == |ws| && forall i | 0 <= i < |vs| :: SameUpToOrder(vs[i], ws[i])
    case (Object(es), Object(fs)) => ShuffledEntries(es, fs)
    case _ => v == w
  }

  ghost predicate Shuffled(vs: seq<Json>, ws: seq<Json>)
    decreases vs, 1
  {
    if vs == [] then ws == []
    else exists j | 0 <= j < |ws| :: SameUpToOrder(vs[0], ws[j]) && Shuffled(vs[1..], Without(ws, j))
  }

  ghost predicate ShuffledEntries(es: seq<Entry>, fs: seq<Entry>)
    decreases es, 1
  {
    if es == [] then fs == []
    else exists j | 0 <= j < |fs| ::
      es[0].key == fs[j].key && SameUpToOrder(es[0].value, fs[j].value) && ShuffledEntries(es[1..], Without(fs, j))
  }

  function Without<T>(s: seq<T>, j: nat): (r: seq<T>)
    requires j < |s|
    ensures |r| == |s| - 1
    ensures forall i | 0 <= i < |r| :: r[i] == s[if i < j then i else i + 1]
  { s[..j] + s[j + 1..] }

  lemma WithoutMultiset<T>(s: seq<T>, j: nat)
    requires j < |s|
    ensures multiset(s) == multiset{s[j]} + multiset(Without(s, j))
  {
    assert s == s[..j] + ([s[j]] + s[j + 1..]);
  }

  // ----- the two comparisons are total orders where they are used -----

  lemma ItemLeTransitive(a: Json, b: Json, c: Json)
    requires ItemLe(a, b) && ItemLe(b, c)
    ensures ItemLe(a, c)
  {
    if KeyOf(a) == KeyOf(b) == KeyOf(c) {
      LexTransitive(Text(a), Text(b), Text(c));
    } else {
      if KeyOf(a) != KeyOf(b) && KeyOf(b) != KeyOf(c) {
        LexTransitive(KeyOf(a), KeyOf(b), KeyOf(c));
        if KeyOf(a) == KeyOf(c) { LexAntisymmetric(KeyOf(a), KeyOf(b)); }
      }
    }
  }

  lemma ItemLeAntisymmetric(a: Json, b: Json)
    requires Valid(a) && Valid(b) && ItemLe(a, b) && ItemLe(b, a)
    ensures a == b
  {
    if KeyOf(a) != KeyOf(b) {
      LexAntisymmetric(KeyOf(a), KeyOf(b));
    } else {
      LexAntisymmetric(Text(a), Text(b));
      TextInjective(a, b);
    }
  }

  lemma ItemsOrdered(vs: seq<Json>)
    requires AllValid(vs)
    ensures OrderedOn(ItemLe, vs)
  {
    forall a, b | a in vs && b in vs ensures ItemLe(a, b) || ItemLe(b, a) {
      LexTotal(KeyOf(a), KeyOf(b));
      LexTotal(Text(a), Text(b));
    }
    forall a, b | a in vs && b in vs && ItemLe(a, b) && ItemLe(b, a) ensures a == b {
      ItemLeAntisymmetric(a, b);
    }
    forall a, b, c | a in vs && b in vs && c in vs && ItemLe(a, b) && ItemLe(b, c) ensures ItemLe(a, c) {
      ItemLeTransitive(a, b, c);
    }
  }

  lemma EntriesOrdered(es: seq<Entry>)
    requires DistinctKeys(es)
    ensures OrderedOn(EntryLe, es)
  {
    forall a, b | a in es && b in es ensures EntryLe(a, b) || EntryLe(b, a) {
      LexTotal(a.key, b.key);
    }
    forall a, b | a in es && b in es && EntryLe(a, b) && EntryLe(b, a) ensures a == b {
      LexAntisymmetric(a.key, b.key);
    }
    forall a, b, c | a in es && b in es && c in es && EntryLe(a, b) && EntryLe(b, c) ensures EntryLe(a, c) {
      LexTransitive(a.key, b.key, c.key);
    }
  }

  // ----- canonical values are valid and keep their sort keys -----

  lemma {:induction false} LookupFinds(es: seq<Entry>, i: nat)
    requires DistinctKeys(es) && i < |es|
    ensures Lookup(es, es[i].key) == Some(es[i].value)
  {
    if i != 0 {
      assert es[0].key != es[i].key;
      LookupFinds(es[1..], i - 1);
    }
  }

  lemma {:induction false} LookupMisses(es: seq<Entry>, key: string)
    requires forall i | 0 <= i < |es| :: es[i].key != key
    ensures Lookup(es, key) == None
  {
    if es != [] { LookupMisses(es[1..], key); }
  }

  lemma {:induction false} DistinctCounts(es: seq<Entry>, e: Entry)
    requires DistinctKeys(es)
    ensures multiset(es)[e] <= 1
  {
    if es != [] {
      assert es == [es[0]] + es[1..];
      DistinctCounts(es[1..], e);
      assert es[0] !in es[1..];
      assert es[0] !in multiset(es[1..]);
    }
  }

  lemma RepeatCounts(es: seq<Entry>, i: nat, j: nat)
    requires i < j < |es| && es[i] == es[j]
    ensures multiset(es)[es[i]] >= 2
  {
    WithoutMultiset(es, j);
    assert Without(es, j)[i] == es[i];
    assert es[i] in multiset(Without(es, j));
  }

  lemma DistinctPermutes(es: seq<Entry>, fs: seq<Entry>)
    requires DistinctKeys(es) && multiset(es) == multiset(fs)
    ensures DistinctKeys(fs)
  {
    SameElements(es, fs);
    forall i, j | 0 <= i < j < |fs| ensures fs[i].key != fs[j].key {
      assert fs[i] in es && fs[j] in es;
      var k :| 0 <= k < |es| && es[k] == fs[i];
      var l :| 0 <= l < |es| && es[l] == fs[j];
      if k == l {
        RepeatCounts(fs, i, j);
        DistinctCounts(es, fs[i]);
      }
    }
  }

  lemma CanonEntriesPermutes(es: seq<Entry>)
    requires DistinctKeys(es)
    ensures var r := Sort(EntryLe, CanonEntries(es));
      multiset(r) == multiset(CanonEntries(es)) && DistinctKeys(r) && |r| == |es|
  {
    SortKeepsElements(EntryLe, CanonEntries(es));
    DistinctPermutes(CanonEntries(es), Sort(EntryLe, CanonEntries(es)));
  }

  /** Lookup commutes with canonicalisation. */
  lemma LookupCanon(es: seq<Entry>, key: string)
    requires DistinctKeys(es)
    ensures Lookup(Sort(EntryLe, CanonEntries(es)), key)
      == match Lookup(es, key) case Some(v) => Some(Canon(v)) case None => None
  {
    var cs, r := CanonEntries(es), Sort(EntryLe, CanonEntries(es));
    CanonEntriesPermutes(es);
    SameElements(cs, r);
    if i :| 0 <= i < |es| && es[i].key == key {
      LookupFinds(es, i);
      assert cs[i] in r;
      var j :| 0 <= j < |r| && r[j] == cs[i];
      LookupFinds(r, j);
    } else {
      LookupMisses(es, key);
      forall j | 0 <= j < |r| ensures r[j].key != key {
        assert r[j] in cs;
      }
      LookupMisses(r, key);
    }
  }

  lemma {:induction false} CanonKeepsKey(v: Json)
    requires Valid(v)
    ensures SortKey(Canon(v)) == SortKey(v)
  {
    if v.Object? {
      LookupCanon(v.entries, "$ref");
      LookupCanon(v.entries, "title");
    }
  }

  lemma {:induction false} LookupString(es: seq<Entry>, key: string)
    requires DistinctKeys(es)
    ensures HasString(es, key) <==> Lookup(es, key).Some? && Lookup(es, key).value.String?
  {
    if i :| 0 <= i < |es| && es[i].key == key {
      LookupFinds(es, i);
    } else {
      LookupMisses(es, key);
    }
  }

  /** The values with a sort key are the orderable ones. */
  lemma KeyedAreOrderable(v: Json)
    requires Valid(v)
    ensures SortKey(v).Some? <==> Orderable(v)
  {
    if v.Object? {
      LookupString(v.entries, "$ref");
      LookupString(v.entries, "title");
    }
  }

  lemma SortableAreReorderable(vs: seq<Json>)
    requires AllValid(vs)
    ensures Sortable(vs) <==> Reorderable(vs)
  {
    forall i | 0 <= i < |vs| ensures SortKey(vs[i]).Some? <==> Orderable(vs[i]) { KeyedAreOrderable(vs[i]); }
  }

  lemma CanonKeepsSortable(vs: seq<Json>)
    requires AllValid(vs)
    ensures Sortable(CanonItems(vs)) <==> Sortable(vs)
  {
    forall i | 0 <= i < |vs| ensures SortKey(CanonItems(vs)[i]) == SortKey(vs[i]) {
      CanonKeepsKey(vs[i]);
    }
  }

  /** An array is sorted exactly when all its elements are orderable. */
  lemma CanonSorts(vs: seq<Json>)
    requires AllValid(vs)
    ensures Sortable(CanonItems(vs)) <==> Reorderable(vs)
  {
    CanonKeepsSortable(vs);
    SortableAreReorderable(vs);
  }

  lemma {:induction false} SortedItemsValid(cs: seq<Json>)
    requires AllValid(cs)
    ensures AllValid(Sort(ItemLe, cs))
  {
    SortKeepsElements(ItemLe, cs);
    SameElements(cs, Sort(ItemLe, cs));
    forall j | 0 <= j < |Sort(ItemLe, cs)| ensures Valid(Sort(ItemLe, cs)[j]) {
      assert Sort(ItemLe, cs)[j] in cs;
    }
  }

  lemma {:induction false} SortedEntriesValid(cs: seq<Entry>)
    requires EntriesValid(cs)
    ensures EntriesValid(Sort(EntryLe, cs))
  {
    SortKeepsElements(EntryLe, cs);
    SameElements(cs, Sort(EntryLe, cs));
    forall j | 0 <= j < |Sort(EntryLe, cs)| ensures Valid(Sort(EntryLe, cs)[j].value) {
      assert Sort(EntryLe, cs)[j] in cs;
    }
  }

  lemma {:induction false} CanonValid(v: Json)
    ensures Valid(v) ==> Valid(Canon(v))
  {
    if Valid(v) {
      match v
      case Array(items) =>
        forall i | 0 <= i < |items| ensures Valid(Canon(items[i])) { CanonValid(items[i]); }
        SortedItemsValid(CanonItems(items));
      case Object(es) =>
        forall i | 0 <= i < |es| ensures Valid(Canon(es[i].value)) { CanonValid(es[i].value); }
        CanonEntriesPermutes(es);
        SortedEntriesValid(CanonEntries(es));
      case _ =>
    }
  }

  lemma CanonItemsValid(vs: seq<Json>)
    requires AllValid(vs)
    ensures AllValid(CanonItems(vs))
  {
    forall i | 0 <= i < |vs| { CanonValid(vs[i]); }
  }

  /** An array keeps its elements, each canonicalised; nothing is dropped or repeated. */
  lemma CanonKeepsElements(items: seq<Json>)
    ensures Canon(Array(items)).Array?
    ensures multiset(Canon(Array(items)).items) == multiset(CanonItems(items))
  {
    SortKeepsElements(ItemLe, CanonItems(items));
  }

  lemma SortedStaysSortable(cs: seq<Json>)
    ensures Sortable(Sort(ItemLe, cs)) <==> Sortable(cs)
  {
    var r := Sort(ItemLe, cs);
    SortKeepsElements(ItemLe, cs);
    SameElements(cs, r);
    if Sortable(cs) {
      forall j | 0 <= j < |r| ensures SortKey(r[j]).Some? { assert r[j] in cs; }
    }
    if Sortable(r) {
      forall i | 0 <= i < |cs| ensures SortKey(cs[i]).Some? { assert cs[i] in r; }
    }
  }

  // ----- idempotence -----

  lemma {:induction false} CanonIdempotent(v: Json)
    requires Valid(v)
    ensures Canon(Canon(v)) == Canon(v)
  {
    match v
    case Array(items) =>
      forall i | 0 <= i < |items| ensures Canon(CanonItems(items)[i]) == CanonItems(items)[i] {
        CanonIdempotent(items[i]);
      }
      var cs, r := CanonItems(items), Canon(v).items;
      CanonKeepsElements(items);
      SameElements(cs, r);
      forall j | 0 <= j < |r| ensures CanonItems(r)[j] == r[j] { assert r[j] in cs; }
      assert CanonItems(r) == r;
      SortedStaysSortable(cs);
      if Sortable(cs) {
        CanonItemsValid(items);
        ItemsOrdered(cs);
        SortForgetsOrder(ItemLe, cs, r);
      }
    case Object(es) =>
      forall i | 0 <= i < |es| ensures Canon(CanonEntries(es)[i].value) == CanonEntries(es)[i].value {
        CanonIdempotent(es[i].value);
      }
      var cs, r := CanonEntries(es), Canon(v).entries;
      CanonEntriesPermutes(es);
      SameElements(cs, r);
      forall j | 0 <= j < |r| ensures CanonEntries(r)[j] == r[j] { assert r[j] in cs; }
      assert CanonEntries(r) == r;
      EntriesOrdered(cs);
      SortForgetsOrder(EntryLe, cs, r);
    case _ =>
  }

  // ----- equal canonical forms mean equal up to order -----

  /** Matching the first of `s` with `t[j]` leaves a smaller matching problem. */
  lemma MatchOne<T>(s: seq<T>, t: seq<T>, j: nat)
    requires s != [] && j < |t| && s[0] == t[j]
    ensures multiset(s) == multiset(t) <==> multiset(s[1..]) == multiset(Without(t, j))
  {
    var a, b, c := multiset(s[1..]), multiset(Without(t, j)), multiset{s[0]};
    assert s == [s[0]] + s[1..];
    assert multiset(s) == c + a;
    WithoutMultiset(t, j);
    CancelOne(a, b, c);
  }

  lemma CancelOne<T>(a: multiset<T>, b: multiset<T>, c: multiset<T>)
    ensures c + a == c + b <==> a == b
  {
    assert a == (c + a) - c && b == (c + b) - c;
  }

  lemma WithoutAt<T>(s: seq<T>, j: nat, i: nat)
    requires j < |s| && i < |s| - 1
    ensures |Without(s, j)| == |s| - 1 && Without(s, j)[i] == s[if i < j then i else i + 1]
  {
  }

  lemma {:induction false} ItemsWithout(ws: seq<Json>, j: nat)
    requires j < |ws| && AllValid(ws)
    ensures CanonItems(Without(ws, j)) == Without(CanonItems(ws), j)
    ensures AllValid(Without(ws, j))
  {
    var l, r := CanonItems(Without(ws, j)), Without(CanonItems(ws), j);
    forall i | 0 <= i < |r| ensures l[i] == r[i] {
      WithoutAt(ws, j, i);
      WithoutAt(CanonItems(ws), j, i);
    }
    assert |l| == |r|;
  }

  lemma {:induction false} EntriesValidWithout(fs: seq<Entry>, j: nat)
    requires j < |fs| && EntriesValid(fs)
    ensures EntriesValid(Without(fs, j))
  {
    forall i | 0 <= i < |fs| - 1 ensures Valid(Without(fs, j)[i].value) { WithoutAt(fs, j, i); }
  }

  lemma {:induction false} EntriesWithout(fs: seq<Entry>, j: nat)
    requires j < |fs| && EntriesValid(fs)
    ensures CanonEntries(Without(fs, j)) == Without(CanonEntries(fs), j)
    ensures EntriesValid(Without(fs, j))
  {
    EntriesValidWithout(fs, j);
    var l, r := CanonEntries(Without(fs, j)), Without(CanonEntries(fs), j);
    forall i | 0 <= i < |r| ensures l[i] == r[i] {
      WithoutAt(fs, j, i);
      WithoutAt(CanonEntries(fs), j, i);
    }
    assert |l| == |r|;
  }

  lemma CanonTails(vs: seq<Json>, es: seq<Entry>)
    ensures vs != [] ==> CanonItems(vs)[1..] == CanonItems(vs[1..])
    ensures es != [] ==> CanonEntries(es)[1..] == CanonEntries(es[1..])
  {
  }

  lemma MatchItem(vs: seq<Json>, ws: seq<Json>, j: nat)
    requires vs != [] && j < |ws| && Canon(vs[0]) == Canon(ws[j]) && AllValid(ws)
    ensures multiset(CanonItems(vs)) == multiset(CanonItems(ws)) <==>
            multiset(CanonItems(vs[1..])) == multiset(CanonItems(Without(ws, j)))
    ensures AllValid(Without(ws, j))
  {
    ItemsWithout(ws, j);
    MatchOne(CanonItems(vs), CanonItems(ws), j);
    CanonTails(vs, []);
  }

  lemma MatchEntry(es: seq<Entry>, fs: seq<Entry>, j: nat)
    requires es != [] && j < |fs| && CanonEntries(es)[0] == CanonEntries(fs)[j] && EntriesValid(fs)
    ensures multiset(CanonEntries(es)) == multiset(CanonEntries(fs)) <==>
            multiset(CanonEntries(es[1..])) == multiset(CanonEntries(Without(fs, j)))
    ensures EntriesValid(Without(fs, j))
  {
    EntriesWithout(fs, j);
    MatchOne(CanonEntries(es), CanonEntries(fs), j);
    CanonTails([], es);
  }

  lemma FindInMultiset<T>(x: T, s: seq<T>) returns (j: nat)
    requires x in multiset(s)
    ensures j < |s| && s[j] == x
  {
    assert x in s;
    j :| 0 <= j < |s| && s[j] == x;
  }

  lemma {:induction false} EqualCanonShuffles(vs: seq<Json>, ws: seq<Json>)
    requires AllValid(vs) && AllValid(ws)
    requires multiset(CanonItems(vs)) == multiset(CanonItems(ws))
    ensures Shuffled(vs, ws)
    decreases vs, 1
  {
    assert |multiset(CanonItems(vs))| == |multiset(CanonItems(ws))|;
    if vs != [] {
      assert CanonItems(vs)[0] in multiset(CanonItems(vs));
      var j := FindInMultiset(Canon(vs[0]), CanonItems(ws));
      CanonEqualSame(vs[0], ws[j]);
      MatchItem(vs, ws, j);
      EqualCanonShuffles(vs[1..], Without(ws, j));
    }
  }

  lemma {:induction false} EqualCanonShufflesEntries(es: seq<Entry>, fs: seq<Entry>)
    requires EntriesValid(es) && EntriesValid(fs)
    requires multiset(CanonEntries(es)) == multiset(CanonEntries(fs))
    ensures ShuffledEntries(es, fs)
    decreases es, 1
  {
    assert |multiset(CanonEntries(es))| == |multiset(CanonEntries(fs))|;
    if es != [] {
      assert CanonEntries(es)[0] in multiset(CanonEntries(es));
      var j := FindInMultiset(CanonEntries(es)[0], CanonEntries(fs));
      CanonEqualSame(es[0].value, fs[j].value);
      MatchEntry(es, fs, j);
      EqualCanonShufflesEntries(es[1..], Without(fs, j));
    }
  }

  lemma {:induction false} CanonEqualSame(v: Json, w: Json)
    requires Valid(v) && Valid(w) && Canon(v) == Canon(w)
    ensures SameUpToOrder(v, w)
    decreases v, 0
  {
    match (v, w)
    case (Array(vs), Array(ws)) =>
      CanonKeepsElements(vs);
      CanonKeepsElements(ws);
      CanonSorts(vs);
      CanonSorts(ws);
      if Reorderable(vs) && Reorderable(ws) {
        EqualCanonShuffles(vs, ws);
      } else {
        SortedStaysSortable(CanonItems(vs));
        SortedStaysSortable(CanonItems(ws));
        forall i | 0 <= i < |vs| ensures |vs| == |ws| && SameUpToOrder(vs[i], ws[i]) {
          CanonEqualSame(vs[i], ws[i]);
        }
      }
    case (Object(es), Object(fs)) =>
      CanonEntriesPermutes(es);
      CanonEntriesPermutes(fs);
      EqualCanonShufflesEntries(es, fs);
    case _ =>
  }

  // ----- and conversely -----

  lemma {:induction false} ShuffleEqualCanon(vs: seq<Json>, ws: seq<Json>)
    requires AllValid(vs) && AllValid(ws) && Shuffled(vs, ws)
    ensures multiset(CanonItems(vs)) == multiset(CanonItems(ws))
    decreases vs, 1
  {
    if vs != [] {
      var j :| 0 <= j < |ws| && SameUpToOrder(vs[0], ws[j]) && Shuffled(vs[1..], Without(ws, j));
      SameCanonEqual(vs[0], ws[j]);
      MatchItem(vs, ws, j);
      ShuffleEqualCanon(vs[1..], Without(ws, j));
    }
  }

  lemma {:induction false} ShuffleEqualCanonEntries(es: seq<Entry>, fs: seq<Entry>)
    requires EntriesValid(es) && EntriesValid(fs) && ShuffledEntries(es, fs)
    ensures multiset(CanonEntries(es)) == multiset(CanonEntries(fs))
    decreases es, 1
  {
    if es != [] {
      var j :| 0 <= j < |fs| && es[0].key == fs[j].key && SameUpToOrder(es[0].value, fs[j].value)
        && ShuffledEntries(es[1..], Without(fs, j));
      SameCanonEqual(es[0].value, fs[j].value);
      MatchEntry(es, fs, j);
      ShuffleEqualCanonEntries(es[1..], Without(fs, j));
    }
  }

  lemma {:induction false} SameCanonEqual(v: Json, w: Json)
    requires Valid(v) && Valid(w) && SameUpToOrder(v, w)
    ensures Canon(v) == Canon(w)
    decreases v, 0
  {
    match (v, w)
    case (Array(vs), Array(ws)) =>
      CanonSorts(vs);
      CanonSorts(ws);
      if Reorderable(vs) && Reorderable(ws) {
        ShuffleEqualCanon(vs, ws);
        CanonItemsValid(vs);
        ItemsOrdered(CanonItems(vs));
        SortForgetsOrder(ItemLe, CanonItems(vs), CanonItems(ws));
      } else {
        forall i | 0 <= i < |vs| { SameCanonEqual(vs[i], ws[i]); }
        assert CanonItems(vs) == CanonItems(ws);
      }
    case (Object(es), Object(fs)) =>
      ShuffleEqualCanonEntries(es, fs);
      EntriesOrdered(CanonEntries(es));
      SortForgetsOrder(EntryLe, CanonEntries(es), CanonEntries(fs));
    case _ =>
  }

  /** The canonical form is a normal form: two values have the same one exactly
      when they differ only in the order of object entries and of arrays whose every element
      is null, a bool, a number, a string or an object with a reference or a title. */
  lemma CanonIsNormalForm(v: Json, w: Json)
    requires Valid(v) && Valid(w)
    ensures Canon(v) == Canon(w) <==> SameUpToOrder(v, w)
  {
    if Canon(v) == Canon(w) { CanonEqualSame(v, w); }
    if SameUpToOrder(v, w) { SameCanonEqual(v, w); }
  }

  // ----- what the canonical form looks like -----

  /** The kinds of elements, in the order they are sorted into. */
  ghost function Rank(v: Json): nat
    requires Valid(v) && Orderable(v)
  {
    match v
    case Bool(_) => 0
    case Number(_) => 1
    case Null => 2
    case String(_) => 4
    case Object(es) => if HasString(es, "$ref") then 3 else 5
  }

  /** ... and what orders them within a kind. */
  ghost function Content(v: Json): string
    requires Valid(v) && Orderable(v)
  {
    match v
    case Bool(b) => if b then "true" else "false"
    case Number(text) => text
    case Null => ""
    case String(s) => s
    case Object(es) => StringAt(es, if HasString(es, "$ref") then "$ref" else "title")
  }

  ghost function StringAt(es: seq<Entry>, key: string): string
    requires HasString(es, key)
  {
    var i :| 0 <= i < |es| && es[i].key == key && es[i].value.String?;
    es[i].value.s
  }

  lemma {:induction false} StringAtIs(es: seq<Entry>, key: string)
    requires DistinctKeys(es) && HasString(es, key)
    ensures Lookup(es, key) == Some(String(StringAt(es, key)))
  {
    var i :| 0 <= i < |es| && es[i].key == key && es[i].value.String? && es[i].value.s == StringAt(es, key);
    LookupFinds(es, i);
  }

  function Tag(rank: nat): string {
    match rank
    case 0 => "b:"
    case 1 => "n:"
    case 2 => "null"
    case 3 => "ref:"
    case 4 => "s:"
    case _ => "title:"
  }

  lemma {:induction false} ObjectKeyIs(es: seq<Entry>)
    requires Valid(Object(es)) && Orderable(Object(es))
    ensures KeyOf(Object(es)) == Tag(Rank(Object(es))) + Content(Object(es))
  {
    LookupString(es, "$ref");
    LookupString(es, "title");
    if HasString(es, "$ref") { StringAtIs(es, "$ref"); } else { StringAtIs(es, "title"); }
  }

  lemma {:induction false} KeyIs(v: Json)
    requires Valid(v) && Orderable(v)
    ensures KeyOf(v) == Tag(Rank(v)) + Content(v)
  {
    if v.Object? {
      ObjectKeyIs(v.entries);
    } else if v.Null? {
      assert "null" + "" == "null";
    } else if v.Bool? {
      assert "b:" + "true" == "b:true" && "b:" + "false" == "b:false";
    }
  }

  /** The tags put the kinds in order, whatever follows them. */
  lemma TagsOrder(i: nat, x: string, j: nat, y: string)
    requires i < j <= 5
    ensures !LexLe(Tag(j) + y, Tag(i) + x)
  {
    var a, b := Tag(i) + x, Tag(j) + y;
    assert a[0] == Tag(i)[0] && b[0] == Tag(j)[0];
    if i == 1 && j == 2 { assert a[1..][0] == ':' && b[1..][0] == 'u'; }
  }

  /** One element comes before another: by kind, then by what it says. */
  ghost predicate Comes(a: Json, b: Json)
    requires Valid(a) && Orderable(a) && Valid(b) && Orderable(b)
  {
    Rank(a) < Rank(b) || (Rank(a) == Rank(b) && LexLe(Content(a), Content(b)))
  }

  lemma {:induction false} TaggedCompare(i: nat, x: string, j: nat, y: string)
    requires i <= 5 && j <= 5 && LexLe(Tag(i) + x, Tag(j) + y)
    ensures i < j || (i == j && LexLe(x, y))
  {
    if j < i {
      TagsOrder(j, y, i, x);
    } else if i == j {
      LexAfter(Tag(i), x, y);
    }
  }

  lemma {:induction false} ItemLeComes(a: Json, b: Json)
    requires Valid(a) && Orderable(a) && Valid(b) && Orderable(b) && ItemLe(a, b)
    ensures Comes(a, b)
  {
    KeyIs(a);
    KeyIs(b);
    LexReflexive(KeyOf(a));
    TaggedCompare(Rank(a), Content(a), Rank(b), Content(b));
  }

  lemma {:induction false} LexReflexive(s: string)
    ensures LexLe(s, s)
  {
    LexTotal(s, s);
  }

  /** A reorderable array comes out in ascending order: bools, numbers, nulls, references,
      strings and titled objects, each kind by its text. Any other keeps its order. */
  lemma {:induction false} CanonAscends(vs: seq<Json>)
    requires AllValid(vs)
    ensures Canon(Array(vs)).Array? && |Canon(Array(vs)).items| == |vs|
    ensures !Reorderable(vs) ==> Canon(Array(vs)) == Array(CanonItems(vs))
    ensures Reorderable(vs) ==> var items := Canon(Array(vs)).items;
      && (forall i | 0 <= i < |items| :: Valid(items[i]) && Orderable(items[i]))
      && forall i, j | 0 <= i < j < |items| :: Comes(items[i], items[j])
  {
    var cs, items := CanonItems(vs), Canon(Array(vs)).items;
    CanonSorts(vs);
    SortKeepsElements(ItemLe, cs);
    if Reorderable(vs) {
      CanonItemsValid(vs);
      ItemsOrdered(cs);
      SortSorts(ItemLe, cs);
      SameElements(cs, items);
      SortableAreReorderable(cs);
      forall i | 0 <= i < |items| ensures Valid(items[i]) && Orderable(items[i]) { assert items[i] in cs; }
      forall i, j | 0 <= i < j < |items| ensures Comes(items[i], items[j]) { ItemLeComes(items[i], items[j]); }
    }
  }

  /** The order in which a reorderable array is written does not matter. */
  lemma {:induction false} CanonForgetsOrder(vs: seq<Json>, ws: seq<Json>)
    requires AllValid(vs) && Reorderable(vs) && multiset(vs) == multiset(ws)
    ensures Canon(Array(vs)) == Canon(Array(ws))
  {
    SameElements(vs, ws);
    forall i | 0 <= i < |ws| ensures Valid(ws[i]) && Orderable(ws[i]) { assert ws[i] in vs; }
    assert Reorderable(ws);
    PermutedIsShuffled(vs, ws);
    SameCanonEqual(Array(vs), Array(ws));
  }

  lemma {:induction false} PermutedIsShuffled(vs: seq<Json>, ws: seq<Json>)
    requires AllValid(vs) && AllValid(ws) && multiset(vs) == multiset(ws)
    ensures Shuffled(vs, ws)
    decreases vs
  {
    assert |multiset(vs)| == |multiset(ws)|;
    if vs != [] {
      assert vs[0] in multiset(vs);
      var j := FindInMultiset(vs[0], ws);
      CanonEqualSame(vs[0], ws[j]);
      MatchOne(vs, ws, j);
      PermutedIsShuffled(vs[1..], Without(ws, j));
    }
  }

  /** Objects come out with their keys in ascending order. */
  lemma {:induction false} CanonKeysAscend(es: seq<Entry>)
    requires DistinctKeys(es)
    ensures Canon(Object(es)).Object?
    ensures var fs := Canon(Object(es)).entries;
      |fs| == |es| && forall i, j | 0 <= i < j < |fs| :: LexLe(fs[i].key, fs[j].key) && fs[i].key != fs[j].key
  {
    CanonEntriesPermutes(es);
    EntriesOrdered(CanonEntries(es));
    SortSorts(EntryLe, CanonEntries(es));
  }

  // ----- the program -----

  /** The key-collecting loop: it gives up at the first element without a key. */
  method CollectSortKeys(items: seq<Json>) returns (r: Option<seq<(string, string)>>)
    ensures r.Some? <==> Sortable(items)
    ensures r.Some? ==> |r.value| == |items|
    ensures r.Some? ==> forall i | 0 <= i < |items| :: r.value[i] == (KeyOf(items[i]), Text(items[i]))
  {
    var sortable: seq<(string, string)> := [];
    for k := 0 to |items|
      invariant |sortable| == k
      invariant forall i | 0 <= i < k :: SortKey(items[i]).Some? && sortable[i] == (KeyOf(items[i]), Text(items[i]))
    {
      match SortKey(items[k])
      case None => return None;
      case Some(key) => sortable := sortable + [(key, Text(items[k]))];
    }
    return Some(sortable);
  }

  lemma {:induction false} CanonKeeps(v: Json)
    requires Valid(v)
    ensures Valid(Canon(v)) && SortKey(Canon(v)) == SortKey(v) && SameUpToOrder(v, Canon(v))
  {
    CanonValid(v);
    CanonKeepsKey(v);
    CanonIdempotent(v);
    CanonEqualSame(v, Canon(v));
  }

  method CanonicalizeJson(v: Json) returns (r: Json)
    ensures r == Canon(v)
    ensures Valid(v) ==> Valid(r) && SortKey(r) == SortKey(v) && SameUpToOrder(v, r)
    decreases v
  {
    if Valid(v) { CanonKeeps(v); }
    match v
    case Array(items) =>
      var cs: seq<Json> := [];
      for k := 0 to |items|
        invariant |cs| == k && forall i | 0 <= i < k :: cs[i] == Canon(items[i])
      {
        var c := CanonicalizeJson(items[k]);
        cs := cs + [c];
      }
      assert cs == CanonItems(items);
      var keys := CollectSortKeys(cs);
      if keys == None { return Array(cs); }
      return Array(Sort(ItemLe, cs));
    case Object(es) =>
      var cs: seq<Entry> := [];
      for k := 0 to |es|
        invariant |cs| == k && forall i | 0 <= i < k :: cs[i] == Entry(es[i].key, Canon(es[i].value))
      {
        var c := CanonicalizeJson(es[k].value);
        cs := cs + [Entry(es[k].key, c)];
      }
      assert cs == CanonEntries(es);
      return Object(Sort(EntryLe, cs));
    case _ => return v;
  }
}
