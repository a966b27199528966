/** Configuration values, reading them by path, and merging one over another. */
module Toml {
  import opened Prelude

  datatype Toml =
    | Leaf(text: string)
    | Array(items: seq<Toml>)
    | Table(entries: map<string, Toml>)

  type Path = seq<string>

  const EMPTY := Table(map[])

  // ----- reading -----

  const I64_MAX: nat := 0x7FFF_FFFF_FFFF_FFFF

  predicate Digit(c: char) { '0' <= c <= '9' }

  predicate AllDigits(s: string) { forall i | 0 <= i < |s| :: Digit(s[i]) }

  function Decimal(s: string): nat
    requires AllDigits(s)
  {
    if s == [] then 0
    else
      assert Digit(s[|s| - 1]);
      10 * Decimal(s[..|s| - 1]) + (s[|s| - 1] as int - '0' as int)
  }

  function Unsigned(s: string): string { if s != [] && (s[0] == '+' || s[0] == '-') then s[1..] else s }

  /** A segment read as an array index: `i64::from_str`, then a non-negative check.
      A sign is allowed, and `-0` is zero. */
  function ParseIndex(s: string): Option<nat> {
    var digits := Unsigned(s);
    if digits == [] || !AllDigits(digits) then None
    else if s[0] == '-' then (if Decimal(digits) == 0 then Some(0) else None)
    else if Decimal(digits) <= I64_MAX then Some(Decimal(digits))
    else None
  }

  function Child(v: Toml, segment: string): Option<Toml> {
    match v
    case Table(m) => if segment in m then Some(m[segment]) else None
    case Array(items) =>
      (match ParseIndex(segment)
       case Some(i) => if i < |items| then Some(items[i]) else None
       case None => None)
    case Leaf(_) => None
  }

  function ValueAt(v: Toml, path: Path): Option<Toml> {
    if path == [] then Some(v)
    else match Child(v, path[0]) case Some(c) => ValueAt(c, path[1..]) case None => None
  }

  method ValueAtPath(root: Toml, segments: Path) returns (r: Option<Toml>)
    ensures r == ValueAt(root, segments)
  {
    var current := root;
    for k := 0 to |segments|
      invariant ValueAt(root, segments) == ValueAt(current, segments[k..])
    {
      match Child(current, segments[k])
      case None => return None;
      case Some(c) =>
        assert segments[k..][1..] == segments[k + 1..];
        current := c;
    }
    return Some(current);
  }

  // ----- renamed keys -----

  datatype Alias = Alias(legacy: string, canonical: string)

  function AliasAt(path: Path): Option<Alias> {
    if |path| != 1 then None
    else if path[0] == "memories" then Some(Alias("no_memories_if_mcp_or_web_search", "disable_on_external_context"))
    else if path[0] == "agents" then Some(Alias("max_concurrent_threads_per_session", "max_threads"))
    else None
  }

  /** The key whose value ends up under `k`. */
  function SourceKey(path: Path, m: map<string, Toml>, k: string): string {
    match AliasAt(path)
    case Some(a) => if k == a.canonical && a.legacy in m && k !in m then a.legacy else k
    case None => k
  }

  /** Moves a legacy key to its canonical name, unless that is taken. */
  function Renamed(path: Path, m: map<string, Toml>): (r: map<string, Toml>)
    ensures forall k | k in r :: SourceKey(path, m, k) in m && r[k] == m[SourceKey(path, m, k)]
  {
    match AliasAt(path)
    case Some(a) =>
      if a.legacy in m then
        var rest := m - {a.legacy};
        if a.canonical in rest then rest else rest[a.canonical := m[a.legacy]]
      else m
    case None => m
  }

  function Normalized(v: Toml, path: Path): Toml
    decreases v
  {
    match v
    case Table(m) => Table(Renamed(path, map k | k in m :: Normalized(m[k], path + [k])))
    case Array(items) => Array(seq(|items|, i requires 0 <= i < |items| => Normalized(items[i], path)))
    case Leaf(_) => v
  }

  /** `overlay` over `base`, table by table. */
  function Merged(base: Toml, overlay: Toml, path: Path): Toml
    decreases overlay
  {
    if base.Table? && overlay.Table? then
      var b, o := Renamed(path, base.entries), Renamed(path, overlay.entries);
      Table(map k | k in b.Keys + o.Keys ::
        if k in o then (if k in b then Merged(b[k], o[k], path + [k]) else Normalized(o[k], path + [k]))
        else b[k])
    else Normalized(overlay, path)
  }

  // ----- values that use no legacy key -----

  predicate Modern(v: Toml, path: Path)
    decreases v
  {
    match v
    case Table(m) =>
      && (match AliasAt(path) case Some(a) => a.legacy !in m case None => true)
      && forall k | k in m :: Modern(m[k], path + [k])
    case Array(items) => forall i | 0 <= i < |items| :: Modern(items[i], path)
    case Leaf(_) => true
  }

  lemma {:induction false} ModernIsNormalized(v: Toml, path: Path)
    requires Modern(v, path)
    ensures Normalized(v, path) == v
    decreases v
  {
    match v
    case Table(m) =>
      forall k | k in m ensures Normalized(m[k], path + [k]) == m[k] { ModernIsNormalized(m[k], path + [k]); }
      assert (map k | k in m :: Normalized(m[k], path + [k])) == m;
    case Array(items) =>
      forall i | 0 <= i < |items| ensures Normalized(items[i], path) == items[i] { ModernIsNormalized(items[i], path); }
    case Leaf(_) =>
  }

  /** Aliases are for keys of top-level tables only. */
  lemma {:induction false} DeepIsModern(v: Toml, path: Path)
    requires |path| >= 2
    ensures Modern(v, path)
    decreases v
  {
    match v
    case Table(m) => forall k | k in m ensures Modern(m[k], path + [k]) { DeepIsModern(m[k], path + [k]); }
    case Array(items) => forall i | 0 <= i < |items| ensures Modern(items[i], path) { DeepIsModern(items[i], path); }
    case Leaf(_) =>
  }

  lemma RenamedModern(path: Path, m: map<string, Toml>)
    requires Modern(Table(m), path)
    ensures Renamed(path, m) == m
  {
  }

  lemma RenamedKeys(path: Path, m: map<string, Toml>, n: map<string, Toml>)
    requires m.Keys == n.Keys
    ensures Renamed(path, m).Keys == Renamed(path, n).Keys
    ensures AliasAt(path).Some? ==> AliasAt(path).value.legacy !in Renamed(path, m)
  {
    match AliasAt(path)
    case Some(a) => assert (m - {a.legacy}).Keys == (n - {a.legacy}).Keys;
    case None =>
  }

  /** Renaming the keys first and normalizing below them comes to the same. */
  lemma NormalizedEntry(m: map<string, Toml>, path: Path, k: string)
    ensures var n := Normalized(Table(m), path);
      && n.Table? && (k in n.entries <==> k in Renamed(path, m))
      && (k in n.entries ==> n.entries[k] == Normalized(Renamed(path, m)[k], path + [k]))
  {
    var below := map key | key in m :: Normalized(m[key], path + [key]);
    var o := Renamed(path, m);
    RenamedKeys(path, below, m);
    if k in o {
      var source := SourceKey(path, m, k);
      assert SourceKey(path, below, k) == source;
      if source != k {
        DeepIsModern(m[source], path + [source]);
        ModernIsNormalized(m[source], path + [source]);
        DeepIsModern(m[source], path + [k]);
        ModernIsNormalized(m[source], path + [k]);
      }
    }
  }

  lemma {:induction false} NormalizedIsModern(v: Toml, path: Path)
    ensures Modern(Normalized(v, path), path)
    decreases v
  {
    match v
    case Table(m) =>
      var n := Normalized(v, path);
      RenamedKeys(path, map k | k in m :: Normalized(m[k], path + [k]), m);
      forall k | k in n.entries ensures Modern(n.entries[k], path + [k]) {
        NormalizedEntry(m, path, k);
        NormalizedIsModern(m[SourceKey(path, m, k)], path + [k]);
      }
    case Array(items) =>
      forall i | 0 <= i < |items| ensures Modern(Normalized(items[i], path), path) { NormalizedIsModern(items[i], path); }
    case Leaf(_) =>
  }

  /** Over a table without legacy keys, whose keys are renamed first, a merge is the plain
      recursive one. */
  lemma {:induction false} MergedEntry(b: map<string, Toml>, overlay: map<string, Toml>, path: Path, k: string)
    requires Modern(Table(b), path)
    ensures var m, o := Merged(Table(b), Table(overlay), path), Renamed(path, overlay);
      && m.Table? && (k in m.entries <==> k in b || k in o)
      && (k in b && k !in o ==> m.entries[k] == b[k])
      && (k in b && k in o ==> m.entries[k] == Merged(b[k], o[k], path + [k]))
      && (k !in b && k in o ==> m.entries[k] == Normalized(o[k], path + [k]))
  {
    RenamedModern(path, b);
  }

  /** Merging leaves no legacy key. */
  lemma {:induction false} MergedIsModern(base: Toml, overlay: Toml, path: Path)
    requires Modern(base, path)
    ensures Modern(Merged(base, overlay, path), path)
    decreases overlay
  {
    if base.Table? && overlay.Table? {
      var b, o := base.entries, Renamed(path, overlay.entries);
      var m := Merged(base, overlay, path);
      forall k | k in m.entries ensures Modern(m.entries[k], path + [k]) {
        MergedEntry(b, overlay.entries, path, k);
        if k in o && k in b {
          MergedIsModern(b[k], o[k], path + [k]);
        } else if k in o {
          NormalizedIsModern(o[k], path + [k]);
        }
      }
      if AliasAt(path).Some? {
        RenamedKeys(path, overlay.entries, overlay.entries);
        MergedEntry(b, overlay.entries, path, AliasAt(path).value.legacy);
      }
    } else {
      NormalizedIsModern(overlay, path);
    }
  }

  /** Merging invents no path: what can be read from the result could be read from the one
      below or, its keys renamed, from the one above. */
  lemma {:induction false} MergedReads(base: Toml, overlay: Toml, path: Path, q: Path)
    requires Modern(base, path)
    requires ValueAt(Merged(base, overlay, path), q).Some?
    ensures ValueAt(base, q).Some? || ValueAt(Normalized(overlay, path), q).Some?
    decreases q
  {
    if q != [] && base.Table? && overlay.Table? {
      var k, o := q[0], Renamed(path, overlay.entries);
      MergedEntry(base.entries, overlay.entries, path, k);
      NormalizedEntry(overlay.entries, path, k);
      if k in base.entries && k in o {
        MergedReads(base.entries[k], o[k], path + [k], q[1..]);
      }
    }
  }

  // ----- what a merge reads -----

  /** Without assuming anything of the two: a table merged over a table. */
  lemma {:induction false} MergedTables(b: map<string, Toml>, overlay: map<string, Toml>, path: Path, k: string)
    ensures var m, below, o := Merged(Table(b), Table(overlay), path), Renamed(path, b), Renamed(path, overlay);
      && m.Table? && (k in m.entries <==> k in below || k in o)
      && (k in below && k !in o ==> m.entries[k] == below[k])
      && (k in below && k in o ==> m.entries[k] == Merged(below[k], o[k], path + [k]))
      && (k !in below && k in o ==> m.entries[k] == Normalized(o[k], path + [k]))
  {
  }

  /** The overlay takes precedence: what it says at a path, other than a table, is what the
      merge says. */
  lemma {:induction false} OverlayWins(base: Toml, overlay: Toml, path: Path, q: Path)
    requires ValueAt(Normalized(overlay, path), q).Some? && !ValueAt(Normalized(overlay, path), q).value.Table?
    ensures ValueAt(Merged(base, overlay, path), q) == ValueAt(Normalized(overlay, path), q)
    decreases q
  {
    if base.Table? && overlay.Table? {
      if q != [] {
        var k, o := q[0], Renamed(path, overlay.entries);
        MergedTables(base.entries, overlay.entries, path, k);
        NormalizedEntry(overlay.entries, path, k);
        if k in Renamed(path, base.entries) {
          OverlayWins(Renamed(path, base.entries)[k], o[k], path + [k], q[1..]);
        }
      }
    }
  }

  /** At every place before the last, `v` has a table or nothing. */
  ghost predicate Open(v: Toml, q: Path) {
    forall i | 0 <= i < |q| :: ValueAt(v, q[..i]) == None || ValueAt(v, q[..i]).value.Table?
  }

  /** Tables all the way to the last place. */
  ghost predicate Through(v: Toml, q: Path) {
    forall i | 0 <= i < |q| :: ValueAt(v, q[..i]).Some? && ValueAt(v, q[..i]).value.Table?
  }

  lemma OpenBelow(v: Toml, q: Path)
    requires q != [] && v.Table? && q[0] in v.entries
    ensures Open(v, q) <==> Open(v.entries[q[0]], q[1..])
    ensures Through(v, q) <==> Through(v.entries[q[0]], q[1..])
  {
    var c, r := v.entries[q[0]], q[1..];
    forall i | 0 <= i < |r| ensures ValueAt(c, r[..i]) == ValueAt(v, q[..i + 1]) {
      assert q[..i + 1][1..] == r[..i];
    }
    forall i | 0 < i < |q| ensures ValueAt(v, q[..i]) == ValueAt(c, r[..i - 1]) {
      assert q[..i][1..] == r[..i - 1];
    }
    assert q[..0] == [];
  }

  /** Where the overlay says nothing, and nothing on the way but tables, a value below shows
      through, if it is reached through tables. */
  lemma {:induction false} BaseShows(base: Toml, overlay: Toml, path: Path, q: Path)
    requires Modern(base, path) && Through(base, q) && q != []
    requires ValueAt(Normalized(overlay, path), q) == None && Open(Normalized(overlay, path), q)
    ensures ValueAt(Merged(base, overlay, path), q) == ValueAt(base, q)
    ensures Through(Merged(base, overlay, path), q)
    decreases q
  {
    var n, m, k := Normalized(overlay, path), Merged(base, overlay, path), q[0];
    assert q[..0] == [] && base.Table? && n.Table?;
    MergedEntry(base.entries, overlay.entries, path, k);
    NormalizedEntry(overlay.entries, path, k);
    if |q| == 1 {
      assert q[1..] == [];
      OnePlace(m, q);
    } else {
      ThroughFirst(base, q);
      OpenBelow(base, q);
      var below := base.entries[k];
      if k in Renamed(path, overlay.entries) {
        OpenBelow(n, q);
        BaseShows(below, Renamed(path, overlay.entries)[k], path + [k], q[1..]);
      }
      OpenBelow(m, q);
    }
  }

  lemma OnePlace(v: Toml, q: Path)
    requires |q| == 1 && v.Table?
    ensures Through(v, q)
  {
    assert q[..0] == [];
  }

  lemma ThroughFirst(v: Toml, q: Path)
    requires |q| > 1 && Through(v, q)
    ensures v.Table? && q[0] in v.entries
  {
    assert q[..0] == [] && q[..1] == [q[0]];
    assert ValueAt(v, q[..1]).Some?;
  }

  /** Tables on the way in the overlay stay tables in the merge. */
  lemma {:induction false} OverlayThrough(base: Toml, overlay: Toml, path: Path, q: Path)
    requires Through(Normalized(overlay, path), q)
    ensures Through(Merged(base, overlay, path), q)
    decreases q
  {
    if q != [] {
      var n, m, k := Normalized(overlay, path), Merged(base, overlay, path), q[0];
      assert q[..0] == [] && n.Table?;
      if |q| == 1 {
        OnePlace(m, q);
      } else if base.Table? && overlay.Table? {
        ThroughFirst(n, q);
        OpenBelow(n, q);
        MergedTables(base.entries, overlay.entries, path, k);
        NormalizedEntry(overlay.entries, path, k);
        if k in Renamed(path, base.entries) {
          OverlayThrough(Renamed(path, base.entries)[k], Renamed(path, overlay.entries)[k], path + [k], q[1..]);
        }
        OpenBelow(m, q);
      }
    }
  }

  // ----- which keys are renamed -----

  /** The two legacy keys give their values to their new names unless these are there; no
      other key of any table is touched. */
  lemma LegacyKeysMove(m: map<string, Toml>, k: string)
    ensures var r := Renamed(["agents"], m);
      && "max_concurrent_threads_per_session" !in r
      && (k !in {"max_concurrent_threads_per_session", "max_threads"} ==> (k in r <==> k in m) && (k in m ==> r[k] == m[k]))
      && ("max_threads" in m ==> "max_threads" in r && r["max_threads"] == m["max_threads"])
      && ("max_threads" !in m && "max_concurrent_threads_per_session" in m ==>
            "max_threads" in r && r["max_threads"] == m["max_concurrent_threads_per_session"])
    ensures var r := Renamed(["memories"], m);
      && "no_memories_if_mcp_or_web_search" !in r
      && (k !in {"no_memories_if_mcp_or_web_search", "disable_on_external_context"} ==>
            (k in r <==> k in m) && (k in m ==> r[k] == m[k]))
      && ("disable_on_external_context" in m ==>
            "disable_on_external_context" in r && r["disable_on_external_context"] == m["disable_on_external_context"])
      && ("disable_on_external_context" !in m && "no_memories_if_mcp_or_web_search" in m ==>
            "disable_on_external_context" in r && r["disable_on_external_context"] == m["no_memories_if_mcp_or_web_search"])
  {
  }

  lemma OtherTablesKeepTheirKeys(path: Path, m: map<string, Toml>)
    requires path != ["agents"] && path != ["memories"]
    ensures Renamed(path, m) == m
  {
    if |path| == 1 { assert path == [path[0]]; }
  }

  // ----- indices -----

  /** How an index is written. */
  function Digits(n: nat): (s: string)
    ensures s != [] && forall i | 0 <= i < |s| :: Digit(s[i])
  {
    var last := ('0' as int + n % 10) as char;
    if n < 10 then [last] else Digits(n / 10) + [last]
  }

  lemma {:induction false} DecimalOfDigits(n: nat)
    ensures Decimal(Digits(n)) == n
  {
    var s := Digits(n);
    if n >= 10 {
      DecimalOfDigits(n / 10);
      assert s[..|s| - 1] == Digits(n / 10);
    } else {
      assert s[..0] == [];
    }
  }

  /** A segment that writes an index reads that element of an array, and nothing past its end. */
  lemma IndexReads(items: seq<Toml>, n: nat)
    requires n <= I64_MAX
    ensures ValueAt(Array(items), [Digits(n)]) == if n < |items| then Some(items[n]) else None
  {
    DecimalOfDigits(n);
    assert Digit(Digits(n)[0]);
    assert [Digits(n)][1..] == [];
  }

  /** Which segments are indices: decimal digits that fit in 63 bits, with a plus or without,
      and zero with a minus. */
  lemma IndexExactly(digits: string)
    requires digits != [] && AllDigits(digits)
    ensures ParseIndex(digits) == if Decimal(digits) <= I64_MAX then Some(Decimal(digits)) else None
    ensures ParseIndex("+" + digits) == ParseIndex(digits)
    ensures ParseIndex("-" + digits) == if Decimal(digits) == 0 then Some(0) else None
  {
    assert Digit(digits[0]);
    assert ("+" + digits)[1..] == digits && ("-" + digits)[1..] == digits;
  }

  /** Nothing else is. */
  lemma NotAnIndex(s: string)
    requires s == [] || s == "+" || s == "-" || (!Digit(s[0]) && s[0] != '+' && s[0] != '-')
             || exists i | 0 < i < |s| :: !Digit(s[i])
    ensures ParseIndex(s) == None
  {
    var digits := Unsigned(s);
    if i :| 0 < i < |s| && !Digit(s[i]) {
      var j := i - (|s| - |digits|);
      assert digits[j] == s[i];
    } else if s != [] && !Digit(s[0]) && s[0] != '+' && s[0] != '-' {
      assert digits[0] == s[0];
    }
  }
}
