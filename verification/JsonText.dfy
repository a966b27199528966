/** JSON values as the fixture comparison sees them, and the compact text that
    `serde_json::to_string` gives them. Objects keep the order of their entries. */
module JsonText {

  datatype Json =
    | Null
    | Bool(b: bool)
    | Number(text: string)
    | String(s: string)
    | Array(items: seq<Json>)
    | Object(entries: seq<Entry>)

  datatype Entry = Entry(key: string, value: Json)

  predicate NumberChar(c: char) {
    '0' <= c <= '9' || c == '-' || c == '+' || c == '.' || c == 'e' || c == 'E'
  }

  predicate DistinctKeys(es: seq<Entry>) {
    forall i, j | 0 <= i < j < |es| :: es[i].key != es[j].key
  }

  /** What every `serde_json::Value` satisfies: numbers print as number text,
      and no object holds a key twice. */
  predicate Valid(v: Json) {
    match v
    case Number(t) => t != [] && forall i | 0 <= i < |t| :: NumberChar(t[i])
    case Array(items) => forall i | 0 <= i < |items| :: Valid(items[i])
    case Object(es) => DistinctKeys(es) && forall i | 0 <= i < |es| :: Valid(es[i].value)
    case _ => true
  }

  predicate AllValid(vs: seq<Json>) { forall i | 0 <= i < |vs| :: Valid(vs[i]) }

  predicate EntriesValid(es: seq<Entry>) { forall i | 0 <= i < |es| :: Valid(es[i].value) }

  // ----- text -----

  function HexDigit(n: nat): char
    requires n < 16
  { if n < 10 then ('0' as int + n) as char else ('a' as int + n - 10) as char }

  function Escape(c: char): string {
    if c == '\"' then "\\\""
    else if c == '\\' then "\\\\"
    else if c as int == 8 then "\\b"
    else if c as int == 12 then "\\f"
    else if c == '\n' then "\\n"
    else if c == '\r' then "\\r"
    else if c == '\t' then "\\t"
    else if c as int < 32 then ['\\', 'u', '0', '0', HexDigit(c as int / 16), HexDigit(c as int % 16)]
    else [c]
  }

  /** The rest of a string literal after its opening quote. */
  function StringRest(s: string): string {
    if s == [] then "\"" else Escape(s[0]) + StringRest(s[1..])
  }

  function Text(v: Json): string {
    match v
    case Null => "null"
    case Bool(b) => if b then "true" else "false"
    case Number(t) => t
    case String(s) => "\"" + StringRest(s)
    case Array(items) =>
      if items == [] then "[]" else "[" + (Text(items[0]) + ItemsRest(items[1..]))
    case Object(es) =>
      if es == [] then "{}" else "{" + (EntryText(es[0]) + EntriesRest(es[1..]))
  }

  function ItemsRest(items: seq<Json>): string {
    if items == [] then "]" else "," + (Text(items[0]) + ItemsRest(items[1..]))
  }

  function EntryText(e: Entry): string {
    "\"" + (StringRest(e.key) + (":" + Text(e.value)))
  }

  function EntriesRest(es: seq<Entry>): string {
    if es == [] then "}" else "," + (EntryText(es[0]) + EntriesRest(es[1..]))
  }

  /** Texts with commas between them. */
  function Commas(parts: seq<string>): string {
    if parts == [] then []
    else if |parts| == 1 then parts[0]
    else parts[0] + ("," + Commas(parts[1..]))
  }

  /** A quoted string, character by character. */
  function Quoted(s: string): string { "\"" + (Characters(s) + "\"") }

  function Characters(s: string): string { if s == [] then [] else Escape(s[0]) + Characters(s[1..]) }

  lemma {:induction false} QuotedIs(s: string)
    ensures StringRest(s) == Characters(s) + "\""
  {
    if s != [] {
      QuotedIs(s[1..]);
      assert Escape(s[0]) + (Characters(s[1..]) + "\"") == Escape(s[0]) + Characters(s[1..]) + "\"";
    }
  }

  function Texts(items: seq<Json>): seq<string> { seq(|items|, i requires 0 <= i < |items| => Text(items[i])) }

  function EntryTexts(es: seq<Entry>): seq<string> { seq(|es|, i requires 0 <= i < |es| => EntryText(es[i])) }

  lemma {:induction false} ItemsAre(items: seq<Json>)
    requires items != []
    ensures Text(items[0]) + ItemsRest(items[1..]) == Commas(Texts(items)) + "]"
  {
    if |items| == 1 {
      assert items[1..] == [];
    } else {
      var rest := items[1..];
      ItemsAre(rest);
      assert Texts(items)[1..] == Texts(rest);
      assert Text(items[0]) + ("," + (Commas(Texts(rest)) + "]")) == Text(items[0]) + ("," + Commas(Texts(rest))) + "]";
    }
  }

  lemma {:induction false} EntriesAre(es: seq<Entry>)
    requires es != []
    ensures EntryText(es[0]) + EntriesRest(es[1..]) == Commas(EntryTexts(es)) + "}"
  {
    if |es| == 1 {
      assert es[1..] == [];
    } else {
      var rest := es[1..];
      EntriesAre(rest);
      assert EntryTexts(es)[1..] == EntryTexts(rest);
      assert EntryText(es[0]) + ("," + (Commas(EntryTexts(rest)) + "}")) ==
             EntryText(es[0]) + ("," + Commas(EntryTexts(rest))) + "}";
    }
  }

  /** The text of each kind of value: lists in brackets, entries in braces, commas between. */
  lemma {:induction false} TextForms(v: Json, e: Entry)
    ensures match v
      case Null => Text(v) == "null"
      case Bool(b) => Text(v) == if b then "true" else "false"
      case Number(text) => Text(v) == text
      case String(s) => Text(v) == Quoted(s)
      case Array(items) => Text(v) == "[" + (Commas(Texts(items)) + "]")
      case Object(es) => Text(v) == "{" + (Commas(EntryTexts(es)) + "}")
    ensures EntryText(e) == Quoted(e.key) + (":" + Text(e.value))
  {
    QuotedIs(e.key);
    assert "\"" + ((Characters(e.key) + "\"") + (":" + Text(e.value))) == Quoted(e.key) + (":" + Text(e.value));
    match v
    case String(s) => QuotedIs(s);
    case Array(items) => if items != [] { ItemsAre(items); } else { assert "[" + ("" + "]") == "[]"; }
    case Object(es) => if es != [] { EntriesAre(es); } else { assert "{" + ("" + "}") == "{}"; }
    case _ =>
  }

  // ----- the text determines the value -----

  /** The text that may follow a value: not a character a number could absorb. */
  predicate Stops(x: string) { x == [] || !NumberChar(x[0]) }

  lemma ConcatFirst(a: string, x: string)
    requires a != []
    ensures (a + x)[0] == a[0]
  {
  }

  /** Equal concatenations whose first parts have equal length agree part by part. */
  lemma SplitEqual(a: string, x: string, b: string, y: string)
    requires a + x == b + y && |a| == |b|
    ensures a == b && x == y
  {
    assert (a + x)[..|a|] == a && (a + x)[|a|..] == x;
    assert (b + y)[..|b|] == b && (b + y)[|b|..] == y;
  }

  lemma Assoc(a: string, b: string, c: string)
    ensures (a + b) + c == a + (b + c)
  {
  }

  /** No escape is the start of another. */
  lemma EscapePrefixFree(c: char, d: char)
    requires Escape(c) <= Escape(d)
    ensures c == d
  {
    var e, f := Escape(c), Escape(d);
    assert e[0] == f[0];
    if |e| > 1 {
      assert e[1] == f[1];
      if |e| > 2 {
        assert e[4] == f[4] && e[5] == f[5];
      }
    }
  }

  lemma EscapeDecodes(c: char, x: string, d: char, y: string)
    requires Escape(c) + x == Escape(d) + y
    ensures c == d && x == y
  {
    var e, f := Escape(c), Escape(d);
    PrefixesNest(e, x, f, y);
    if e <= f { EscapePrefixFree(c, d); } else { EscapePrefixFree(d, c); }
    SplitEqual(e, x, f, y);
  }

  lemma PrefixesNest(a: string, x: string, b: string, y: string)
    requires a + x == b + y
    ensures a <= b || b <= a
  {
    assert (a + x)[..|a|] == a && (b + y)[..|b|] == b;
    if |a| <= |b| {
      assert b[..|a|] == (b + y)[..|a|];
    } else {
      assert a[..|b|] == (a + x)[..|b|];
    }
  }

  lemma StringRestLead(s: string, x: string)
    ensures StringRest(s) != [] && (StringRest(s) + x)[0] == StringRest(s)[0]
    ensures StringRest(s)[0] == '\"' <==> s == []
  {
    if s != [] { ConcatFirst(Escape(s[0]), StringRest(s[1..])); }
  }

  lemma {:induction false} StringDecodes(s: string, x: string, t: string, y: string)
    requires StringRest(s) + x == StringRest(t) + y
    ensures s == t && x == y
  {
    StringRestLead(s, x);
    StringRestLead(t, y);
    if s == [] {
      SplitEqual("\"", x, "\"", y);
    } else {
      Assoc(Escape(s[0]), StringRest(s[1..]), x);
      Assoc(Escape(t[0]), StringRest(t[1..]), y);
      EscapeDecodes(s[0], StringRest(s[1..]) + x, t[0], StringRest(t[1..]) + y);
      StringDecodes(s[1..], x, t[1..], y);
      assert s == [s[0]] + s[1..] && t == [t[0]] + t[1..];
    }
  }

  lemma LiteralDecodes(s: string, x: string, t: string, y: string)
    requires Text(String(s)) + x == Text(String(t)) + y
    ensures s == t && x == y
  {
    Assoc("\"", StringRest(s), x);
    Assoc("\"", StringRest(t), y);
    SplitEqual("\"", StringRest(s) + x, "\"", StringRest(t) + y);
    StringDecodes(s, x, t, y);
  }

  lemma {:induction false} NumberDecodes(a: string, x: string, b: string, y: string)
    requires forall i | 0 <= i < |a| :: NumberChar(a[i])
    requires forall i | 0 <= i < |b| :: NumberChar(b[i])
    requires a + x == b + y && Stops(x) && Stops(y)
    ensures a == b && x == y
  {
    assert x != [] ==> (a + x)[|a|] == x[0];
    assert y != [] ==> (b + y)[|b|] == y[0];
    SplitEqual(a, x, b, y);
  }

  /** Which kind of value a text starts. */
  function Lead(v: Json): char
    requires Valid(v)
  { Text(v)[0] }

  lemma LeadTellsKind(v: Json, w: Json)
    requires Valid(v) && Valid(w)
    ensures Lead(v) !in {',', ']', '}'}
    ensures Lead(v) == Lead(w) && !v.Number? && !v.Bool? ==>
      (v.Null? <==> w.Null?) && (v.String? <==> w.String?) && (v.Array? <==> w.Array?) && (v.Object? <==> w.Object?)
    ensures Lead(v) == Lead(w) ==> (v.Number? <==> w.Number?) && (v.Bool? <==> w.Bool?)
    ensures Lead(v) == Lead(w) && v.Bool? ==> v == w
  {
    assert v.Number? ==> NumberChar(v.text[0]);
    assert w.Number? ==> NumberChar(w.text[0]);
    assert v.Array? ==> Lead(v) == '[';
    assert w.Array? ==> Lead(w) == '[';
    assert v.Object? ==> Lead(v) == '{';
    assert w.Object? ==> Lead(w) == '{';
  }

  /** No value's text is the start of another value's text: a text followed by
      anything but a number character has exactly one reading. */
  lemma {:induction false} TextDecodes(v: Json, x: string, w: Json, y: string)
    requires Valid(v) && Valid(w)
    requires Text(v) + x == Text(w) + y && Stops(x) && Stops(y)
    ensures v == w && x == y
    decreases v
  {
    ConcatFirst(Text(v), x);
    ConcatFirst(Text(w), y);
    LeadTellsKind(v, w);
    match v
    case Null => SplitEqual("null", x, "null", y);
    case Bool(_) => SplitEqual(Text(v), x, Text(v), y);
    case Number(t) => NumberDecodes(t, x, w.text, y);
    case String(s) =>
      LiteralDecodes(s, x, w.s, y);
    case Array(items) =>
      ArrayDecodes(items, x, w.items, y);
    case Object(es) =>
      ObjectDecodes(es, x, w.entries, y);
  }

  /** `open`, one piece, the rest of the list, then `x`, bracketed to the right. */
  lemma Regroup(open: string, piece: string, rest: string, x: string)
    requires |open| == 1 && piece != []
    ensures (open + (piece + rest)) + x == open + (piece + (rest + x))
    ensures (open + (piece + (rest + x)))[0] == open[0]
    ensures (open + (piece + (rest + x)))[1] == piece[0]
  {
    Assoc(open, piece + rest, x);
    Assoc(piece, rest, x);
    ConcatFirst(piece, rest + x);
  }

  lemma {:induction false} ArrayDecodes(vs: seq<Json>, x: string, ws: seq<Json>, y: string)
    requires AllValid(vs) && AllValid(ws)
    requires Text(Array(vs)) + x == Text(Array(ws)) + y
    ensures vs == ws && x == y
    decreases vs, 1
  {
    if vs != [] {
      LeadTellsKind(vs[0], vs[0]);
      Regroup("[", Text(vs[0]), ItemsRest(vs[1..]), x);
    }
    if ws != [] {
      LeadTellsKind(ws[0], ws[0]);
      Regroup("[", Text(ws[0]), ItemsRest(ws[1..]), y);
    }
    if vs == [] {
      SplitEqual("[]", x, "[]", y);
    } else {
      var vr, wr := ItemsRest(vs[1..]) + x, ItemsRest(ws[1..]) + y;
      SplitEqual("[", Text(vs[0]) + vr, "[", Text(ws[0]) + wr);
      RestStops(vs[1..], x);
      RestStops(ws[1..], y);
      TextDecodes(vs[0], vr, ws[0], wr);
      ItemsDecode(vs[1..], x, ws[1..], y);
      assert vs == [vs[0]] + vs[1..] && ws == [ws[0]] + ws[1..];
    }
  }

  lemma RestStops(vs: seq<Json>, x: string)
    ensures Stops(ItemsRest(vs) + x)
    ensures (ItemsRest(vs) + x)[0] == if vs == [] then ']' else ','
  {
    ConcatFirst(ItemsRest(vs), x);
  }

  lemma {:induction false} ItemsDecode(vs: seq<Json>, x: string, ws: seq<Json>, y: string)
    requires AllValid(vs) && AllValid(ws)
    requires ItemsRest(vs) + x == ItemsRest(ws) + y
    ensures vs == ws && x == y
    decreases vs, 0
  {
    RestStops(vs, x);
    RestStops(ws, y);
    if vs == [] {
      SplitEqual("]", x, "]", y);
    } else {
      var vr, wr := ItemsRest(vs[1..]) + x, ItemsRest(ws[1..]) + y;
      Regroup(",", Text(vs[0]), ItemsRest(vs[1..]), x);
      Regroup(",", Text(ws[0]), ItemsRest(ws[1..]), y);
      SplitEqual(",", Text(vs[0]) + vr, ",", Text(ws[0]) + wr);
      RestStops(vs[1..], x);
      RestStops(ws[1..], y);
      TextDecodes(vs[0], vr, ws[0], wr);
      ItemsDecode(vs[1..], x, ws[1..], y);
      assert vs == [vs[0]] + vs[1..] && ws == [ws[0]] + ws[1..];
    }
  }

  lemma EntryLead(e: Entry)
    ensures EntryText(e) != [] && EntryText(e)[0] == '\"'
  {
  }

  lemma EntryTextThen(e: Entry, x: string)
    ensures EntryText(e) + x == "\"" + (StringRest(e.key) + (":" + (Text(e.value) + x)))
  {
    var k, v := StringRest(e.key), Text(e.value);
    Assoc("\"", k + (":" + v), x);
    Assoc(k, ":" + v, x);
    Assoc(":", v, x);
  }

  lemma {:induction false} EntryDecodes(e: Entry, x: string, f: Entry, y: string)
    requires Valid(e.value) && Valid(f.value)
    requires EntryText(e) + x == EntryText(f) + y && Stops(x) && Stops(y)
    ensures e == f && x == y
    decreases e, 0
  {
    var ev, fv := Text(e.value) + x, Text(f.value) + y;
    EntryTextThen(e, x);
    EntryTextThen(f, y);
    SplitEqual("\"", StringRest(e.key) + (":" + ev), "\"", StringRest(f.key) + (":" + fv));
    StringDecodes(e.key, ":" + ev, f.key, ":" + fv);
    SplitEqual(":", ev, ":", fv);
    TextDecodes(e.value, x, f.value, y);
  }

  lemma {:induction false} ObjectDecodes(es: seq<Entry>, x: string, fs: seq<Entry>, y: string)
    requires EntriesValid(es) && EntriesValid(fs)
    requires Text(Object(es)) + x == Text(Object(fs)) + y
    ensures es == fs && x == y
    decreases es, 1
  {
    if es != [] {
      EntryLead(es[0]);
      Regroup("{", EntryText(es[0]), EntriesRest(es[1..]), x);
    }
    if fs != [] {
      EntryLead(fs[0]);
      Regroup("{", EntryText(fs[0]), EntriesRest(fs[1..]), y);
    }
    if es == [] {
      SplitEqual("{}", x, "{}", y);
    } else {
      var er, fr := EntriesRest(es[1..]) + x, EntriesRest(fs[1..]) + y;
      SplitEqual("{", EntryText(es[0]) + er, "{", EntryText(fs[0]) + fr);
      EntriesStop(es[1..], x);
      EntriesStop(fs[1..], y);
      EntryDecodes(es[0], er, fs[0], fr);
      EntriesDecode(es[1..], x, fs[1..], y);
      assert es == [es[0]] + es[1..] && fs == [fs[0]] + fs[1..];
    }
  }

  lemma EntriesStop(es: seq<Entry>, x: string)
    ensures Stops(EntriesRest(es) + x)
    ensures (EntriesRest(es) + x)[0] == if es == [] then '}' else ','
  {
    ConcatFirst(EntriesRest(es), x);
  }

  lemma {:induction false} EntriesDecode(es: seq<Entry>, x: string, fs: seq<Entry>, y: string)
    requires EntriesValid(es) && EntriesValid(fs)
    requires EntriesRest(es) + x == EntriesRest(fs) + y
    ensures es == fs && x == y
    decreases es, 0
  {
    EntriesStop(es, x);
    EntriesStop(fs, y);
    if es == [] {
      SplitEqual("}", x, "}", y);
    } else {
      var er, fr := EntriesRest(es[1..]) + x, EntriesRest(fs[1..]) + y;
      EntryLead(es[0]);
      EntryLead(fs[0]);
      Regroup(",", EntryText(es[0]), EntriesRest(es[1..]), x);
      Regroup(",", EntryText(fs[0]), EntriesRest(fs[1..]), y);
      SplitEqual(",", EntryText(es[0]) + er, ",", EntryText(fs[0]) + fr);
      EntriesStop(es[1..], x);
      EntriesStop(fs[1..], y);
      EntryDecodes(es[0], er, fs[0], fr);
      EntriesDecode(es[1..], x, fs[1..], y);
      assert es == [es[0]] + es[1..] && fs == [fs[0]] + fs[1..];
    }
  }

  /** `serde_json::to_string` is injective: equal texts come from equal values. */
  lemma TextInjective(v: Json, w: Json)
    requires Valid(v) && Valid(w) && Text(v) == Text(w)
    ensures v == w
  {
    assert Text(v) + "" == Text(w) + "";
    TextDecodes(v, "", w, "");
  }
}
