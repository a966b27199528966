/** Filtering the fields of a generated TypeScript file: finding the braces of the type,
    replacing what is between them, and finding them again. */
module TypeFields {
  import opened Prelude
  import opened TypeText

  const DELIMITERS: set<char> := {',', ';'}

  // ----- finding the braces -----

  /** The search goes on, with the last brace opened at top level; or it has ended. */
  datatype Seek = Seeking(scan: Scan, last: Option<nat>, at: nat) | Found(open: nat, close: nat)

  const OUTSET := Seeking(START, None, 0)

  function Look(k: Seek, c: char): Seek {
    match k
    case Found(_, _) => k
    case Seeking(scan, open, at) =>
      var open' := if AtTop(scan) && c == '{' then Some(at) else open;
      var scan' := Observed(scan, c);
      if c == '}' && AtTop(scan') && open'.Some? then Found(open'.value, at) else Seeking(scan', open', at + 1)
  }

  function LookAll(k: Seek, text: string): Seek
    decreases text
  { if text == [] then k else LookAll(Look(k, text[0]), text[1..]) }

  function BraceSpan(text: string): Option<(nat, nat)> {
    match LookAll(OUTSET, text) case Found(o, c) => Some((o, c)) case Seeking(_, _, _) => None
  }

  lemma {:induction false} FoundStays(o: nat, c: nat, text: string)
    ensures LookAll(Found(o, c), text) == Found(o, c)
  {
    if text != [] { FoundStays(o, c, text[1..]); }
  }

  lemma {:induction false} LookConcat(k: Seek, a: string, b: string)
    ensures LookAll(k, a + b) == LookAll(LookAll(k, a), b)
    decreases a
  {
    if a == [] {
      assert a + b == b;
    } else {
      assert (a + b)[1..] == a[1..] + b;
      LookConcat(Look(k, a[0]), a[1..], b);
    }
  }

  lemma LookOne(k: Seek, c: char)
    ensures LookAll(k, [c]) == Look(k, c)
  {
    assert [c][1..] == [];
  }

  method FindTopLevelBraceSpan(input: string) returns (r: Option<(nat, nat)>)
    ensures r == BraceSpan(input)
  {
    var state := new ScanState();
    var openIndex: Option<nat> := None;
    for index := 0 to |input|
      invariant fresh(state)
      invariant LookAll(OUTSET, input) == LookAll(Seeking(state.Value(), openIndex, index), input[index..])
    {
      var ch := input[index];
      assert input[index..][1..] == input[index + 1..];
      var top := state.IsTopLevel();
      if ch == '{' && top { openIndex := Some(index); }
      state.Observe(ch);
      top := state.IsTopLevel();
      if ch == '}' && top && openIndex.Some? {
        FoundStays(openIndex.value, index, input[index + 1..]);
        return Some((openIndex.value, index));
      }
    }
    return None;
  }

  // ----- between the braces -----

  /** Just after a brace opened at top level. */
  const INSIDE := START.(brace := 1)

  /** Read from `s`, no brace opens at top level and none closes to it. */
  predicate Quiet(s: Scan, text: string)
    decreases text
  {
    text == [] ||
    var s' := Observed(s, text[0]);
    !(AtTop(s) && text[0] == '{') && !(text[0] == '}' && AtTop(s')) && Quiet(s', text[1..])
  }

  lemma {:induction false} QuietConcat(s: Scan, a: string, b: string)
    ensures Quiet(s, a + b) <==> Quiet(s, a) && Quiet(After(s, a), b)
    decreases a
  {
    if a == [] {
      assert a + b == b;
    } else {
      assert (a + b)[1..] == a[1..] + b && (a + b)[0] == a[0];
      QuietConcat(Observed(s, a[0]), a[1..], b);
    }
  }

  lemma {:induction false} QuietLook(s: Scan, o: nat, n: nat, text: string)
    requires Quiet(s, text)
    ensures LookAll(Seeking(s, Some(o), n), text) == Seeking(After(s, text), Some(o), n + |text|)
    decreases text
  {
    if text != [] { QuietLook(Observed(s, text[0]), o, n + 1, text[1..]); }
  }

  ghost predicate Closes(s: Scan, inner: string) { Quiet(s, inner) && AtTop(Observed(After(s, inner), '}')) }

  /** What a search that ends has seen: if its brace was open already, quiet text up to the
      closing one. */
  lemma {:induction false} FoundOpen(k: Seek, text: string)
    requires k.Seeking? && k.last.Some? && k.last.value < k.at
    requires LookAll(k, text).Found? && LookAll(k, text).open == k.last.value
    ensures var c := LookAll(k, text).close;
      k.at <= c < k.at + |text| && text[c - k.at] == '}' && Closes(k.scan, text[..c - k.at])
    decreases text
  {
    var k', c := Look(k, text[0]), LookAll(k, text).close;
    if k'.Found? {
      FoundStays(k'.open, k'.close, text[1..]);
    } else {
      OpensLater(k', text[1..]);
      FoundOpen(k', text[1..]);
      var n := c - k.at;
      assert text[1..][n - 1] == text[n] && text[..n][1..] == text[1..][..n - 1];
    }
  }

  /** A search ends with the brace it had open or with one opened later. */
  lemma {:induction false} OpensLater(k: Seek, text: string)
    requires k.Seeking? && LookAll(k, text).Found?
    ensures k.at <= LookAll(k, text).close
    ensures LookAll(k, text).open >= k.at || k.last == Some(LookAll(k, text).open)
    decreases text
  {
    var k' := Look(k, text[0]);
    if k'.Found? {
      FoundStays(k'.open, k'.close, text[1..]);
    } else {
      OpensLater(k', text[1..]);
    }
  }

  /** The search stands at `o` at top level when it comes to the brace there, and closes at `c`. */
  ghost predicate Lands(k: Seek, text: string, o: nat, c: nat) {
    && o < c < |text| && text[o] == '{' && text[c] == '}' && Closes(INSIDE, text[o + 1..c])
    && var before := LookAll(k, text[..o]);
       before.Seeking? && before.scan == START && k.Seeking? && before.at == k.at + o
  }

  lemma Shifted(k: Seek, text: string, o: nat, c: nat)
    requires text != [] && k.Seeking? && Look(k, text[0]).Seeking? && Lands(Look(k, text[0]), text[1..], o, c)
    ensures Lands(k, text, o + 1, c + 1)
  {
    assert text[..o + 1][1..] == text[1..][..o] && text[..o + 1][0] == text[0];
    assert text[1..][o + 1..c] == text[o + 2..c + 1];
  }

  lemma {:induction false} FoundHere(k: Seek, text: string)
    requires text != [] && k.Seeking? && Sane(k.scan) && (k.last.Some? ==> k.last.value < k.at)
    requires Look(k, text[0]).Seeking? && LookAll(k, text).Found? && LookAll(k, text).open == k.at
    ensures LookAll(k, text).close > k.at && Lands(k, text, 0, LookAll(k, text).close - k.at)
  {
    var k' := Look(k, text[0]);
    OpensLater(k', text[1..]);
    FoundOpen(k', text[1..]);
    var c := LookAll(k, text).close - k.at;
    assert text[..0] == [] && text[1..][c - 1] == text[c] && text[1..][..c - 1] == text[1..c];
  }

  /** ... and otherwise it came to its brace at top level. */
  lemma {:induction false} FoundLater(k: Seek, text: string)
    requires k.Seeking? && Sane(k.scan) && (k.last.Some? ==> k.last.value < k.at)
    requires LookAll(k, text).Found? && LookAll(k, text).open >= k.at
    ensures LookAll(k, text).close > k.at
    ensures Lands(k, text, LookAll(k, text).open - k.at, LookAll(k, text).close - k.at)
    decreases text
  {
    var k' := Look(k, text[0]);
    if k'.Found? {
      FoundStays(k'.open, k'.close, text[1..]);
    } else if LookAll(k, text).open == k.at {
      FoundHere(k, text);
    } else {
      AfterSane(k.scan, [text[0]]);
      AfterOne(k.scan, text[0]);
      FoundLater(k', text[1..]);
      Shifted(k, text, LookAll(k, text).open - k'.at, LookAll(k, text).close - k'.at);
    }
  }

  /** A search over the text ends at top level without having found braces. */
  predicate Reaches(pre: string) {
    var k := LookAll(OUTSET, pre);
    k.Seeking? && k.scan == START && k.at == |pre|
  }

  lemma SpanIs(text: string)
    requires BraceSpan(text).Some?
    ensures var (o, c) := BraceSpan(text).value;
      && o < c < |text| && text[o] == '{' && text[c] == '}'
      && Reaches(text[..o]) && Closes(INSIDE, text[o + 1..c])
  {
    FoundLater(OUTSET, text);
  }

  lemma {:induction false} SeeksInside(pre: string, inner: string)
    requires Reaches(pre) && Quiet(INSIDE, inner)
    ensures LookAll(OUTSET, pre + ['{'] + inner)
      == Seeking(After(INSIDE, inner), Some(|pre|), |pre| + 1 + |inner|)
  {
    var k := LookAll(OUTSET, pre);
    LookConcat(OUTSET, pre + ['{'], inner);
    LookConcat(OUTSET, pre, ['{']);
    LookOne(k, '{');
    assert Look(k, '{') == Seeking(INSIDE, Some(|pre|), |pre| + 1);
    QuietLook(INSIDE, |pre|, |pre| + 1, inner);
  }

  /** From there the next brace ends the search exactly when it closes to top level. */
  lemma {:induction false} EndsHere(s: Scan, o: nat, at: nat, post: string)
    ensures LookAll(Seeking(s, Some(o), at), ['}'] + post) == Found(o, at) <==> AtTop(Observed(s, '}'))
  {
    var k := Look(Seeking(s, Some(o), at), '}');
    assert (['}'] + post)[1..] == post;
    if k.Found? {
      FoundStays(o, at, post);
    } else if LookAll(k, post).Found? {
      OpensLater(k, post);
    }
  }

  /** Other quiet text between the same braces: they are found again exactly when the
      closing one is at top level after it. */
  lemma {:induction false} SpanAgain(pre: string, inner: string, post: string)
    requires Reaches(pre) && Quiet(INSIDE, inner)
    ensures BraceSpan(pre + ['{'] + inner + (['}'] + post)) == Some((|pre|, |pre| + 1 + |inner|))
      <==> AtTop(Observed(After(INSIDE, inner), '}'))
  {
    LookConcat(OUTSET, pre + ['{'] + inner, ['}'] + post);
    SeeksInside(pre, inner);
    EndsHere(After(INSIDE, inner), |pre|, |pre| + 1 + |inner|, post);
  }

  // ----- one brace more -----

  function Lift(s: Scan): Scan { s.(brace := s.brace + 1) }

  /** Read with one more brace open, a text leaves one more open, or the same if it closes
      one too many. */
  lemma {:induction false} Lifted(s: Scan, text: string)
    ensures After(Lift(s), text) == After(s, text) || After(Lift(s), text) == Lift(After(s, text))
    decreases text
  {
    if text != [] && Observed(Lift(s), text[0]) != Observed(s, text[0]) {
      assert Observed(Lift(s), text[0]) == Lift(Observed(s, text[0]));
      Lifted(Observed(s, text[0]), text[1..]);
    }
  }

  lemma {:induction false} QuietLifted(s: Scan, text: string)
    requires Quiet(s, text)
    ensures Quiet(Lift(s), text)
    decreases text
  {
    if text != [] {
      if Observed(Lift(s), text[0]) != Observed(s, text[0]) {
        assert Observed(Lift(s), text[0]) == Lift(Observed(s, text[0]));
        QuietLifted(Observed(s, text[0]), text[1..]);
      }
    }
  }

  /** The two states between fields: outside the brace and inside. */
  predicate Between(s: Scan) { s == START || s == INSIDE }

  /** Nothing but braces is open. */
  predicate Level(s: Scan) { s == START.(brace := s.brace) }

  lemma ClosedBetween(y: Scan, p: string)
    requires Between(y) && After(START, p) == START
    ensures Between(After(y, p))
  {
    Lifted(START, p);
  }

  lemma LevelBetween(y: Scan, p: string)
    requires Between(y)
    ensures Level(After(y, p)) <==> Level(After(START, p))
  {
    Lifted(START, p);
  }

  // ----- from the text to its fields -----

  lemma {:induction false} TrimStartSame(y: Scan, p: string)
    requires Between(y) && Quiet(y, p)
    ensures Quiet(y, TrimStart(p)) && After(y, TrimStart(p)) == After(y, p)
    decreases p
  {
    if p != [] && Blank(p[0]) {
      assert Observed(y, p[0]) == y;
      TrimStartSame(y, p[1..]);
    }
  }

  lemma {:induction false} TrimEndSame(y: Scan, p: string)
    requires Sane(y) && Quiet(y, p) && After(y, p).quote == None
    ensures Quiet(y, TrimEnd(p)) && After(y, TrimEnd(p)) == After(y, p)
    decreases |p|
  {
    if p != [] && Blank(p[|p| - 1]) {
      var q, c := p[..|p| - 1], p[|p| - 1];
      assert p == q + [c];
      AfterConcat(y, q, [c]);
      AfterOne(After(y, q), c);
      AfterSane(y, q);
      QuietConcat(y, q, [c]);
      assert Observed(After(y, q), c) == After(y, q);
      TrimEndSame(y, q);
    }
  }

  lemma TrimSame(y: Scan, p: string)
    requires Between(y) && Quiet(y, p) && After(y, p).quote == None
    ensures Quiet(y, Trim(p)) && After(y, Trim(p)) == After(y, p)
  {
    TrimStartSame(y, p);
    TrimEndSame(y, TrimStart(p));
  }

  /** Read one after the other from `y`, the parts are quiet. */
  predicate QuietParts(y: Scan, parts: seq<string>)
    decreases parts
  { parts == [] || (Quiet(y, parts[0]) && QuietParts(After(y, parts[0]), parts[1..])) }

  /** Read from the start each leaves only braces open, and all but the last none. */
  ghost predicate Fields(parts: seq<string>) {
    && AllLevel(parts)
    && (forall i | 0 <= i < |parts| - 1 :: After(START, parts[i]) == START)
  }

  /** Reading on past a closed piece and the delimiter after it. */
  lemma CutPasses(y: Scan, p: string, c: char, w: string)
    requires Between(y) && After(START, p) == START && Plain(c) && Quiet(y, p + [c] + w)
    ensures Quiet(y, p) && Between(After(y, p)) && Quiet(After(y, p), w)
    ensures After(y, p + [c] + w) == After(After(y, p), w)
  {
    ClosedBetween(y, p);
    QuietConcat(y, p + [c], w);
    QuietConcat(y, p, [c]);
    AfterConcat(y, p + [c], w);
    AfterConcat(y, p, [c]);
    AfterOne(After(y, p), c);
  }

  predicate AllLevel(parts: seq<string>) { forall i | 0 <= i < |parts| :: Level(After(START, parts[i])) }

  lemma PartsFirst(y: Scan, pieces: seq<string>)
    requires pieces != [] && Between(y) && Quiet(y, pieces[0]) && Level(After(y, pieces[0]))
    requires QuietParts(After(y, pieces[0]), Parts(pieces[1..])) && AllLevel(Parts(pieces[1..]))
    ensures QuietParts(y, Parts(pieces)) && AllLevel(Parts(pieces))
  {
    var p, rest := pieces[0], Parts(pieces[1..]);
    TrimSame(y, p);
    LevelBetween(y, Trim(p));
    if Trim(p) == [] {
      assert Parts(pieces) == rest;
    } else {
      assert Parts(pieces) == [Trim(p)] + rest && ([Trim(p)] + rest)[1..] == rest;
    }
  }

  lemma {:induction false} PiecesQuiet(y: Scan, pieces: seq<string>, cuts: string)
    requires Between(y) && |pieces| == |cuts| + 1 && (forall c | c in cuts :: Plain(c))
    requires forall i | 0 <= i < |pieces| - 1 :: After(START, pieces[i]) == START
    requires Quiet(y, Weave(pieces, cuts)) && Level(After(y, Weave(pieces, cuts)))
    ensures QuietParts(y, Parts(pieces)) && AllLevel(Parts(pieces))
    decreases |pieces|
  {
    if cuts != [] {
      assert cuts[0] in cuts && forall d | d in cuts[1..] :: d in cuts;
      CutPasses(y, pieces[0], cuts[0], Weave(pieces[1..], cuts[1..]));
      PiecesQuiet(After(y, pieces[0]), pieces[1..], cuts[1..]);
    }
    PartsFirst(y, pieces);
  }

  lemma {:induction false} CutsPlain(s: Scan, text: string, ds: set<char>)
    ensures forall c | c in Cuts(s, text, ds) :: c in ds
    decreases text
  {
    if text != [] { CutsPlain(Observed(s, text[0]), text[1..], ds); }
  }

  lemma BodyFields(inner: string)
    requires Closes(INSIDE, inner)
    ensures var fields := SplitTopLevel(inner, DELIMITERS);
      QuietParts(INSIDE, fields) && Fields(fields)
  {
    var pieces, cuts := Pieces(START, inner, DELIMITERS), Cuts(START, inner, DELIMITERS);
    PiecesProper(START, inner, DELIMITERS);
    PiecesCover(START, inner, DELIMITERS);
    CutsPlain(START, inner, DELIMITERS);
    SplitSeparable(inner, DELIMITERS);
    AfterSane(INSIDE, inner);
    assert Level(After(INSIDE, inner));
    assert forall i | 0 <= i < |pieces| - 1 :: After(START, pieces[i]) == START by {
      forall i | 0 <= i < |pieces| - 1 ensures After(START, pieces[i]) == START {
        if i > 0 { assert Closed(pieces[i], DELIMITERS); }
      }
    }
    PiecesQuiet(INSIDE, pieces, cuts);
    var fields := SplitTopLevel(inner, DELIMITERS);
    forall i | 0 <= i < |fields| - 1 ensures After(START, fields[i]) == START {
      assert Closed(fields[i], DELIMITERS);
    }
  }

  // ----- from fields to the text again -----

  lemma {:induction false} SelectFields(parts: seq<string>, keep: seq<bool>)
    requires |parts| == |keep| && Fields(parts)
    ensures Fields(Select(parts, keep))
    ensures forall p | p in Select(parts, keep) :: p in parts
    decreases parts
  {
    if parts != [] {
      SelectFields(parts[1..], keep[1..]);
      var rest := Select(parts[1..], keep[1..]);
      if keep[0] && rest != [] { assert parts[1..] != []; }
      assert forall p | p in parts[1..] :: p in parts;
    }
  }

  /** Dropping fields leaves the others quiet, although a dropped one may have closed the
      brace that they are then read inside of. */
  lemma {:induction false} SelectQuiet(y: Scan, x: Scan, parts: seq<string>, keep: seq<bool>)
    requires |parts| == |keep| && Fields(parts) && QuietParts(y, parts)
    requires Between(y) && Between(x) && (x == START ==> y == START)
    ensures QuietParts(x, Select(parts, keep))
    decreases parts
  {
    if parts != [] {
      var p := parts[0];
      if x != y { QuietLifted(START, p); }
      if |parts| > 1 {
        ClosedBetween(y, p);
        ClosedBetween(x, p);
        assert Fields(parts[1..]);
        if keep[0] {
          SelectQuiet(After(y, p), After(x, p), parts[1..], keep[1..]);
          var rest := Select(parts[1..], keep[1..]);
          assert ([p] + rest)[1..] == rest;
        } else {
          SelectQuiet(After(y, p), x, parts[1..], keep[1..]);
          assert [] + Select(parts[1..], keep[1..]) == Select(parts[1..], keep[1..]);
        }
      } else {
        assert Select(parts[1..], keep[1..]) == [];
      }
    }
  }

  lemma {:induction false} JoinQuiet(x: Scan, parts: seq<string>)
    requires Between(x) && Fields(parts) && QuietParts(x, parts)
    ensures Quiet(x, Join(parts, ", ")) && Level(After(x, Join(parts, ", ")))
    decreases parts
  {
    if |parts| == 1 {
      LevelBetween(x, parts[0]);
    } else if |parts| > 1 {
      var p, rest := parts[0], Join(parts[1..], ", ");
      ClosedBetween(x, p);
      var x' := After(x, p);
      assert Fields(parts[1..]);
      JoinQuiet(x', parts[1..]);
      SeparatorPasses(x');
      QuietConcat(x, p + ", ", rest);
      QuietConcat(x, p, ", ");
      AfterConcat(x, p + ", ", rest);
      AfterConcat(x, p, ", ");
    }
  }

  /** Some field before the last closes the brace that the fields stand in. */
  ghost predicate ShutEarly(fields: seq<string>) { exists i | 0 <= i < |fields| - 1 :: After(INSIDE, fields[i]) == START }

  /** Where the last field is read from. */
  ghost function Before(fields: seq<string>): Scan { if ShutEarly(fields) then START else INSIDE }

  /** The last field leaves open no brace but the one the fields stand in. */
  ghost predicate LeavesClosed(fields: seq<string>) {
    fields == [] || After(Before(fields), fields[|fields| - 1]).brace <= 1
  }

  lemma ShutFirst(fields: seq<string>)
    requires |fields| > 1
    ensures ShutEarly(fields) <==> After(INSIDE, fields[0]) == START || ShutEarly(fields[1..])
  {
    var rest := fields[1..];
    assert forall i | 0 <= i < |rest| :: rest[i] == fields[i + 1];
    if ShutEarly(fields) && After(INSIDE, fields[0]) != START {
      var i :| 0 <= i < |fields| - 1 && After(INSIDE, fields[i]) == START;
      assert After(INSIDE, rest[i - 1]) == START;
    }
    if ShutEarly(rest) {
      var i :| 0 <= i < |rest| - 1 && After(INSIDE, rest[i]) == START;
      assert After(INSIDE, fields[i + 1]) == START;
    }
  }

  /** Joined fields are read as the last of them is. */
  lemma {:induction false} JoinReads(x: Scan, parts: seq<string>)
    requires Between(x) && Fields(parts) && parts != []
    ensures After(x, Join(parts, ", ")) == After(if x == START then START else Before(parts), parts[|parts| - 1])
    decreases parts
  {
    if |parts| > 1 {
      var p, rest := parts[0], parts[1..];
      ClosedBetween(x, p);
      assert Fields(rest);
      JoinReads(After(x, p), rest);
      SeparatorPasses(After(x, p));
      AfterConcat(x, p + ", ", Join(rest, ", "));
      AfterConcat(x, p, ", ");
      ShutFirst(parts);
    }
  }

  lemma SeparatorPasses(x: Scan)
    requires Between(x)
    ensures Quiet(x, ", ") && After(x, ", ") == x
  {
    assert ", "[1..] == " " && " "[1..] == [];
    assert Observed(x, ',') == x && Observed(x, ' ') == x;
    assert Quiet(x, " ") && After(x, " ") == x;
  }

  // ----- characters of the text -----

  lemma {:induction false} PieceChars(s: Scan, text: string, ds: set<char>)
    ensures forall p, c | p in Pieces(s, text, ds) && c in p :: c in text
    decreases text
  {
    if text != [] {
      var rest := Pieces(Observed(s, text[0]), text[1..], ds);
      PieceChars(Observed(s, text[0]), text[1..], ds);
      forall p, c | p in Pieces(s, text, ds) && c in p ensures c in text {
        if p !in rest {
          assert p == [] || p == [text[0]] + rest[0];
          assert rest[0] in rest;
        }
      }
    }
  }

  lemma {:induction false} TrimStartChars(p: string)
    ensures forall c | c in TrimStart(p) :: c in p
  {
    if p != [] && Blank(p[0]) { TrimStartChars(p[1..]); }
  }

  lemma {:induction false} TrimEndChars(p: string)
    ensures forall c | c in TrimEnd(p) :: c in p
    decreases |p|
  {
    if p != [] && Blank(p[|p| - 1]) { TrimEndChars(p[..|p| - 1]); }
  }

  lemma {:induction false} PartChars(ps: seq<string>, text: string)
    requires forall p, c | p in ps && c in p :: c in text
    ensures forall p, c | p in Parts(ps) && c in p :: c in text
    decreases ps
  {
    if ps != [] {
      TrimStartChars(ps[0]);
      TrimEndChars(TrimStart(ps[0]));
      assert ps[0] in ps && forall p | p in ps[1..] :: p in ps;
      PartChars(ps[1..], text);
    }
  }

  lemma {:induction false} JoinChars(parts: seq<string>, text: string)
    requires forall p, c | p in parts && c in p :: c in text
    ensures forall c | c in Join(parts, ", ") :: c in text || c == ',' || c == ' '
    decreases parts
  {
    if |parts| == 1 {
      assert parts[0] in parts;
    } else if |parts| > 1 {
      assert parts[0] in parts && forall p | p in parts[1..] :: p in parts;
      JoinChars(parts[1..], text);
    }
  }

  // ----- the file -----

  const INTERFACE_MARKER := "export interface"

  function FindText(s: string, marker: string): Option<nat> {
    if marker <= s then Some(0)
    else if s == [] then None
    else match FindText(s[1..], marker) case Some(i) => Some(i + 1) case None => None
  }

  lemma {:induction false} FindTextIs(s: string, marker: string)
    ensures FindText(s, marker).Some? ==> FindText(s, marker).value + |marker| <= |s|
  {
    if !(marker <= s) && s != [] { FindTextIs(s[1..], marker); }
  }

  /** The first occurrence is found. */
  lemma {:induction false} FindsFirst(s: string, marker: string, at: nat)
    requires at <= |s| && marker <= s[at..] && forall i | 0 <= i < at :: !(marker <= s[i..])
    ensures FindText(s, marker) == Some(at)
  {
    assert s[0..] == s;
    if at > 0 {
      assert s[1..][at - 1..] == s[at..];
      forall i | 0 <= i < at - 1 ensures !(marker <= s[1..][i..]) { assert s[1..][i..] == s[i + 1..]; }
      FindsFirst(s[1..], marker, at - 1);
    }
  }

  lemma {:induction false} FindTextMeans(s: string, marker: string)
    ensures match FindText(s, marker)
      case Some(at) => at <= |s| && marker <= s[at..] && forall i | 0 <= i < at :: !(marker <= s[i..])
      case None => forall i | 0 <= i <= |s| :: !(marker <= s[i..])
  {
    assert s[0..] == s;
    if !(marker <= s) && s != [] {
      FindTextMeans(s[1..], marker);
      forall i | 1 <= i <= |s| ensures s[i..] == s[1..][i - 1..] {}
    }
  }

  /** Where the text starts in which the braces are looked for. */
  function Anchor(content: string): Option<nat> {
    match Find(content, '=')
    case Some(e) => Some(e + 1)
    case None => match FindText(content, INTERFACE_MARKER) case Some(i) => Some(i + |INTERFACE_MARKER|) case None => None
  }

  lemma AnchorInside(content: string)
    ensures Anchor(content).Some? ==> Anchor(content).value <= |content|
  {
    FindIs(content, '=');
    FindTextIs(content, INTERFACE_MARKER);
  }

  /** The braces of the text from `a` on, counted from the start of the file. */
  function SpanFrom(content: string, a: nat): Option<(nat, nat)> {
    if |content| < a then None
    else match BraceSpan(content[a..]) case Some((o, c)) => Some((a + o, a + c)) case None => None
  }

  function TypeBodySpan(content: string): Option<(nat, nat)> {
    match Anchor(content) case None => None case Some(a) => SpanFrom(content, a)
  }

  lemma {:induction false} FindTextAgain(head: string, tail: string, other: string, marker: string)
    requires FindText(head + tail, marker).Some? && FindText(head + tail, marker).value + |marker| == |head|
    ensures FindText(head + other, marker) == FindText(head + tail, marker)
    decreases head
  {
    var s, t := head + tail, head + other;
    assert |marker| <= |head|;
    assert marker <= s <==> marker <= head;
    assert marker <= t <==> marker <= head;
    if !(marker <= s) {
      assert head != [];
      assert s[1..] == head[1..] + tail && t[1..] == head[1..] + other;
      FindTextAgain(head[1..], tail, other, marker);
    }
  }

  /** A change after the anchor that brings in no `=` leaves the anchor where it is. */
  lemma AnchorStays(head: string, tail: string, other: string)
    requires Anchor(head + tail) == Some(|head|)
    requires '=' !in tail ==> '=' !in other
    ensures Anchor(head + other) == Some(|head|)
  {
    var s := head + tail;
    FindIs(s, '=');
    match Find(s, '=')
    case Some(e) =>
      assert head == s[..e] + ['='];
      FindAt(s[..e], '=', other);
    case None =>
      FindIs(head + other, '=');
      assert forall c | c in head || c in tail :: c in s;
      assert '=' !in head + other;
      FindTextIs(s, INTERFACE_MARKER);
      FindTextAgain(head, tail, other, INTERFACE_MARKER);
  }

  function FieldsOf(content: string): seq<string> {
    match TypeBodySpan(content)
    case Some((o, c)) => if o < c <= |content| then SplitTopLevel(content[o + 1..c], DELIMITERS) else []
    case None => []
  }

  function KeptFields(content: string, keep: string -> bool): seq<string> {
    Select(FieldsOf(content), Flags(FieldsOf(content), keep))
  }

  function KeptInner(content: string, keep: string -> bool): string { Join(KeptFields(content, keep), ", ") }

  /** Drop the fields that `keep` refuses. */
  function FilterFields(content: string, keep: string -> bool): string {
    match TypeBodySpan(content)
    case None => content
    case Some((o, c)) =>
      if o < c <= |content| then content[..o + 1] + KeptInner(content, keep) + content[c..] else content
  }

  /** A file by its parts: what comes before the anchor, before the braces, between them and
      after them. */
  function Whole(head: string, pre: string, inner: string, post: string): string {
    head + (pre + ['{'] + inner + (['}'] + post))
  }

  lemma TextSplits(text: string, o: nat, c: nat)
    requires o < c < |text| && text[o] == '{' && text[c] == '}'
    ensures text == text[..o] + ['{'] + text[o + 1..c] + (['}'] + text[c + 1..])
  {
  }

  lemma ContentSplits(content: string, a: nat, o: nat, c: nat)
    requires a <= |content| && o < c < |content[a..]| && content[a..][o] == '{' && content[a..][c] == '}'
    ensures var text := content[a..];
      && content == Whole(content[..a], text[..o], text[o + 1..c], text[c + 1..])
      && content[a + o + 1..a + c] == text[o + 1..c]
  {
    TextSplits(content[a..], o, c);
    assert content == content[..a] + content[a..];
  }

  lemma FieldsAt(content: string, o: nat, c: nat, inner: string)
    requires TypeBodySpan(content) == Some((o, c)) && o < c <= |content| && content[o + 1..c] == inner
    ensures FieldsOf(content) == SplitTopLevel(inner, DELIMITERS)
  {
  }

  lemma SpanParts(content: string) returns (a: nat, o: nat, c: nat)
    requires TypeBodySpan(content).Some?
    ensures a <= |content| && Anchor(content) == Some(a) && TypeBodySpan(content) == Some((a + o, a + c))
    ensures var text := content[a..];
      && o < c < |text| && text[o] == '{' && text[c] == '}' && Reaches(text[..o]) && Closes(INSIDE, text[o + 1..c])
  {
    a := Anchor(content).value;
    AnchorInside(content);
    SpanIs(content[a..]);
    o, c := BraceSpan(content[a..]).value.0, BraceSpan(content[a..]).value.1;
  }

  /** What surrounds the braces and what is between them. */
  lemma {:induction false} SpanSplits(content: string) returns (head: string, pre: string, inner: string, post: string)
    requires TypeBodySpan(content).Some?
    ensures content == Whole(head, pre, inner, post) && Anchor(content) == Some(|head|)
    ensures TypeBodySpan(content) == Some((|head| + |pre|, |head| + |pre| + 1 + |inner|))
    ensures Reaches(pre)
  {
    var a, o, c := SpanParts(content);
    var text := content[a..];
    head, pre, inner, post := content[..a], text[..o], text[o + 1..c], text[c + 1..];
    ContentSplits(content, a, o, c);
  }

  lemma Spliced(content: string, head: string, pre: string, inner: string, post: string, kept: string)
    requires content == Whole(head, pre, inner, post)
    ensures var o := |head| + |pre|;
      o + 1 + |inner| <= |content| && content[..o + 1] + kept + content[o + 1 + |inner|..] == Whole(head, pre, kept, post)
  {
    var front, back := head + (pre + ['{']), ['}'] + post;
    assert content == front + inner + back;
    assert content[..|front|] == front && content[|front| + |inner|..] == back;
    assert front + kept + back == head + (pre + ['{'] + kept + back);
  }

  lemma WholeInner(head: string, pre: string, inner: string, post: string)
    ensures var w := Whole(head, pre, inner, post);
      var o := |head| + |pre|;
      |w| == o + |inner| + |post| + 2 && w[o + 1..o + 1 + |inner|] == inner
  {
    assert Whole(head, pre, inner, post) == (head + (pre + ['{'])) + inner + (['}'] + post);
  }

  /** Replacing the text between the braces by quiet text. */
  lemma {:induction false} SpanInWhole(head: string, pre: string, inner: string, post: string, kept: string)
    requires Anchor(Whole(head, pre, inner, post)) == Some(|head|) && ('=' !in inner ==> '=' !in kept)
    requires Reaches(pre) && Quiet(INSIDE, kept) && Level(After(INSIDE, kept))
    ensures var o := |head| + |pre|;
      TypeBodySpan(Whole(head, pre, kept, post)) == Some((o, o + 1 + |kept|)) <==> After(INSIDE, kept).brace <= 1
  {
    var old', new' := pre + ['{'] + inner + (['}'] + post), pre + ['{'] + kept + (['}'] + post);
    assert forall c | c in pre || c in inner || c in post :: c in old';
    assert '=' !in old' ==> '=' !in new';
    AnchorStays(head, old', new');
    assert (head + new')[|head|..] == new';
    SpanAgain(pre, kept, post);
    assert AtTop(Observed(After(INSIDE, kept), '}')) <==> After(INSIDE, kept).brace <= 1;
  }

  /** The file with `kept` between the braces at `o` and `c`. */
  function Rebuilt(content: string, o: nat, c: nat, kept: string): string
    requires o < c <= |content|
  { content[..o + 1] + kept + content[c..] }

  lemma RebuiltInner(content: string, o: nat, c: nat, kept: string)
    requires o < c <= |content|
    ensures var r := Rebuilt(content, o, c, kept);
      o + 1 + |kept| <= |r| && r[o + 1..o + 1 + |kept|] == kept
  {
    assert |content[..o + 1]| == o + 1;
  }

  lemma TailSlice(content: string, a: nat, i: nat, j: nat)
    requires a <= |content| && i <= j <= |content[a..]|
    ensures content[a..][i..j] == content[a + i..a + j]
  {
  }

  lemma {:induction false} SpanInner(content: string, o: nat, c: nat)
    requires TypeBodySpan(content) == Some((o, c))
    ensures o < c < |content| && Closes(INSIDE, content[o + 1..c])
    ensures FieldsOf(content) == SplitTopLevel(content[o + 1..c], DELIMITERS)
  {
    var a, o', c' := SpanParts(content);
    assert o == a + o' && c == a + c';
    TailSlice(content, a, o' + 1, c');
    FieldsAt(content, o, c, content[o + 1..c]);
  }

  /** Text that may replace what is between the braces. */
  ghost predicate Fits(inner: string, kept: string) {
    Quiet(INSIDE, kept) && Level(After(INSIDE, kept)) && ('=' !in inner ==> '=' !in kept)
  }

  lemma {:induction false} RebuiltIs(content: string, o: nat, c: nat, kept: string)
    returns (head: string, pre: string, inner: string, post: string)
    requires TypeBodySpan(content) == Some((o, c)) && o < c <= |content|
    ensures Rebuilt(content, o, c, kept) == Whole(head, pre, kept, post) && o == |head| + |pre|
    ensures inner == content[o + 1..c] && Anchor(Whole(head, pre, inner, post)) == Some(|head|) && Reaches(pre)
  {
    head, pre, inner, post := SpanSplits(content);
    WholeInner(head, pre, inner, post);
    Spliced(content, head, pre, inner, post, kept);
  }

  /** For any file, and any quiet text put between the braces of its type that brings in no
      `=`: they are found again, around that text, exactly when it leaves open no more than
      the brace it stands in. */
  lemma {:induction false} Replaced(content: string, o: nat, c: nat, kept: string)
    requires TypeBodySpan(content) == Some((o, c)) && o < c <= |content| && Fits(content[o + 1..c], kept)
    ensures TypeBodySpan(Rebuilt(content, o, c, kept)) == Some((o, o + 1 + |kept|)) <==> After(INSIDE, kept).brace <= 1
  {
    var head, pre, inner, post := RebuiltIs(content, o, c, kept);
    SpanInWhole(head, pre, inner, post, kept);
  }

  lemma {:induction false} SelectedQuiet(inner: string, flags: seq<bool>)
    requires Closes(INSIDE, inner) && |flags| == |SplitTopLevel(inner, DELIMITERS)|
    ensures var fields := SplitTopLevel(inner, DELIMITERS);
      var kept := Select(fields, flags);
      && Fields(kept) && QuietParts(INSIDE, kept) && (forall p | p in kept :: p in fields)
      && Fields(fields)
  {
    var fields := SplitTopLevel(inner, DELIMITERS);
    BodyFields(inner);
    SelectFields(fields, flags);
    SelectQuiet(INSIDE, INSIDE, fields, flags);
  }

  lemma {:induction false} JoinedChars(inner: string, kept: seq<string>)
    requires forall p | p in kept :: p in SplitTopLevel(inner, DELIMITERS)
    ensures '=' !in inner ==> '=' !in Join(kept, ", ")
  {
    PieceChars(START, inner, DELIMITERS);
    PartChars(Pieces(START, inner, DELIMITERS), inner);
    JoinChars(kept, inner);
  }

  lemma {:induction false} JoinedReads(fields: seq<string>, kept: seq<string>)
    requires Fields(fields) && Fields(kept) && forall p | p in kept :: p in fields
    ensures After(INSIDE, Join(kept, ", ")).brace <= 1 <==> LeavesClosed(kept)
    ensures fields != [] && After(START, fields[|fields| - 1]) == START ==> LeavesClosed(kept)
  {
    if kept != [] {
      JoinReads(INSIDE, kept);
      assert kept[|kept| - 1] in fields;
      if After(START, fields[|fields| - 1]) == START { ClosedBetween(Before(kept), kept[|kept| - 1]); }
    }
  }

  lemma {:induction false} KeptIsQuiet(inner: string, keep: string -> bool)
    requires Closes(INSIDE, inner)
    ensures var fields := SplitTopLevel(inner, DELIMITERS);
      var kept := Select(fields, Flags(fields, keep));
      && Quiet(INSIDE, Join(kept, ", ")) && Level(After(INSIDE, Join(kept, ", ")))
      && ('=' !in inner ==> '=' !in Join(kept, ", "))
      && SplitTopLevel(Join(kept, ", "), DELIMITERS) == kept
      && (After(INSIDE, Join(kept, ", ")).brace <= 1 <==> LeavesClosed(kept))
      && (fields != [] && After(START, fields[|fields| - 1]) == START ==> LeavesClosed(kept))
  {
    var fields := SplitTopLevel(inner, DELIMITERS);
    var kept := Select(fields, Flags(fields, keep));
    SelectedQuiet(inner, Flags(fields, keep));
    JoinQuiet(INSIDE, kept);
    JoinedChars(inner, kept);
    FieldsKeptExactly(inner, keep);
    JoinedReads(fields, kept);
  }

  lemma {:induction false} KeptFits(content: string, o: nat, c: nat, keep: string -> bool)
    requires TypeBodySpan(content) == Some((o, c))
    ensures o < c < |content| && Fits(content[o + 1..c], KeptInner(content, keep))
    ensures SplitTopLevel(KeptInner(content, keep), DELIMITERS) == KeptFields(content, keep)
    ensures FilterFields(content, keep) == Rebuilt(content, o, c, KeptInner(content, keep))
    ensures After(INSIDE, KeptInner(content, keep)).brace <= 1 <==> LeavesClosed(KeptFields(content, keep))
  {
    SpanInner(content, o, c);
    KeptIsQuiet(content[o + 1..c], keep);
  }

  /** For every file and every choice of fields: after filtering, the braces of the type are
      found where they were, around the kept fields, if and only if the last kept field,
      read inside the type unless an earlier one has closed it, leaves open no brace of its
      own. */
  lemma {:induction false} BodyFoundAgain(content: string, o: nat, c: nat, keep: string -> bool)
    requires TypeBodySpan(content) == Some((o, c))
    ensures TypeBodySpan(FilterFields(content, keep)) == Some((o, o + 1 + |KeptInner(content, keep)|))
      <==> LeavesClosed(KeptFields(content, keep))
  {
    KeptFits(content, o, c, keep);
    Replaced(content, o, c, KeptInner(content, keep));
  }

  lemma {:induction false} Reread(content: string, o: nat, c: nat, kept: string)
    requires TypeBodySpan(content) == Some((o, c)) && o < c <= |content| && Fits(content[o + 1..c], kept)
    requires After(INSIDE, kept).brace <= 1
    ensures FieldsOf(Rebuilt(content, o, c, kept)) == SplitTopLevel(kept, DELIMITERS)
  {
    Replaced(content, o, c, kept);
    RebuiltInner(content, o, c, kept);
    FieldsAt(Rebuilt(content, o, c, kept), o, o + 1 + |kept|, kept);
  }

  /** Then reading the file again finds exactly the kept fields, in order. */
  lemma {:induction false} FileFieldsKeptExactly(content: string, o: nat, c: nat, keep: string -> bool)
    requires TypeBodySpan(content) == Some((o, c)) && LeavesClosed(KeptFields(content, keep))
    ensures FieldsOf(FilterFields(content, keep)) == KeptFields(content, keep)
    ensures forall f :: f in KeptFields(content, keep) <==> f in FieldsOf(content) && keep(f)
  {
    KeptFits(content, o, c, keep);
    Reread(content, o, c, KeptInner(content, keep));
    SelectedPass(FieldsOf(content), keep);
  }

  /** A file whose last field closes every brace it opens, as all do when braces balance,
      meets the condition whatever is kept. */
  lemma {:induction false} BalancedIsSafe(content: string, o: nat, c: nat, keep: string -> bool)
    requires TypeBodySpan(content) == Some((o, c))
    requires FieldsOf(content) != [] ==> After(START, FieldsOf(content)[|FieldsOf(content)| - 1]) == START
    ensures LeavesClosed(KeptFields(content, keep))
  {
    SpanInner(content, o, c);
    KeptIsQuiet(content[o + 1..c], keep);
    if FieldsOf(content) == [] { assert KeptFields(content, keep) == []; }
  }
}
