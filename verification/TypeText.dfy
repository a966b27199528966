/** Cutting generated TypeScript type text at its top-level delimiters, filtering
    the parts and joining them again. */
module TypeText {
  import opened Prelude

  /** What the scanner remembers: open brackets and the string literal it is in. */
  datatype Scan = Scan(brace: nat, bracket: nat, paren: nat, angle: nat, quote: Option<char>, escape: bool)

  const START := Scan(0, 0, 0, 0, None, false)

  function Down(n: nat): nat { if n == 0 then 0 else n - 1 }

  function Observed(s: Scan, c: char): Scan {
    match s.quote
    case Some(q) =>
      if s.escape then s.(escape := false)
      else if c == '\\' then s.(escape := true)
      else if c == q then s.(quote := None)
      else s
    case None =>
      match c
      case '\"' => s.(quote := Some(c))
      case '\'' => s.(quote := Some(c))
      case '{' => s.(brace := s.brace + 1)
      case '}' => s.(brace := Down(s.brace))
      case '[' => s.(bracket := s.bracket + 1)
      case ']' => s.(bracket := Down(s.bracket))
      case '(' => s.(paren := s.paren + 1)
      case ')' => s.(paren := Down(s.paren))
      case '<' => s.(angle := s.angle + 1)
      case '>' => s.(angle := Down(s.angle))
      case _ => s
  }

  predicate AtTop(s: Scan) {
    s.quote == None && s.brace == 0 && s.bracket == 0 && s.paren == 0 && s.angle == 0
  }

  /** Literals are quoted by `"` or `'`, and an escape is pending only inside one;
      every scan keeps this. */
  predicate Sane(s: Scan) {
    (s.escape ==> s.quote.Some?) && (s.quote.Some? ==> s.quote.value in {'\"', '\''})
  }

  function After(s: Scan, text: string): Scan
    decreases text
  {
    if text == [] then s else After(Observed(s, text[0]), text[1..])
  }

  /** The scanner as the source keeps it: a record updated character by character. */
  class ScanState {
    var brace: nat
    var bracket: nat
    var paren: nat
    var angle: nat
    var stringDelim: Option<char>
    var escape: bool

    constructor ()
      ensures Value() == START
    {
      brace, bracket, paren, angle := 0, 0, 0, 0;
      stringDelim, escape := None, false;
    }

    ghost function Value(): Scan
      reads this
    { Scan(brace, bracket, paren, angle, stringDelim, escape) }

    method IsTopLevel() returns (r: bool)
      ensures r <==> AtTop(Value())
    {
      r := stringDelim == None && brace == 0 && bracket == 0 && paren == 0 && angle == 0;
    }

    method Observe(ch: char)
      modifies this
      ensures Value() == Observed(old(Value()), ch)
      ensures old(Sane(Value())) ==> Sane(Value())
    {
      if stringDelim.Some? {
        if escape {
          escape := false;
        } else if ch == '\\' {
          escape := true;
        } else if ch == stringDelim.value {
          stringDelim := None;
        }
        return;
      }
      match ch
      case '\"' => stringDelim := Some(ch);
      case '\'' => stringDelim := Some(ch);
      case '{' => brace := brace + 1;
      case '}' => if brace > 0 { brace := brace - 1; }
      case '[' => bracket := bracket + 1;
      case ']' => if bracket > 0 { bracket := bracket - 1; }
      case '(' => paren := paren + 1;
      case ')' => if paren > 0 { paren := paren - 1; }
      case '<' => angle := angle + 1;
      case '>' => if angle > 0 { angle := angle - 1; }
      case _ =>
    }
  }

  // ----- trimming -----

  function TrimStart(s: string): string {
    if s != [] && Blank(s[0]) then TrimStart(s[1..]) else s
  }

  function TrimEnd(s: string): string {
    if s != [] && Blank(s[|s| - 1]) then TrimEnd(s[..|s| - 1]) else s
  }

  function Trim(s: string): string { TrimEnd(TrimStart(s)) }

  predicate Trimmed(s: string) { s != [] ==> !Blank(s[0]) && !Blank(s[|s| - 1]) }

  lemma {:induction false} TrimStartIs(s: string)
    ensures |TrimStart(s)| <= |s| && s[|s| - |TrimStart(s)|..] == TrimStart(s)
    ensures AllBlank(s[..|s| - |TrimStart(s)|]) && (TrimStart(s) != [] ==> !Blank(TrimStart(s)[0]))
  {
    if s != [] && Blank(s[0]) {
      TrimStartIs(s[1..]);
      var k := |s| - 1 - |TrimStart(s)|;
      assert s[..k + 1] == [s[0]] + s[1..][..k];
    }
  }

  lemma {:induction false} TrimEndIs(s: string)
    ensures TrimEnd(s) <= s && AllBlank(s[|TrimEnd(s)|..])
    ensures TrimEnd(s) != [] ==> !Blank(TrimEnd(s)[|TrimEnd(s)| - 1])
  {
    if s != [] && Blank(s[|s| - 1]) {
      var t := s[..|s| - 1];
      TrimEndIs(t);
      assert s[|TrimEnd(s)|..] == t[|TrimEnd(s)|..] + [s[|s| - 1]];
    }
  }

  /** Trimming takes blanks off both ends, and all of them. */
  lemma TrimIs(s: string) returns (pre: string, post: string)
    ensures s == pre + Trim(s) + post && AllBlank(pre) && AllBlank(post) && Trimmed(Trim(s))
  {
    TrimStartIs(s);
    var m := TrimStart(s);
    TrimEndIs(m);
    pre, post := s[..|s| - |m|], m[|Trim(s)|..];
  }

  // ----- cutting -----

  /** A delimiter the scanner and the trimmer both pass over. */
  predicate Plain(c: char) {
    !Blank(c) && c !in {'\"', '\'', '{', '}', '[', ']', '(', ')', '<', '>'}
  }

  predicate AllPlain(ds: set<char>) { forall c | c in ds :: Plain(c) }

  /** The untrimmed stretches between top-level delimiters, read from scan state `s`. */
  function Pieces(s: Scan, text: string, ds: set<char>): (ps: seq<string>)
    ensures ps != []
    decreases text
  {
    if text == [] then [""]
    else
      var rest := Pieces(Observed(s, text[0]), text[1..], ds);
      if AtTop(s) && text[0] in ds then [""] + rest
      else [[text[0]] + rest[0]] + rest[1..]
  }

  function Parts(ps: seq<string>): seq<string> {
    if ps == [] then []
    else (if Trim(ps[0]) == [] then [] else [Trim(ps[0])]) + Parts(ps[1..])
  }

  function SplitTopLevel(text: string, ds: set<char>): seq<string> { Parts(Pieces(START, text, ds)) }

  function Join(parts: seq<string>, sep: string): string {
    if parts == [] then []
    else if |parts| == 1 then parts[0]
    else parts[0] + sep + Join(parts[1..], sep)
  }

  /** The parts whose flag is set, in order. */
  function Select(parts: seq<string>, keep: seq<bool>): seq<string>
    requires |parts| == |keep|
  {
    if parts == [] then []
    else (if keep[0] then [parts[0]] else []) + Select(parts[1..], keep[1..])
  }

  // ----- what cutting yields -----

  /** Read from the start, `p` has no top-level delimiter. */
  ghost predicate Uncut(p: string, ds: set<char>) { Pieces(START, p, ds) == [p] }

  /** ... and leaves the scanner as it found it. */
  ghost predicate Closed(p: string, ds: set<char>) { Uncut(p, ds) && After(START, p) == START }

  /** What a split yields: proper parts, all but the last closed. */
  ghost predicate Separable(parts: seq<string>, ds: set<char>) {
    forall i | 0 <= i < |parts| ::
      && parts[i] != [] && Trimmed(parts[i]) && Uncut(parts[i], ds)
      && (i < |parts| - 1 ==> Closed(parts[i], ds))
  }

  /** The first piece is read without a cut, later ones from the start state, and
      the scanner is back in the start state at every cut. */
  lemma {:induction false} PiecesProper(s: Scan, text: string, ds: set<char>)
    requires AllPlain(ds) && Sane(s)
    ensures var ps := Pieces(s, text, ds);
      && Pieces(s, ps[0], ds) == [ps[0]]
      && (|ps| > 1 ==> After(s, ps[0]) == START)
      && (forall i | 0 < i < |ps| :: Uncut(ps[i], ds))
      && (forall i | 0 < i < |ps| - 1 :: Closed(ps[i], ds))
    decreases text
  {
    if text != [] {
      var t := Observed(s, text[0]);
      PiecesProper(t, text[1..], ds);
      var ps, rest := Pieces(s, text, ds), Pieces(t, text[1..], ds);
      if AtTop(s) && text[0] in ds {
        assert s == START && t == START;
        assert ps[1] == rest[0];
        assert forall i | 0 < i < |ps| :: ps[i] == rest[i - 1];
      } else {
        assert ps[0][0] == text[0] && ps[0][1..] == rest[0];
        assert forall i | 0 < i < |ps| :: ps[i] == rest[i];
      }
    }
  }

  lemma {:induction false} AfterConcat(s: Scan, a: string, b: string)
    ensures After(s, a + b) == After(After(s, a), b)
    decreases a
  {
    if a == [] {
      assert a + b == b;
    } else {
      assert (a + b)[1..] == a[1..] + b;
      AfterConcat(Observed(s, a[0]), a[1..], b);
    }
  }

  lemma AfterOne(s: Scan, c: char)
    ensures After(s, [c]) == Observed(s, c)
  {
  }

  lemma {:induction false} AfterSane(s: Scan, a: string)
    requires Sane(s)
    ensures Sane(After(s, a))
    decreases a
  {
    if a != [] { AfterSane(Observed(s, a[0]), a[1..]); }
  }

  lemma UncutStep(s: Scan, a: string, ds: set<char>)
    requires a != []
    ensures Pieces(s, a, ds) == [a] <==>
      !(AtTop(s) && a[0] in ds) && Pieces(Observed(s, a[0]), a[1..], ds) == [a[1..]]
  {
    var rest := Pieces(Observed(s, a[0]), a[1..], ds);
    assert a == [a[0]] + a[1..];
    assert ([a[0]] + rest[0])[1..] == rest[0];
    if Pieces(s, a, ds) == [a] {
      assert Pieces(s, a, ds)[0] == a;
      assert |rest| == 1 && rest == [rest[0]];
    }
  }

  /** A beginning of an uncut text is uncut. */
  lemma {:induction false} UncutBeginning(s: Scan, a: string, b: string, ds: set<char>)
    requires Pieces(s, a + b, ds) == [a + b]
    ensures Pieces(s, a, ds) == [a]
    decreases a
  {
    if a != [] {
      assert (a + b)[1..] == a[1..] + b;
      UncutStep(s, a + b, ds);
      UncutBeginning(Observed(s, a[0]), a[1..], b, ds);
      UncutStep(s, a, ds);
    }
  }

  lemma BlankPasses(c: char)
    requires Blank(c)
    ensures Observed(START, c) == START
  {
  }

  lemma BlankBefore(s: Scan, c: char)
    requires Sane(s) && Blank(c)
    ensures Observed(s, c) == START ==> s == START
  {
  }

  lemma {:induction false} TrimStartKeeps(p: string, ds: set<char>)
    requires Uncut(p, ds) && AllPlain(ds)
    ensures Uncut(TrimStart(p), ds)
    ensures After(START, TrimStart(p)) == After(START, p)
    ensures TrimStart(p) != [] ==> !Blank(TrimStart(p)[0])
  {
    if p != [] && Blank(p[0]) {
      UncutStep(START, p, ds);
      BlankPasses(p[0]);
      TrimStartKeeps(p[1..], ds);
    }
  }

  lemma {:induction false} TrimEndKeeps(p: string, ds: set<char>)
    requires Uncut(p, ds)
    ensures Uncut(TrimEnd(p), ds)
    ensures After(START, p) == START ==> After(START, TrimEnd(p)) == START
    ensures TrimEnd(p) != [] ==> TrimEnd(p)[0] == p[0] && !Blank(TrimEnd(p)[|TrimEnd(p)| - 1])
  {
    if p != [] && Blank(p[|p| - 1]) {
      var q := p[..|p| - 1];
      assert p == q + [p[|p| - 1]];
      UncutBeginning(START, q, [p[|p| - 1]], ds);
      AfterConcat(START, q, [p[|p| - 1]]);
      AfterOne(After(START, q), p[|p| - 1]);
      AfterSane(START, q);
      BlankBefore(After(START, q), p[|p| - 1]);
      TrimEndKeeps(q, ds);
    }
  }

  lemma TrimKeeps(p: string, ds: set<char>)
    requires Uncut(p, ds) && AllPlain(ds)
    ensures Uncut(Trim(p), ds) && Trimmed(Trim(p))
    ensures After(START, p) == START ==> Closed(Trim(p), ds)
  {
    TrimStartKeeps(p, ds);
    TrimEndKeeps(TrimStart(p), ds);
  }

  lemma {:induction false} PartsSeparable(ps: seq<string>, ds: set<char>)
    requires AllPlain(ds)
    requires forall i | 0 <= i < |ps| :: Uncut(ps[i], ds)
    requires forall i | 0 <= i < |ps| - 1 :: After(START, ps[i]) == START
    ensures Separable(Parts(ps), ds)
  {
    if ps != [] {
      TrimKeeps(ps[0], ds);
      PartsSeparable(ps[1..], ds);
      var r, rest := Parts(ps), Parts(ps[1..]);
      if Trim(ps[0]) != [] {
        assert forall i | 0 < i < |r| :: r[i] == rest[i - 1];
      } else {
        assert r == rest;
      }
    }
  }

  /** Whatever the text, its parts can be told apart again. */
  lemma SplitSeparable(text: string, ds: set<char>)
    requires AllPlain(ds)
    ensures Separable(SplitTopLevel(text, ds), ds)
  {
    PiecesProper(START, text, ds);
    var ps := Pieces(START, text, ds);
    forall i | 0 <= i < |ps| - 1 ensures After(START, ps[i]) == START {
      assert i > 0 ==> Closed(ps[i], ds);
    }
    PartsSeparable(ps, ds);
  }

  lemma {:induction false} SelectSeparable(parts: seq<string>, keep: seq<bool>, ds: set<char>)
    requires |parts| == |keep| && Separable(parts, ds)
    ensures Separable(Select(parts, keep), ds)
  {
    if parts != [] {
      assert forall i | 0 <= i < |parts| - 1 :: parts[1..][i] == parts[i + 1];
      SelectSeparable(parts[1..], keep[1..], ds);
      var r, rest := Select(parts, keep), Select(parts[1..], keep[1..]);
      if keep[0] {
        assert forall i | 0 < i < |r| :: r[i] == rest[i - 1];
        if |r| > 1 { assert |parts| > 1; }
      } else {
        assert r == rest;
      }
    }
  }

  // ----- and joining them back -----

  /** Reading a closed beginning only lengthens the first piece. */
  lemma {:induction false} PiecesAfterClosed(s: Scan, a: string, b: string, ds: set<char>)
    requires Pieces(s, a, ds) == [a]
    ensures var rest := Pieces(After(s, a), b, ds);
      Pieces(s, a + b, ds) == [a + rest[0]] + rest[1..]
    decreases a
  {
    if a == [] {
      assert a + b == b;
      var rest := Pieces(s, b, ds);
      assert a + rest[0] == rest[0];
      assert rest == [rest[0]] + rest[1..];
    } else {
      var t := Observed(s, a[0]);
      assert (a + b)[1..] == a[1..] + b;
      UncutStep(s, a, ds);
      PiecesAfterClosed(t, a[1..], b, ds);
      var rest := Pieces(After(s, a), b, ds);
      assert [a[0]] + (a[1..] + rest[0]) == a + rest[0];
    }
  }

  lemma {:induction false} BlankClosed(w: string, ds: set<char>)
    requires AllBlank(w) && AllPlain(ds)
    ensures Closed(w, ds)
  {
    if w != [] {
      BlankClosed(w[1..], ds);
      assert w == [w[0]] + w[1..];
    }
  }

  lemma {:induction false} TrimTrimmed(p: string, w: string)
    requires Trimmed(p) && p != [] && AllBlank(w)
    ensures Trim(p + w) == p
  {
    assert TrimStart(p + w) == p + w;
    if w == [] {
      assert p + w == p;
    } else {
      var v := w[..|w| - 1];
      assert (p + w)[..|p + w| - 1] == p + v;
      TrimTrimmed(p, v);
      assert TrimStart(p + v) == p + v;
    }
  }

  lemma {:induction false} TrimLeadingBlanks(w: string, x: string)
    requires AllBlank(w)
    ensures Trim(w + x) == Trim(x)
  {
    if w == [] {
      assert w + x == x;
    } else {
      assert (w + x)[1..] == w[1..] + x;
      TrimLeadingBlanks(w[1..], x);
    }
  }

  /** One closed part, a spaced delimiter, then the rest. */
  lemma SplitOnce(p: string, pre: string, d: char, post: string, rest: string, ds: set<char>)
    requires AllPlain(ds) && d in ds && AllBlank(pre) && AllBlank(post)
    requires p != [] && Trimmed(p) && Closed(p, ds)
    ensures SplitTopLevel(p + (pre + ([d] + (post + rest))), ds) == [p] + SplitTopLevel(rest, ds)
  {
    var tail := [d] + (post + rest);
    var ps := Pieces(START, rest, ds);
    BlankClosed(pre, ds);
    BlankClosed(post, ds);
    PiecesAfterClosed(START, post, rest, ds);
    assert tail[1..] == post + rest;
    assert Pieces(START, tail, ds) == [""] + ([post + ps[0]] + ps[1..]);
    PiecesAfterClosed(START, pre, tail, ds);
    assert Pieces(START, pre + tail, ds) == [pre] + ([post + ps[0]] + ps[1..]) by {
      assert pre + "" == pre;
    }
    PiecesAfterClosed(START, p, pre + tail, ds);
    assert Pieces(START, p + (pre + tail), ds) == [p + pre] + ([post + ps[0]] + ps[1..]);
    TrimTrimmed(p, pre);
    TrimLeadingBlanks(post, ps[0]);
    assert ([post + ps[0]] + ps[1..])[1..] == ps[1..];
    assert Parts([post + ps[0]] + ps[1..]) == Parts(ps);
    assert ([p + pre] + ([post + ps[0]] + ps[1..]))[1..] == [post + ps[0]] + ps[1..];
  }

  lemma {:induction false} SplitJoin(parts: seq<string>, pre: string, d: char, post: string, ds: set<char>)
    requires AllPlain(ds) && d in ds && AllBlank(pre) && AllBlank(post) && Separable(parts, ds)
    ensures SplitTopLevel(Join(parts, pre + [d] + post), ds) == parts
  {
    if parts == [] {
      assert Parts([""]) == [];
    } else if |parts| == 1 {
      TrimTrimmed(parts[0], "");
      assert parts[0] + "" == parts[0];
      assert parts == [parts[0]] && Parts([parts[0]]) == [parts[0]] + Parts([]);
    } else {
      var sep := pre + [d] + post;
      var rest := Join(parts[1..], sep);
      assert forall i | 0 <= i < |parts| - 1 :: parts[1..][i] == parts[i + 1];
      SplitJoin(parts[1..], pre, d, post, ds);
      assert parts[0] + sep + rest == parts[0] + (pre + ([d] + (post + rest)));
      SplitOnce(parts[0], pre, d, post, rest, ds);
      assert parts == [parts[0]] + parts[1..];
    }
  }

  /** Keep any of the parts, join them with a spaced delimiter, and cut again:
      exactly the kept parts come back, in order. */
  lemma SplitJoinRoundTrip(text: string, keep: seq<bool>, pre: string, d: char, post: string, ds: set<char>)
    requires AllPlain(ds) && d in ds && AllBlank(pre) && AllBlank(post)
    requires |keep| == |SplitTopLevel(text, ds)|
    ensures var kept := Select(SplitTopLevel(text, ds), keep);
      SplitTopLevel(Join(kept, pre + [d] + post), ds) == kept
  {
    var parts := SplitTopLevel(text, ds);
    SplitSeparable(text, ds);
    SelectSeparable(parts, keep, ds);
    SplitJoin(Select(parts, keep), pre, d, post, ds);
  }

  /** The delimiters at which the text was cut. */
  function Cuts(s: Scan, text: string, ds: set<char>): string
    decreases text
  {
    if text == [] then []
    else (if AtTop(s) && text[0] in ds then [text[0]] else []) + Cuts(Observed(s, text[0]), text[1..], ds)
  }

  function Weave(pieces: seq<string>, cuts: string): string {
    if pieces == [] then []
    else if cuts == [] then pieces[0]
    else pieces[0] + [cuts[0]] + Weave(pieces[1..], cuts[1..])
  }

  lemma WeaveFirst(c: char, ps: seq<string>, cuts: string)
    requires ps != []
    ensures Weave([[c] + ps[0]] + ps[1..], cuts) == [c] + Weave(ps, cuts)
  {
    assert ([[c] + ps[0]] + ps[1..])[1..] == ps[1..];
    if cuts != [] {
      assert ([c] + ps[0]) + [cuts[0]] + Weave(ps[1..], cuts[1..]) == [c] + (ps[0] + [cuts[0]] + Weave(ps[1..], cuts[1..]));
    }
  }

  /** Cutting loses no text: pieces and delimiters put back in turn give the input. */
  lemma {:induction false} PiecesCover(s: Scan, text: string, ds: set<char>)
    ensures |Pieces(s, text, ds)| == |Cuts(s, text, ds)| + 1
    ensures Weave(Pieces(s, text, ds), Cuts(s, text, ds)) == text
    decreases text
  {
    if text != [] {
      var t := Observed(s, text[0]);
      PiecesCover(t, text[1..], ds);
      var rest, cs := Pieces(t, text[1..], ds), Cuts(t, text[1..], ds);
      assert text == [text[0]] + text[1..];
      if AtTop(s) && text[0] in ds {
        assert ([""] + rest)[1..] == rest && ([text[0]] + cs)[1..] == cs;
      } else {
        assert [] + cs == cs;
        assert ([[text[0]] + rest[0]] + rest[1..])[1..] == rest[1..];
        WeaveFirst(text[0], rest, cs);
      }
    }
  }

  // ----- the splitting loop -----

  lemma PartsConcat(a: seq<string>, b: seq<string>)
    ensures Parts(a + b) == Parts(a) + Parts(b)
  {
    if a == [] {
      assert a + b == b;
    } else {
      assert (a + b)[1..] == a[1..] + b;
      PartsConcat(a[1..], b);
    }
  }

  /** `done` has been cut off, the current piece began at `start`, and the scanner
      stands before `index`. */
  ghost predicate CutSoFar(input: string, done: seq<string>, start: nat, index: nat, s: Scan, ds: set<char>) {
    && start <= index <= |input|
    && var rest := Pieces(s, input[index..], ds);
       Pieces(START, input, ds) == done + ([input[start..index] + rest[0]] + rest[1..])
  }

  lemma CutStarts(input: string, ds: set<char>)
    ensures CutSoFar(input, [], 0, 0, START, ds)
  {
    var all := Pieces(START, input, ds);
    assert input[0..] == input && input[0..0] + all[0] == all[0];
    assert all == [] + ([all[0]] + all[1..]);
  }

  lemma CutHere(input: string, done: seq<string>, start: nat, index: nat, s: Scan, ds: set<char>)
    requires CutSoFar(input, done, start, index, s, ds) && index < |input|
    requires AtTop(s) && input[index] in ds
    ensures CutSoFar(input, done + [input[start..index]], index + 1, index + 1, Observed(s, input[index]), ds)
  {
    var here, rest := Pieces(s, input[index..], ds), Pieces(Observed(s, input[index]), input[index + 1..], ds);
    assert input[index..][1..] == input[index + 1..];
    assert here[0] == "" && here[1..] == rest;
    assert input[start..index] + "" == input[start..index];
    assert input[index + 1..index + 1] + rest[0] == rest[0];
    assert [rest[0]] + rest[1..] == rest;
    assert done + ([input[start..index]] + rest) == (done + [input[start..index]]) + rest;
  }

  lemma NoCutHere(input: string, done: seq<string>, start: nat, index: nat, s: Scan, ds: set<char>)
    requires CutSoFar(input, done, start, index, s, ds) && index < |input|
    requires !(AtTop(s) && input[index] in ds)
    ensures CutSoFar(input, done, start, index + 1, Observed(s, input[index]), ds)
  {
    var here, rest := Pieces(s, input[index..], ds), Pieces(Observed(s, input[index]), input[index + 1..], ds);
    assert input[index..][1..] == input[index + 1..];
    assert here[0] == [input[index]] + rest[0] && here[1..] == rest[1..];
    assert input[start..index] + here[0] == input[start..index + 1] + rest[0];
  }

  lemma PartsPush(ps: seq<string>, p: string)
    ensures Parts(ps + [p]) == Parts(ps) + if Trim(p) == [] then [] else [Trim(p)]
  {
    PartsConcat(ps, [p]);
    assert Parts([p]) == if Trim(p) == [] then [] else [Trim(p)];
  }

  method SplitTopLevelMulti(input: string, delimiters: set<char>) returns (parts: seq<string>)
    ensures parts == SplitTopLevel(input, delimiters)
  {
    var state := new ScanState();
    var start := 0;
    parts := [];
    ghost var done: seq<string> := [];
    CutStarts(input, delimiters);
    for index := 0 to |input|
      invariant 0 <= start <= index
      invariant parts == Parts(done)
      invariant CutSoFar(input, done, start, index, state.Value(), delimiters)
    {
      var ch := input[index];
      var top := state.IsTopLevel();
      if top && ch in delimiters {
        CutHere(input, done, start, index, state.Value(), delimiters);
        PartsPush(done, input[start..index]);
        var part := Trim(input[start..index]);
        if part != [] {
          parts := parts + [part];
        }
        done := done + [input[start..index]];
        start := index + 1;
      } else {
        NoCutHere(input, done, start, index, state.Value(), delimiters);
      }
      state.Observe(ch);
    }
    PartsPush(done, input[start..]);
    assert input[|input|..] == [] && input[start..|input|] + "" == input[start..];
    assert Pieces(START, input, delimiters) == done + [input[start..]];
    var tail := Trim(input[start..]);
    if tail != [] {
      parts := parts + [tail];
    }
  }

  // ----- filtering a type alias -----

  datatype Alias = Alias(prefix: string, body: string, suffix: string)

  function Find(s: string, c: char): Option<nat> {
    if s == [] then None
    else if s[0] == c then Some(0)
    else match Find(s[1..], c) case Some(i) => Some(i + 1) case None => None
  }

  function FindLast(s: string, c: char): Option<nat> {
    if s == [] then None
    else if s[|s| - 1] == c then Some(|s| - 1)
    else FindLast(s[..|s| - 1], c)
  }

  lemma {:induction false} FindIs(s: string, c: char)
    ensures match Find(s, c)
      case Some(i) => i < |s| && s[i] == c && c !in s[..i]
      case None => c !in s
  {
    if s != [] && s[0] != c {
      FindIs(s[1..], c);
      if Find(s[1..], c).Some? {
        var i := Find(s[1..], c).value;
        assert s[..i + 1] == [s[0]] + s[1..][..i];
      } else {
        assert s == [s[0]] + s[1..];
      }
    }
  }

  lemma {:induction false} FindLastIs(s: string, c: char)
    ensures match FindLast(s, c)
      case Some(i) => i < |s| && s[i] == c && c !in s[i + 1..]
      case None => c !in s
  {
    if s != [] && s[|s| - 1] != c {
      var t := s[..|s| - 1];
      FindLastIs(t, c);
      assert s == t + [s[|s| - 1]];
      if FindLast(t, c).Some? {
        var i := FindLast(t, c).value;
        assert s[i + 1..] == t[i + 1..] + [s[|s| - 1]];
      }
    }
  }

  function SplitTypeAlias(content: string): (r: Option<Alias>)
    ensures r.Some? ==> content == r.value.prefix + r.value.body + r.value.suffix
  {
    FindIs(content, '=');
    FindLastIs(content, ';');
    match (Find(content, '='), FindLast(content, ';'))
    case (Some(eq), Some(semi)) =>
      if semi <= eq then None
      else Some(Alias(content[..eq + 1], content[eq + 1..semi], content[semi..]))
    case _ => None
  }

  lemma {:induction false} FindAt(a: string, c: char, b: string)
    requires c !in a
    ensures Find(a + [c] + b, c) == Some(|a|)
  {
    if a != [] {
      assert (a + [c] + b)[1..] == a[1..] + [c] + b;
      FindAt(a[1..], c, b);
    }
  }

  lemma {:induction false} FindLastAt(a: string, c: char, b: string)
    requires c !in b
    ensures FindLast(a + [c] + b, c) == Some(|a|)
  {
    var s := a + [c] + b;
    if b != [] {
      var t := b[..|b| - 1];
      assert s[..|s| - 1] == a + [c] + t;
      assert s[|s| - 1] == b[|b| - 1];
      assert b[|b| - 1] in b;
      FindLastAt(a, c, t);
    }
  }

  lemma AliasOf(p: string, body: string, t: string)
    requires '=' !in p && ';' !in t
    ensures SplitTypeAlias(p + ['='] + body + ([';'] + t)) == Some(Alias(p + ['='], body, [';'] + t))
  {
    var s := p + ['='] + body + ([';'] + t);
    assert s == p + ['='] + (body + ([';'] + t));
    FindAt(p, '=', body + ([';'] + t));
    var front := p + ['='] + body;
    assert s == front + [';'] + t;
    FindLastAt(front, ';', t);
    assert s[..|p| + 1] == p + ['='];
    assert s[|p| + 1..|front|] == body;
    assert s[|front|..] == [';'] + t;
  }

  /** The alias is what lies between the first `=` and the last `;`, and nothing else. */
  lemma {:induction false} AliasExactly(content: string, p: string, body: string, t: string)
    ensures SplitTypeAlias(content) == Some(Alias(p + ['='], body, [';'] + t)) <==>
      content == p + ['='] + body + ([';'] + t) && '=' !in p && ';' !in t
  {
    if content == p + ['='] + body + ([';'] + t) && '=' !in p && ';' !in t { AliasOf(p, body, t); }
    if SplitTypeAlias(content) == Some(Alias(p + ['='], body, [';'] + t)) {
      FindIs(content, '=');
      FindLastIs(content, ';');
      var eq, semi := Find(content, '=').value, FindLast(content, ';').value;
      assert content[..eq + 1][..eq] == content[..eq] && (p + ['='])[..|p|] == p;
      assert content[semi..][1..] == content[semi + 1..] && ([';'] + t)[1..] == t;
    }
  }

  /** Replacing the body of an alias, with any text, and cutting it out again. */
  lemma AliasRoundTrip(content: string, body: string)
    requires SplitTypeAlias(content).Some?
    ensures var a := SplitTypeAlias(content).value;
      SplitTypeAlias(a.prefix + body + a.suffix) == Some(a.(body := body))
  {
    FindIs(content, '=');
    FindLastIs(content, ';');
    var eq, semi := Find(content, '=').value, FindLast(content, ';').value;
    assert content[..eq + 1] == content[..eq] + ['='];
    assert content[semi..] == [';'] + content[semi + 1..];
    AliasOf(content[..eq], body, content[semi + 1..]);
  }

  function Flags(parts: seq<string>, keep: string -> bool): (r: seq<bool>) {
    seq(|parts|, i requires 0 <= i < |parts| => keep(parts[i]))
  }

  /** The arms of the union in an alias. */
  function Arms(content: string): seq<string> {
    match SplitTypeAlias(content) case Some(a) => SplitTopLevel(a.body, {'|'}) case None => []
  }

  /** Drop the arms that `keep` refuses. */
  function FilterArms(content: string, keep: string -> bool): string {
    match SplitTypeAlias(content)
    case None => content
    case Some(a) =>
      a.prefix + KeptBody(a.body, keep) + a.suffix
  }

  function KeptBody(body: string, keep: string -> bool): string {
    var arms := SplitTopLevel(body, {'|'});
    Join(Select(arms, Flags(arms, keep)), " | ")
  }

  lemma KeptBodySplits(body: string, keep: string -> bool)
    ensures var arms := SplitTopLevel(body, {'|'});
      SplitTopLevel(KeptBody(body, keep), {'|'}) == Select(arms, Flags(arms, keep))
  {
    assert " " + ['|'] + " " == " | ";
    SplitJoinRoundTrip(body, Flags(SplitTopLevel(body, {'|'}), keep), " ", '|', " ", {'|'});
  }

  lemma {:induction false} SelectAll(parts: seq<string>, keep: seq<bool>)
    requires |parts| == |keep| && forall i | 0 <= i < |keep| :: keep[i]
    ensures Select(parts, keep) == parts
  {
    if parts != [] {
      SelectAll(parts[1..], keep[1..]);
      assert parts == [parts[0]] + parts[1..];
    }
  }

  lemma {:induction false} SelectedPass(parts: seq<string>, keep: string -> bool)
    ensures forall p :: p in Select(parts, Flags(parts, keep)) <==> p in parts && keep(p)
  {
    if parts != [] {
      SelectedPass(parts[1..], keep);
      assert Flags(parts, keep)[1..] == Flags(parts[1..], keep);
      var rest := Select(parts[1..], Flags(parts[1..], keep));
      assert Select(parts, Flags(parts, keep)) == (if keep(parts[0]) then [parts[0]] else []) + rest;
      assert forall p :: p in parts <==> p == parts[0] || p in parts[1..];
    }
  }

  lemma RebuiltArms(content: string, body: string)
    requires SplitTypeAlias(content).Some?
    ensures var a := SplitTypeAlias(content).value;
      && Arms(a.prefix + body + a.suffix) == SplitTopLevel(body, {'|'})
      && SplitTypeAlias(a.prefix + body + a.suffix).Some?
  {
    AliasRoundTrip(content, body);
  }

  /** After filtering, reading the file again finds exactly the kept arms in
      their old order, and the same text around them. */
  lemma FilterKeepsExactly(content: string, keep: string -> bool)
    ensures Arms(FilterArms(content, keep)) == Select(Arms(content), Flags(Arms(content), keep))
    ensures SplitTypeAlias(content).Some? ==>
      var f, a := SplitTypeAlias(FilterArms(content, keep)), SplitTypeAlias(content).value;
      f.Some? && f.value.prefix == a.prefix && f.value.suffix == a.suffix
    ensures SplitTypeAlias(content).None? ==> FilterArms(content, keep) == content
  {
    var arms := Arms(content);
    if SplitTypeAlias(content).Some? {
      var a := SplitTypeAlias(content).value;
      AliasRoundTrip(content, KeptBody(a.body, keep));
      RebuiltArms(content, KeptBody(a.body, keep));
      KeptBodySplits(a.body, keep);
    }
  }

  /** ... so an arm survives exactly when it was there and passes. */
  lemma {:induction false} FilterMembers(content: string, keep: string -> bool, arm: string)
    ensures arm in Arms(FilterArms(content, keep)) <==> arm in Arms(content) && keep(arm)
  {
    FilterKeepsExactly(content, keep);
    SelectedPass(Arms(content), keep);
  }

  /** Filtering once more changes nothing: prefix, suffix and spacing are settled. */
  lemma {:induction false} FilterIdempotent(content: string, keep: string -> bool)
    ensures FilterArms(FilterArms(content, keep), keep) == FilterArms(content, keep)
  {
    if SplitTypeAlias(content).Some? {
      var arms := Arms(content);
      var kept := Select(arms, Flags(arms, keep));
      FilterKeepsExactly(content, keep);
      SelectedPass(arms, keep);
      forall i | 0 <= i < |kept| ensures Flags(kept, keep)[i] {
        assert kept[i] in kept;
      }
      SelectAll(kept, Flags(kept, keep));
      AliasRoundTrip(content, KeptBody(SplitTypeAlias(content).value.body, keep));
    }
  }

  /** The same for the fields of an object type: cut at `,` or `;`, joined with `, `. */
  lemma {:induction false} FieldsKeptExactly(inner: string, keep: string -> bool)
    ensures var fields := SplitTopLevel(inner, {',', ';'});
      var kept := Select(fields, Flags(fields, keep));
      && SplitTopLevel(Join(kept, ", "), {',', ';'}) == kept
      && forall f :: f in kept <==> f in fields && keep(f)
  {
    var fields := SplitTopLevel(inner, {',', ';'});
    SelectedPass(fields, keep);
    assert "" + [','] + " " == ", ";
    SplitJoinRoundTrip(inner, Flags(fields, keep), "", ',', " ", {',', ';'});
  }
}
