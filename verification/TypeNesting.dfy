/** Type text as it is nested: groups in brackets, string literals and single characters.
    The cuts of the splitter are the delimiters that stand outside all of these. */
module TypeNesting {
  import opened Prelude
  import opened TypeText

  /** A character of a literal; an escaped one may be the quote or a backslash. */
  datatype Letter = Raw(c: char) | Escaped(c: char)

  datatype Node = Ch(c: char) | Literal(quote: char, letters: seq<Letter>) | Group(open: char, inner: seq<Node>)

  const OPENERS := {'{', '[', '(', '<'}

  function Closer(open: char): char {
    match open
    case '{' => '}'
    case '[' => ']'
    case '(' => ')'
    case _ => '>'
  }

  /** Properly nested, inside groups opened by `around`. A closing bracket may stand alone
      where no group of its kind is open, as in the arrow of a function type. */
  predicate Nested(n: Node, around: set<char>) {
    match n
    case Ch(c) =>
      && c !in OPENERS && c !in {'\"', '\''}
      && forall o | o in around :: c != Closer(o)
    case Literal(q, letters) =>
      q in {'\"', '\''} && forall i | 0 <= i < |letters| && letters[i].Raw? :: letters[i].c != q && letters[i].c != '\\'
    case Group(o, inner) =>
      o in OPENERS && AllNested(inner, around + {o})
  }

  predicate AllNested(ns: seq<Node>, around: set<char>) { forall i | 0 <= i < |ns| :: Nested(ns[i], around) }

  function ShowLetter(l: Letter): string { match l case Raw(c) => [c] case Escaped(c) => ['\\', c] }

  function Letters(ls: seq<Letter>): string { if ls == [] then [] else ShowLetter(ls[0]) + Letters(ls[1..]) }

  /** The text of a node. */
  function Show(n: Node): string {
    match n
    case Ch(c) => [c]
    case Literal(q, letters) => [q] + Letters(letters) + [q]
    case Group(o, inner) => [o] + Render(inner) + [Closer(o)]
  }

  function Render(ns: seq<Node>): string { if ns == [] then [] else Show(ns[0]) + Render(ns[1..]) }

  /** The text between the delimiters that stand by themselves, whatever else they occur in. */
  function TopPieces(ns: seq<Node>, ds: set<char>): (r: seq<string>)
    ensures r != []
  {
    if ns == [] then [""]
    else
      var rest := TopPieces(ns[1..], ds);
      if ns[0].Ch? && ns[0].c in ds then [""] + rest else [Show(ns[0]) + rest[0]] + rest[1..]
  }

  // ----- the scanner over nested text -----

  function Depth(s: Scan, open: char): nat {
    match open
    case '{' => s.brace
    case '[' => s.bracket
    case '(' => s.paren
    case _ => s.angle
  }

  function Deeper(s: Scan, open: char): Scan {
    match open
    case '{' => s.(brace := s.brace + 1)
    case '[' => s.(bracket := s.bracket + 1)
    case '(' => s.(paren := s.paren + 1)
    case _ => s.(angle := s.angle + 1)
  }

  /** Outside literals, with no group open but those of `around`. */
  predicate Within(s: Scan, around: set<char>) {
    s.quote == None && !s.escape && forall o | o in OPENERS && o !in around :: Depth(s, o) == 0
  }

  /** `a` is read from `s` without a cut and leaves the scanner in `t`. */
  ghost predicate Passes(s: Scan, a: string, t: Scan, ds: set<char>) { Pieces(s, a, ds) == [a] && After(s, a) == t }

  lemma {:induction false} PassesThen(s: Scan, a: string, t: Scan, b: string, u: Scan, ds: set<char>)
    requires Passes(s, a, t, ds) && Passes(t, b, u, ds)
    ensures Passes(s, a + b, u, ds)
  {
    PiecesAfterClosed(s, a, b, ds);
    AfterConcat(s, a, b);
  }

  lemma PassesOne(s: Scan, c: char, ds: set<char>)
    requires !(AtTop(s) && c in ds)
    ensures Passes(s, [c], Observed(s, c), ds)
  {
    assert Pieces(Observed(s, c), [], ds) == [""];
    assert [c] + "" == [c] && [c][1..] == [];
  }

  lemma PassesNone(s: Scan, ds: set<char>)
    ensures Passes(s, "", s, ds)
  {
  }

  lemma Opens(s: Scan, o: char, around: set<char>)
    requires Within(s, around) && o in OPENERS
    ensures Observed(s, o) == Deeper(s, o) && !AtTop(Deeper(s, o)) && Within(Deeper(s, o), around + {o})
    ensures Observed(Deeper(s, o), Closer(o)) == s
  {
  }

  lemma {:induction false} LettersPass(s: Scan, letters: seq<Letter>, ds: set<char>)
    requires s.quote.Some? && !s.escape
    requires forall i | 0 <= i < |letters| && letters[i].Raw? :: letters[i].c != s.quote.value && letters[i].c != '\\'
    ensures Passes(s, Letters(letters), s, ds)
  {
    if letters == [] {
      PassesNone(s, ds);
    } else {
      var l := letters[0];
      match l {
        case Raw(c) => PassesOne(s, c, ds);
        case Escaped(c) =>
          PassesOne(s, '\\', ds);
          PassesOne(s.(escape := true), c, ds);
          PassesThen(s, ['\\'], s.(escape := true), [c], s, ds);
          assert ['\\'] + [c] == ['\\', c];
      }
      LettersPass(s, letters[1..], ds);
      PassesThen(s, ShowLetter(l), s, Letters(letters[1..]), s, ds);
    }
  }

  lemma {:induction false} LiteralPasses(s: Scan, q: char, letters: seq<Letter>, around: set<char>, ds: set<char>)
    requires Within(s, around) && Nested(Literal(q, letters), around) && q !in ds
    ensures Passes(s, Show(Literal(q, letters)), s, ds)
  {
    var t := s.(quote := Some(q));
    PassesOne(s, q, ds);
    LettersPass(t, letters, ds);
    PassesOne(t, q, ds);
    PassesThen(s, [q], t, Letters(letters), t, ds);
    PassesThen(s, [q] + Letters(letters), t, [q], s, ds);
  }

  lemma AloneKeeps(s: Scan, c: char, around: set<char>)
    requires Within(s, around) && Nested(Ch(c), around)
    ensures Observed(s, c) == s
  {
    assert c == '}' ==> Closer('{') == c;
    assert c == ']' ==> Closer('[') == c;
    assert c == ')' ==> Closer('(') == c;
    assert c == '>' ==> Closer('<') == c;
    assert '{' in OPENERS && '[' in OPENERS && '(' in OPENERS && '<' in OPENERS;
  }

  /** The node begins with a delimiter; an ordinary one is the delimiter then. */
  predicate Delimits(n: Node, ds: set<char>) {
    match n
    case Ch(c) => c in ds
    case Literal(_, _) => false
    case Group(o, _) => o in ds
  }

  predicate NoQuotes(ds: set<char>) { '\"' !in ds && '\'' !in ds }

  /** A node other than a delimiter at top level is read without a cut and leaves the scanner
      as it was. */
  lemma {:induction false} NodePasses(s: Scan, n: Node, around: set<char>, ds: set<char>)
    requires Within(s, around) && Nested(n, around) && NoQuotes(ds) && !(AtTop(s) && Delimits(n, ds))
    ensures Passes(s, Show(n), s, ds)
    decreases n
  {
    match n
    case Ch(c) =>
      AloneKeeps(s, c, around);
      PassesOne(s, c, ds);
    case Literal(q, letters) => LiteralPasses(s, q, letters, around, ds);
    case Group(o, inner) =>
      Opens(s, o, around);
      var t := Deeper(s, o);
      PassesOne(s, o, ds);
      NodesPass(t, inner, around + {o}, ds);
      PassesOne(t, Closer(o), ds);
      PassesThen(s, [o], t, Render(inner), t, ds);
      PassesThen(s, [o] + Render(inner), t, [Closer(o)], s, ds);
  }

  lemma {:induction false} NodesPass(s: Scan, ns: seq<Node>, around: set<char>, ds: set<char>)
    requires Within(s, around) && AllNested(ns, around) && NoQuotes(ds)
    requires AtTop(s) ==> forall i | 0 <= i < |ns| :: !Delimits(ns[i], ds)
    ensures Passes(s, Render(ns), s, ds)
    decreases ns
  {
    if ns == [] {
      PassesNone(s, ds);
    } else {
      NodePasses(s, ns[0], around, ds);
      NodesPass(s, ns[1..], around, ds);
      PassesThen(s, Show(ns[0]), s, Render(ns[1..]), s, ds);
    }
  }

  /** Whatever is in brackets or quotes is no cut: text is cut exactly at the delimiters that
      stand by themselves. */
  lemma {:induction false} CutsAreTopLevel(ns: seq<Node>, ds: set<char>)
    requires AllNested(ns, {}) && AllPlain(ds)
    ensures Pieces(START, Render(ns), ds) == TopPieces(ns, ds)
  {
    if ns != [] {
      CutsAreTopLevel(ns[1..], ds);
      var rest := Render(ns[1..]);
      if ns[0].Ch? && ns[0].c in ds {
        AloneKeeps(START, ns[0].c, {});
        assert ([ns[0].c] + rest)[1..] == rest;
      } else {
        NodePasses(START, ns[0], {}, ds);
        PiecesAfterClosed(START, Show(ns[0]), rest, ds);
      }
    }
  }

  /** A group or a literal by itself is one piece, whatever delimiters it holds. */
  lemma {:induction false} EnclosedIsUncut(n: Node, ds: set<char>)
    requires Nested(n, {}) && AllPlain(ds) && !n.Ch?
    ensures Closed(Show(n), ds)
  {
    NodePasses(START, n, {}, ds);
  }

  /** The parts of nested text are its trimmed pieces, but for empty ones. */
  lemma {:induction false} SplitsNested(ns: seq<Node>, ds: set<char>)
    requires AllNested(ns, {}) && AllPlain(ds)
    ensures SplitTopLevel(Render(ns), ds) == Parts(TopPieces(ns, ds))
  {
    CutsAreTopLevel(ns, ds);
  }
}
