/** The field filter on generated files whose text is properly nested: what is found between
    the braces of the type, and what the filtered file is, character by character. */
module NestedFiles {
  import opened Prelude
  import opened TypeText
  import opened TypeFields
  import opened TypeNesting
  import FieldNames

  // ----- the braces of nested text -----

  /** Without a brace at top level the search for braces opens none. */
  lemma {:induction false} SeeksOn(s: Scan, text: string, at: nat)
    requires Pieces(s, text, {'{'}) == [text]
    ensures LookAll(Seeking(s, None, at), text) == Seeking(After(s, text), None, at + |text|)
    decreases text
  {
    if text != [] {
      UncutStep(s, text, {'{'});
      SeeksOn(Observed(s, text[0]), text[1..], at + 1);
    }
  }

  /** Text before the braces of a type: nested, and no group in braces at top level. */
  predicate Preamble(ns: seq<Node>) {
    AllNested(ns, {}) && forall i | 0 <= i < |ns| :: !(ns[i].Group? && ns[i].open == '{')
  }

  lemma {:induction false} PreambleReaches(ns: seq<Node>)
    requires Preamble(ns)
    ensures Reaches(Render(ns))
  {
    forall i | 0 <= i < |ns| ensures !Delimits(ns[i], {'{'}) { assert Nested(ns[i], {}); }
    NodesPass(START, ns, {}, {'{'});
    SeeksOn(START, Render(ns), 0);
  }

  lemma {:induction false} LettersQuiet(s: Scan, letters: seq<Letter>)
    requires s.quote.Some? && !s.escape
    requires forall i | 0 <= i < |letters| && letters[i].Raw? :: letters[i].c != s.quote.value && letters[i].c != '\\'
    ensures Quiet(s, Letters(letters)) && After(s, Letters(letters)) == s
  {
    LettersPass(s, letters, {});
    if letters != [] {
      var first := ShowLetter(letters[0]);
      LettersPass(s, [letters[0]], {});
      assert Letters([letters[0]]) == first + Letters([]) == first;
      assert letters[0].Escaped? ==> first[1..] == [letters[0].c];
      assert Quiet(s, first);
      LettersQuiet(s, letters[1..]);
      QuietConcat(s, first, Letters(letters[1..]));
    }
  }

  lemma QuietOne(s: Scan, c: char)
    ensures Quiet(s, [c]) <==> !(AtTop(s) && c == '{') && !(c == '}' && AtTop(Observed(s, c)))
  {
    assert [c][1..] == [];
  }

  lemma {:induction false} QuietAround(s: Scan, o: char, t: Scan, inner: string, c: char)
    requires Quiet(s, [o]) && Observed(s, o) == t && Quiet(t, inner) && After(t, inner) == t && Quiet(t, [c])
    ensures Quiet(s, [o] + inner + [c])
  {
    AfterOne(s, o);
    QuietConcat(s, [o], inner);
    AfterConcat(s, [o], inner);
    QuietConcat(s, [o] + inner, [c]);
  }

  /** Inside braces, nested text neither opens a brace at top level nor closes to it. */
  lemma {:induction false} NodeQuiet(s: Scan, n: Node, around: set<char>)
    requires Within(s, around) && Nested(n, around) && s.brace >= 1
    ensures Quiet(s, Show(n)) && After(s, Show(n)) == s
    decreases n
  {
    NodePasses(s, n, around, {});
    match n
    case Ch(c) =>
      assert '{' in around;
      QuietOne(s, c);
    case Literal(q, letters) =>
      var t := s.(quote := Some(q));
      QuietOne(s, q);
      LettersQuiet(t, letters);
      QuietOne(t, q);
      QuietAround(s, q, t, Letters(letters), q);
    case Group(o, inner) =>
      Opens(s, o, around);
      var t := Deeper(s, o);
      QuietOne(s, o);
      NodesQuiet(t, inner, around + {o});
      QuietOne(t, Closer(o));
      QuietAround(s, o, t, Render(inner), Closer(o));
  }

  lemma {:induction false} NodesQuiet(s: Scan, ns: seq<Node>, around: set<char>)
    requires Within(s, around) && AllNested(ns, around) && s.brace >= 1
    ensures Quiet(s, Render(ns)) && After(s, Render(ns)) == s
    decreases ns
  {
    if ns != [] {
      NodeQuiet(s, ns[0], around);
      NodesQuiet(s, ns[1..], around);
      QuietConcat(s, Show(ns[0]), Render(ns[1..]));
      AfterConcat(s, Show(ns[0]), Render(ns[1..]));
    }
  }

  /** The first group in braces at top level is the one found. */
  lemma {:induction false} FirstGroupFound(pre: seq<Node>, inner: seq<Node>, post: string)
    requires Preamble(pre) && AllNested(inner, {'{'})
    ensures BraceSpan(Render(pre) + ['{'] + Render(inner) + (['}'] + post)) ==
      Some((|Render(pre)|, |Render(pre)| + 1 + |Render(inner)|))
  {
    PreambleReaches(pre);
    NodesQuiet(INSIDE, inner, {'{'});
    SpanAgain(Render(pre), Render(inner), post);
  }

  // ----- where the search starts -----

  /** The head ends with the first `=`. */
  ghost predicate EndsAtEquals(head: string) {
    head != [] && head[|head| - 1] == '=' && '=' !in head[..|head| - 1]
  }

  /** There is no `=`, and the head ends with the first mention of an exported interface. */
  ghost predicate EndsAtMarker(head: string, tail: string) {
    && '=' !in head + tail && |INTERFACE_MARKER| <= |head|
    && head[|head| - |INTERFACE_MARKER|..] == INTERFACE_MARKER
    && forall i | 0 <= i < |head| - |INTERFACE_MARKER| :: !(INTERFACE_MARKER <= (head + tail)[i..])
  }

  ghost predicate Heads(head: string, tail: string) { EndsAtEquals(head) || EndsAtMarker(head, tail) }

  lemma {:induction false} EqualsAnchor(head: string, tail: string)
    requires '=' in head + tail
    ensures Anchor(head + tail) == Some(|head|) <==> EndsAtEquals(head)
  {
    var s := head + tail;
    FindIs(s, '=');
    if EndsAtEquals(head) {
      var p := head[..|head| - 1];
      assert s == p + ['='] + tail;
      FindAt(p, '=', tail);
    } else if |head| > 0 {
      assert head[..|head| - 1] == s[..|head| - 1];
    }
  }

  lemma {:induction false} MarkerAnchor(head: string, tail: string)
    requires '=' !in head + tail
    ensures Anchor(head + tail) == Some(|head|) <==> EndsAtMarker(head, tail)
  {
    var s := head + tail;
    FindIs(s, '=');
    FindTextMeans(s, INTERFACE_MARKER);
    if |INTERFACE_MARKER| <= |head| { MarkerHere(head, tail); }
    if EndsAtMarker(head, tail) { FindsFirst(s, INTERFACE_MARKER, |head| - |INTERFACE_MARKER|); }
  }

  /** The search for the braces starts at the end of the head, and only there. */
  lemma {:induction false} AnchorIsHead(head: string, tail: string)
    ensures Anchor(head + tail) == Some(|head|) <==> Heads(head, tail)
  {
    if '=' in head + tail {
      EqualsAnchor(head, tail);
    } else {
      MarkerAnchor(head, tail);
      assert head != [] ==> head[|head| - 1] == (head + tail)[|head| - 1];
    }
  }

  lemma {:induction false} MarkerHere(head: string, tail: string)
    requires |INTERFACE_MARKER| <= |head|
    ensures var k := |head| - |INTERFACE_MARKER|;
      INTERFACE_MARKER <= (head + tail)[k..] <==> head[k..] == INTERFACE_MARKER
  {
    var k := |head| - |INTERFACE_MARKER|;
    assert (head + tail)[k..] == head[k..] + tail;
  }

  // ----- the filter -----

  /** A file: its head, the text before the braces, the fields between them, and the rest. */
  function File(head: string, pre: seq<Node>, inner: seq<Node>, post: string): string {
    Whole(head, Render(pre), Render(inner), post)
  }

  /** The braces of the type are found around its fields. */
  ghost predicate Found(content: string, head: string, pre: string, inner: string) {
    && TypeBodySpan(content) == Some((|head| + |pre|, |head| + |pre| + 1 + |inner|))
    && |head| + |pre| + 1 + |inner| < |content|
  }

  lemma {:induction false} FileSpan(head: string, pre: seq<Node>, inner: seq<Node>, post: string)
    requires Preamble(pre) && AllNested(inner, {'{'})
    requires Heads(head, Render(pre) + ['{'] + Render(inner) + (['}'] + post))
    ensures Found(File(head, pre, inner, post), head, Render(pre), Render(inner))
  {
    var text := Render(pre) + ['{'] + Render(inner) + (['}'] + post);
    AnchorIsHead(head, text);
    FirstGroupFound(pre, inner, post);
    assert (head + text)[|head|..] == text;
  }

  lemma InnerNested(inner: seq<Node>)
    requires AllNested(inner, {'{'})
    ensures AllNested(inner, {})
  {
    forall i | 0 <= i < |inner| ensures Nested(inner[i], {}) { LessAround(inner[i], {}, {'{'}); }
  }

  lemma {:induction false} LessAround(n: Node, less: set<char>, around: set<char>)
    requires Nested(n, around) && less <= around
    ensures Nested(n, less)
  {
    if n.Group? {
      forall i | 0 <= i < |n.inner| ensures Nested(n.inner[i], less + {n.open}) {
        LessAround(n.inner[i], less + {n.open}, around + {n.open});
      }
    }
  }

  lemma {:induction false} FieldsBetween(content: string, head: string, pre: string, inner: string, post: string)
    requires content == Whole(head, pre, inner, post) && Found(content, head, pre, inner)
    ensures FieldsOf(content) == SplitTopLevel(inner, DELIMITERS)
  {
    WholeInner(head, pre, inner, post);
    FieldsAt(content, |head| + |pre|, |head| + |pre| + 1 + |inner|, inner);
  }

  lemma {:induction false} FileFields(head: string, pre: seq<Node>, inner: seq<Node>, post: string)
    requires AllNested(inner, {'{'}) && Found(File(head, pre, inner, post), head, Render(pre), Render(inner))
    ensures FieldsOf(File(head, pre, inner, post)) == Parts(TopPieces(inner, DELIMITERS))
  {
    FieldsBetween(File(head, pre, inner, post), head, Render(pre), Render(inner), post);
    InnerNested(inner);
    SplitsNested(inner, DELIMITERS);
  }

  /** `r` is the file with `kept` between `o` and `c`. */
  ghost predicate Respliced(content: string, o: nat, c: nat, kept: string, r: string) {
    o < c <= |content| && r == content[..o + 1] + kept + content[c..]
  }

  lemma {:induction false} FilterIs(content: string, o: nat, c: nat, keep: string -> bool)
    requires TypeBodySpan(content) == Some((o, c)) && o < c <= |content|
    ensures Respliced(content, o, c, KeptInner(content, keep), FilterFields(content, keep))
  {
  }

  lemma {:induction false} FilteredBetween(content: string, head: string, pre: string, inner: string,
                                           keep: string -> bool)
    requires Found(content, head, pre, inner)
    ensures Respliced(content, |head| + |pre|, |head| + |pre| + 1 + |inner|, KeptInner(content, keep),
                      FilterFields(content, keep))
  {
    FilterIs(content, |head| + |pre|, |head| + |pre| + 1 + |inner|, keep);
  }

  lemma {:induction false} ResplicedWhole(content: string, head: string, pre: string, inner: string, post: string,
                                          kept: string, r: string)
    requires content == Whole(head, pre, inner, post)
    requires Respliced(content, |head| + |pre|, |head| + |pre| + 1 + |inner|, kept, r)
    ensures r == Whole(head, pre, kept, post)
  {
    Spliced(content, head, pre, inner, post, kept);
  }

  lemma {:induction false} FilteredWhole(content: string, head: string, pre: string, inner: string, post: string,
                                         keep: string -> bool)
    requires content == Whole(head, pre, inner, post) && Found(content, head, pre, inner)
    ensures FilterFields(content, keep) == Whole(head, pre, KeptInner(content, keep), post)
  {
    FilteredBetween(content, head, pre, inner, keep);
    ResplicedWhole(content, head, pre, inner, post, KeptInner(content, keep), FilterFields(content, keep));
  }

  /** For every nested file: the fields are the stretches between the commas and semicolons
      that stand by themselves between the braces, and the filtered file is the same file
      with those that are not listed by name, joined, between its braces. */
  lemma {:induction false} FilterNestedFile(head: string, pre: seq<Node>, inner: seq<Node>, post: string,
                                            names: set<string>)
    requires Preamble(pre) && AllNested(inner, {'{'})
    requires Heads(head, Render(pre) + ['{'] + Render(inner) + (['}'] + post))
    ensures var content, keep := File(head, pre, inner, post), FieldNames.Keeper(names);
      && FieldsOf(content) == Parts(TopPieces(inner, DELIMITERS))
      && FilterFields(content, keep) == Whole(head, Render(pre), KeptInner(content, keep), post)
  {
    FileSpan(head, pre, inner, post);
    FileFields(head, pre, inner, post);
    FilteredWhole(File(head, pre, inner, post), head, Render(pre), Render(inner), post, FieldNames.Keeper(names));
  }

  // ----- quoted names -----

  lemma RawEnd(q: char, c: char, tail: string, n: nat)
    requires c != q && c != '\\' && FieldNames.LiteralEnd(tail, q, false) == Some(n)
    ensures FieldNames.LiteralEnd([c] + tail, q, false) == Some(n + 1)
  {
    assert ([c] + tail)[1..] == tail;
  }

  lemma EscapedEnd(q: char, c: char, tail: string, n: nat)
    requires FieldNames.Quote(q) && FieldNames.LiteralEnd(tail, q, false) == Some(n)
    ensures FieldNames.LiteralEnd(['\\', c] + tail, q, false) == Some(n + 2)
  {
    assert ([c] + tail)[1..] == tail;
    assert FieldNames.LiteralEnd([c] + tail, q, true) == Some(n + 1);
    assert (['\\', c] + tail)[1..] == [c] + tail;
  }

  predicate Clean(letters: seq<Letter>, q: char) {
    forall i | 0 <= i < |letters| && letters[i].Raw? :: letters[i].c != q && letters[i].c != '\\'
  }

  lemma Associate(a: string, b: string, c: string)
    ensures (a + b) + c == a + (b + c)
  {
  }

  lemma {:induction false} LettersEnd(q: char, letters: seq<Letter>, close: string)
    requires FieldNames.Quote(q) && Clean(letters, q) && close != [] && close[0] == q
    ensures FieldNames.LiteralEnd(Letters(letters) + close, q, false) == Some(|Letters(letters)|)
  {
    if letters == [] {
      assert Letters(letters) + close == close;
    } else {
      var more := Letters(letters[1..]);
      LettersEnd(q, letters[1..], close);
      Associate(ShowLetter(letters[0]), more, close);
      match letters[0]
      case Raw(c) => RawEnd(q, c, more + close, |more|);
      case Escaped(c) => EscapedEnd(q, c, more + close, |more|);
    }
  }

  lemma {:induction false} LiteralReads(q: char, letters: seq<Letter>, rest: string)
    requires Nested(Literal(q, letters), {})
    ensures var s := [q] + (Letters(letters) + ([q] + rest));
      FieldNames.StringLiteral(s) == Some(FieldNames.Literal(Letters(letters), |Letters(letters)| + 2))
      && s[|Letters(letters)| + 2..] == rest
  {
    var text := Letters(letters);
    var s := [q] + (text + ([q] + rest));
    LettersEnd(q, letters, [q] + rest);
    assert s[1..] == text + ([q] + rest);
    assert s[1..|text| + 1] == text;
  }

  /** A quoted name is what the quotes hold, escapes and all, if a colon follows. */
  lemma {:induction false} QuotedName(q: char, letters: seq<Letter>, w: string, tail: string)
    requires Nested(Literal(q, letters), {}) && AllBlank(w) && (tail == [] || !Blank(tail[0]))
    ensures FieldNames.PropertyName([q] + (Letters(letters) + ([q] + (w + tail)))) ==
      if FieldNames.Starts(tail, ':') then Some(Letters(letters)) else None
  {
    LiteralReads(q, letters, w + tail);
    FieldNames.BlanksBefore(w, tail);
    assert !Blank(q);
  }
}
