/** The names of the fields of a generated TypeScript type, and the filter that drops
    fields by name. */
module FieldNames {
  import opened Prelude
  import opened TypeText
  import opened TypeFields

  // ----- reading a name -----

  predicate IdentChar(c: char) { 'a' <= c <= 'z' || 'A' <= c <= 'Z' || '0' <= c <= '9' || c == '_' }

  predicate Quote(c: char) { c == '\"' || c == '\'' }

  /** How many identifier characters a text starts with. */
  function IdentLength(s: string): (n: nat)
    ensures n <= |s|
  { if s != [] && IdentChar(s[0]) then 1 + IdentLength(s[1..]) else 0 }

  /** Where the quote is that ends a literal, counted after the one that opens it. */
  function LiteralEnd(s: string, quote: char, escape: bool): (r: Option<nat>)
    ensures r.Some? ==> r.value < |s|
    decreases s
  {
    if s == [] then None
    else if !escape && s[0] != '\\' && s[0] == quote then Some(0)
    else match LiteralEnd(s[1..], quote, !escape && s[0] == '\\') case Some(i) => Some(i + 1) case None => None
  }

  datatype Literal = Literal(text: string, consumed: nat)

  function StringLiteral(s: string): (r: Option<Literal>)
    ensures r.Some? ==> r.value.consumed <= |s|
  {
    if s == [] || !Quote(s[0]) then None
    else match LiteralEnd(s[1..], s[0], false) case Some(i) => Some(Literal(s[1..i + 1], i + 2)) case None => None
  }

  predicate Starts(s: string, c: char) { s != [] && s[0] == c }

  /** A field is a literal or an identifier, that may be marked optional, before a colon. */
  function PropertyName(input: string): Option<string> {
    var s := TrimStart(input);
    match StringLiteral(s)
    case Some(l) => if Starts(TrimStart(s[l.consumed..]), ':') then Some(l.text) else None
    case None =>
      var end := IdentLength(s);
      if end == 0 then None
      else
        var rest := TrimStart(s[end..]);
        if Starts(if Starts(rest, '?') then TrimStart(rest[1..]) else rest, ':') then Some(s[..end]) else None
  }

  lemma {:induction false} TrimStartShorter(s: string)
    ensures |TrimStart(s)| <= |s|
  {
    if s != [] && Blank(s[0]) { TrimStartShorter(s[1..]); }
  }

  function WithoutComments(input: string): string
    decreases |input|
  {
    TrimStartShorter(input);
    var rest := TrimStart(input);
    if !("/*" <= rest) then rest
    else
      FindTextIs(rest[2..], "*/");
      match FindText(rest[2..], "*/")
      case Some(i) => WithoutComments(rest[2..][i + 2..])
      case None => rest
  }

  /** A field stays unless its name is one of `names`; so does text that has no name. */
  predicate Stays(names: set<string>, field: string) {
    match PropertyName(WithoutComments(field)) case Some(n) => n !in names case None => true
  }

  function Keeper(names: set<string>): string -> bool { field => Stays(names, field) }

  // ----- the program -----

  method ParseStringLiteral(input: string) returns (r: Option<Literal>)
    ensures r == StringLiteral(input)
  {
    if input == [] { return None; }
    var quote := input[0];
    if quote != '\"' && quote != '\'' { return None; }
    var escape := false;
    for index := 1 to |input|
      invariant match LiteralEnd(input[index..], quote, escape)
        case Some(i) => LiteralEnd(input[1..], quote, false) == Some(index - 1 + i)
        case None => LiteralEnd(input[1..], quote, false) == None
    {
      var ch := input[index];
      assert input[index..][1..] == input[index + 1..];
      if escape {
        escape := false;
      } else if ch == '\\' {
        escape := true;
      } else if ch == quote {
        return Some(Literal(input[1..index], index + 1));
      }
    }
    return None;
  }

  method ParsePropertyName(input: string) returns (r: Option<string>)
    ensures r == PropertyName(input)
  {
    var trimmed := TrimStart(input);
    if trimmed == [] { return None; }
    var literal := ParseStringLiteral(trimmed);
    if literal.Some? {
      var rest := TrimStart(trimmed[literal.value.consumed..]);
      return if Starts(rest, ':') then Some(literal.value.text) else None;
    }
    var end := 0;
    while end < |trimmed| && IdentChar(trimmed[end])
      invariant end <= |trimmed| && IdentLength(trimmed) == end + IdentLength(trimmed[end..])
    {
      assert trimmed[end..][1..] == trimmed[end + 1..];
      end := end + 1;
    }
    if end == 0 { return None; }
    var rest := TrimStart(trimmed[end..]);
    if Starts(rest, '?') { rest := TrimStart(rest[1..]); }
    return if Starts(rest, ':') then Some(trimmed[..end]) else None;
  }

  method StripLeadingBlockComments(input: string) returns (rest: string)
    ensures rest == WithoutComments(input)
  {
    rest := TrimStart(input);
    TrimStartIdempotent(input);
    while "/*" <= rest
      invariant WithoutComments(input) == WithoutComments(rest) && TrimStart(rest) == rest
      decreases |rest|
    {
      var after := rest[2..];
      FindTextIs(after, "*/");
      var end := FindText(after, "*/");
      if end == None { return rest; }
      TrimStartShorter(after[end.value + 2..]);
      TrimStartIdempotent(after[end.value + 2..]);
      rest := TrimStart(after[end.value + 2..]);
    }
  }

  /** Leading blanks do not matter. */
  lemma {:induction false} TrimStartIdempotent(s: string)
    ensures TrimStart(TrimStart(s)) == TrimStart(s)
    ensures WithoutComments(TrimStart(s)) == WithoutComments(s)
  {
    if s != [] && Blank(s[0]) { TrimStartIdempotent(s[1..]); }
  }

  // ----- what the names mean -----

  predicate Identifier(name: string) { name != [] && forall i | 0 <= i < |name| :: IdentChar(name[i]) }

  lemma {:induction false} IdentLengthIs(name: string, rest: string)
    requires (forall i | 0 <= i < |name| :: IdentChar(name[i])) && (rest == [] || !IdentChar(rest[0]))
    ensures IdentLength(name + rest) == |name|
  {
    if name == [] {
      assert name + rest == rest;
    } else {
      assert (name + rest)[1..] == name[1..] + rest;
      IdentLengthIs(name[1..], rest);
    }
  }

  /** A field written with an identifier has that name, optional or not. */
  lemma NamedField(name: string, optional: bool, value: string)
    requires Identifier(name)
    ensures PropertyName(WithoutComments(name + (if optional then "?" else "") + ":" + value)) == Some(name)
  {
    var mark := if optional then "?" else "";
    var s := name + mark + ":" + value;
    var rest := mark + ":" + value;
    assert s == name + rest && s[0] == name[0] && IdentChar(s[0]);
    assert rest[0] == (if optional then '?' else ':');
    IdentLengthIs(name, rest);
    assert s[|name|..] == rest && s[..|name|] == name;
    if optional { assert rest[1..][0] == ':'; }
  }

  /** ... so it is dropped exactly when its name is listed. */
  lemma NamedFieldStays(name: string, optional: bool, value: string, names: set<string>)
    requires Identifier(name)
    ensures Keeper(names)(name + (if optional then "?" else "") + ":" + value) <==> name !in names
  {
    NamedField(name, optional, value);
  }

  lemma {:induction false} BlanksBefore(w: string, x: string)
    requires AllBlank(w)
    ensures TrimStart(w + x) == TrimStart(x)
  {
    if w == [] {
      assert w + x == x;
    } else {
      assert (w + x)[1..] == w[1..] + x;
      BlanksBefore(w[1..], x);
    }
  }

  /** What follows a name: blanks, perhaps a question mark and more blanks, then the rest. */
  function AfterName(w: string, optional: bool, v: string, tail: string): string {
    if optional then w + ("?" + (v + tail)) else w + tail
  }

  lemma {:induction false} AfterNameReads(w: string, optional: bool, v: string, tail: string)
    requires AllBlank(w) && AllBlank(v) && (tail == [] || !Blank(tail[0])) && (!optional ==> !Starts(tail, '?'))
    ensures var rest := TrimStart(AfterName(w, optional, v, tail));
      (if Starts(rest, '?') then TrimStart(rest[1..]) else rest) == tail
  {
    if optional {
      BlanksBefore(w, "?" + (v + tail));
      BlanksBefore(v, tail);
      assert ("?" + (v + tail))[1..] == v + tail;
    } else {
      BlanksBefore(w, tail);
    }
  }

  /** An identifier is a name exactly when a colon follows it, after blanks and perhaps a
      question mark. */
  lemma {:induction false} IdentifierName(name: string, w: string, optional: bool, v: string, tail: string)
    requires Identifier(name) && AllBlank(w) && AllBlank(v)
    requires (tail == [] || !Blank(tail[0])) && (!optional ==> !Starts(tail, '?'))
    requires AfterName(w, optional, v, tail) == [] || !IdentChar(AfterName(w, optional, v, tail)[0])
    ensures PropertyName(name + AfterName(w, optional, v, tail)) == if Starts(tail, ':') then Some(name) else None
  {
    var rest := AfterName(w, optional, v, tail);
    var s := name + rest;
    assert s[0] == name[0] && IdentChar(s[0]) && TrimStart(s) == s;
    IdentLengthIs(name, rest);
    assert s[|name|..] == rest && s[..|name|] == name;
    AfterNameReads(w, optional, v, tail);
  }

  /** Text that begins with neither a letter, a digit, an underscore nor a quote has no name. */
  lemma Nameless(s: string)
    requires s == [] || (!Blank(s[0]) && !IdentChar(s[0]) && !Quote(s[0]))
    ensures PropertyName(s) == None
  {
  }

  /** ... and stays, unless it begins with a comment that ends. */
  lemma {:induction false} NamelessStays(s: string, names: set<string>)
    requires s == [] || (!Blank(s[0]) && !IdentChar(s[0]) && !Quote(s[0]) && s[0] != '/')
    ensures Keeper(names)(s)
  {
    NoCommentSkipped(s);
    Nameless(s);
  }

  /** Names are of ASCII letters, digits and underscores. */
  lemma IdentCharsAre(c: char)
    ensures IdentChar(c) <==> (var n := c as int; 48 <= n <= 57 || 65 <= n <= 90 || 97 <= n <= 122 || n == 95)
  {
  }

  /** A leading comment does not matter, with blanks before it and whatever it holds. */
  lemma {:induction false} CommentSkipped(w: string, comment: string, rest: string)
    requires AllBlank(w)
    requires forall i | 0 <= i < |comment| :: !("*/" <= (comment + ("*/" + rest))[i..])
    ensures WithoutComments(w + ("/*" + (comment + ("*/" + rest)))) == WithoutComments(rest)
  {
    var body := comment + ("*/" + rest);
    var s := "/*" + body;
    BlanksBefore(w, s);
    assert s[0] == '/' && s[2..] == body && TrimStart(s) == s;
    assert body[|comment|..] == "*/" + rest;
    FindsFirst(body, "*/", |comment|);
    assert body[|comment| + 2..] == rest;
  }

  /** Text without a leading comment is only trimmed, and so is one that does not end. */
  lemma {:induction false} NoCommentSkipped(s: string)
    requires !("/*" <= TrimStart(s)) || forall i | 2 <= i <= |TrimStart(s)| :: !("*/" <= TrimStart(s)[i..])
    ensures WithoutComments(s) == TrimStart(s)
  {
    var rest := TrimStart(s);
    if "/*" <= rest {
      FindTextMeans(rest[2..], "*/");
      forall i | 2 <= i <= |rest| ensures rest[i..] == rest[2..][i - 2..] {}
    }
  }

  /** The filter of the program: the fields of the filtered file are those that are not
      listed by name, in order, whenever the last that stays closes what it opens. */
  lemma {:induction false} ListedFieldsGone(content: string, o: nat, c: nat, names: set<string>)
    requires TypeBodySpan(content) == Some((o, c)) && LeavesClosed(KeptFields(content, Keeper(names)))
    ensures var after := FieldsOf(FilterFields(content, Keeper(names)));
      && after == KeptFields(content, Keeper(names))
      && forall f :: f in after <==> f in FieldsOf(content) && Stays(names, f)
  {
    FileFieldsKeptExactly(content, o, c, Keeper(names));
  }

  // ----- a file in which the braces are lost -----

  const CLOSES_ONE: string := ['[', '}', ']']
  const OPENS_ONE: string := ['[', '{', ']']

  lemma {:induction false} Three(s: Scan, a: char, b: char, c: char)
    ensures After(s, [a, b, c]) == Observed(Observed(Observed(s, a), b), c)
    ensures Quiet(s, [a, b, c]) <==> Quiet(s, [a]) && Quiet(Observed(s, a), [b]) && Quiet(Observed(Observed(s, a), b), [c])
  {
    AfterConcat(s, [a], [b, c]);
    AfterConcat(Observed(s, a), [b], [c]);
    QuietConcat(s, [a], [b, c]);
    QuietConcat(Observed(s, a), [b], [c]);
    AfterOne(s, a);
    AfterOne(Observed(s, a), b);
    AfterOne(Observed(Observed(s, a), b), c);
    assert [a, b, c] == [a] + [b, c] && [b, c] == [b] + [c];
  }

  lemma {:induction false} UncutThree(a: char, b: char, c: char, ds: set<char>)
    requires {a, b, c} !! ds
    ensures Uncut([a, b, c], ds)
  {
    var s1, s2 := Observed(START, a), Observed(Observed(START, a), b);
    assert [a, b, c][1..] == [b, c] && [b, c][1..] == [c] && [c][1..] == [];
    UncutStep(s2, [c], ds);
    UncutStep(s1, [b, c], ds);
    UncutStep(START, [a, b, c], ds);
  }

  lemma LopsidedReads()
    ensures After(INSIDE, CLOSES_ONE) == START && After(START, CLOSES_ONE) == START && Quiet(INSIDE, CLOSES_ONE)
    ensures After(START, OPENS_ONE) == INSIDE && After(INSIDE, OPENS_ONE).brace == 2 && Quiet(START, OPENS_ONE)
  {
    Three(INSIDE, '[', '}', ']');
    Three(START, '[', '}', ']');
    Three(START, '[', '{', ']');
    Three(INSIDE, '[', '{', ']');
  }

  /** A character that the scanner, the splitter and the trimmer pass over. */
  predicate Passive(c: char) { Plain(c) && c !in DELIMITERS }

  lemma {:induction false} PassiveReads(y: Scan, text: string)
    requires Between(y) && forall i | 0 <= i < |text| :: Passive(text[i])
    ensures After(y, text) == y && Quiet(y, text)
    decreases text
  {
    if text != [] {
      assert Observed(y, text[0]) == y;
      PassiveReads(y, text[1..]);
    }
  }

  lemma {:induction false} PassiveUncut(text: string)
    requires forall i | 0 <= i < |text| :: Passive(text[i])
    ensures Uncut(text, DELIMITERS)
    decreases text
  {
    if text != [] {
      assert Observed(START, text[0]) == START;
      PassiveUncut(text[1..]);
      UncutStep(START, text, DELIMITERS);
    }
  }

  /** A field by its name and its value. */
  function Field(name: string, value: string): string { name + ":" + value }

  lemma {:induction false} FieldReads(y: Scan, name: string, value: string)
    requires Between(y) && Identifier(name)
    ensures After(y, Field(name, value)) == After(y, value)
    ensures Quiet(y, Field(name, value)) <==> Quiet(y, value)
  {
    var head := name + ":";
    assert forall i | 0 <= i < |head| :: Passive(head[i]);
    PassiveReads(y, head);
    AfterConcat(y, head, value);
    QuietConcat(y, head, value);
  }

  lemma {:induction false} FieldIsPart(name: string, value: string)
    requires Identifier(name) && value != [] && !Blank(value[|value| - 1]) && Uncut(value, DELIMITERS)
    ensures Trimmed(Field(name, value)) && Uncut(Field(name, value), DELIMITERS)
  {
    var head := name + ":";
    assert forall i | 0 <= i < |head| :: Passive(head[i]);
    PassiveReads(START, head);
    PassiveUncut(head);
    PiecesAfterClosed(START, head, value, DELIMITERS);
    var f := Field(name, value);
    assert f[0] == name[0] && f[|f| - 1] == value[|value| - 1];
  }

  lemma {:induction false} TwoFields(p: string, q: string)
    requires p != [] && q != [] && Trimmed(p) && Trimmed(q) && Closed(p, DELIMITERS) && Uncut(q, DELIMITERS)
    ensures SplitTopLevel(p + ", " + q, DELIMITERS) == [p, q]
  {
    assert [p, q][1..] == [q];
    assert Join([p, q], ", ") == p + ", " + q;
    assert "" + [','] + " " == ", ";
    SplitJoin([p, q], "", ',', " ", DELIMITERS);
  }

  /** The text between the braces of a type with two fields of unbalanced braces. */
  function Lopsided(a: string, b: string): string { Field(a, CLOSES_ONE) + ", " + Field(b, OPENS_ONE) }

  lemma {:induction false} LopsidedCloses(a: string, b: string)
    requires Identifier(a) && Identifier(b)
    ensures Quiet(INSIDE, Lopsided(a, b)) && After(INSIDE, Lopsided(a, b)) == INSIDE
  {
    var p, q := Field(a, CLOSES_ONE), Field(b, OPENS_ONE);
    LopsidedReads();
    FieldReads(INSIDE, a, CLOSES_ONE);
    FieldReads(START, b, OPENS_ONE);
    SeparatorPasses(START);
    QuietConcat(INSIDE, p + ", ", q);
    QuietConcat(INSIDE, p, ", ");
    AfterConcat(INSIDE, p + ", ", q);
    AfterConcat(INSIDE, p, ", ");
  }

  lemma {:induction false} LopsidedFields(a: string, b: string)
    requires Identifier(a) && Identifier(b)
    ensures SplitTopLevel(Lopsided(a, b), DELIMITERS) == [Field(a, CLOSES_ONE), Field(b, OPENS_ONE)]
  {
    LopsidedReads();
    UncutThree('[', '}', ']', DELIMITERS);
    UncutThree('[', '{', ']', DELIMITERS);
    FieldReads(START, a, CLOSES_ONE);
    FieldIsPart(a, CLOSES_ONE);
    FieldIsPart(b, OPENS_ONE);
    TwoFields(Field(a, CLOSES_ONE), Field(b, OPENS_ONE));
  }

  lemma {:induction false} SpanAfterEquals(inner: string)
    requires Quiet(INSIDE, inner) && After(INSIDE, inner) == INSIDE
    ensures TypeBodySpan(Whole("=", "", inner, "")) == Some((1, 2 + |inner|))
  {
    var text := "" + ['{'] + inner + (['}'] + "");
    var content := "=" + text;
    SpanAgain("", inner, "");
    FindAt("", '=', text);
    assert "" + ['='] + text == content;
    assert content[1..] == text;
  }

  lemma {:induction false} LopsidedFile(a: string, b: string)
    requires Identifier(a) && Identifier(b)
    ensures var inner := Lopsided(a, b);
      var content := Whole("=", "", inner, "");
      TypeBodySpan(content) == Some((1, 2 + |inner|)) && FieldsOf(content) == [Field(a, CLOSES_ONE), Field(b, OPENS_ONE)]
  {
    var inner := Lopsided(a, b);
    LopsidedCloses(a, b);
    SpanAfterEquals(inner);
    LopsidedFields(a, b);
    WholeInner("=", "", inner, "");
    FieldsAt(Whole("=", "", inner, ""), 1, 2 + |inner|, inner);
  }

  lemma KeepSecond(p: string, q: string, keep: string -> bool)
    requires !keep(p) && keep(q)
    ensures Select([p, q], Flags([p, q], keep)) == [q] && Join([q], ", ") == q
  {
    assert Flags([p, q], keep) == [false, true];
    assert [p, q][1..] == [q] && [false, true][1..] == [true] && [q][1..] == [] && [true][1..] == [];
    assert Select([q], [true]) == [q];
  }

  /** Of two fields the first is dropped, and the second leaves a brace open. */
  lemma {:induction false} SecondAlone(content: string, o: nat, c: nat, p: string, q: string, keep: string -> bool)
    requires TypeBodySpan(content) == Some((o, c)) && FieldsOf(content) == [p, q] && !keep(p) && keep(q)
    requires After(INSIDE, q).brace > 1
    ensures KeptFields(content, keep) == [q] && TypeBodySpan(FilterFields(content, keep)) != Some((o, o + 1 + |q|))
  {
    KeepSecond(p, q, keep);
    BodyFoundAgain(content, o, c, keep);
  }

  lemma {:induction false} SecondOpens(a: string, b: string, names: set<string>)
    requires Identifier(a) && Identifier(b) && a in names && b !in names
    ensures !Keeper(names)(Field(a, CLOSES_ONE)) && Keeper(names)(Field(b, OPENS_ONE))
    ensures After(INSIDE, Field(b, OPENS_ONE)).brace > 1
  {
    LopsidedReads();
    FieldReads(INSIDE, b, OPENS_ONE);
    PlainFieldStays(a, CLOSES_ONE, names);
    PlainFieldStays(b, OPENS_ONE, names);
  }

  /** A type with the fields `a:[}]` and `b:[{]`, of which the first is listed. Dropping it
      leaves a file in which the braces of the type are not found around the second. */
  lemma {:induction false} DroppedFieldLosesBody(a: string, b: string, names: set<string>)
    requires Identifier(a) && Identifier(b) && a in names && b !in names
    ensures var p, q := Field(a, CLOSES_ONE), Field(b, OPENS_ONE);
      var content := Whole("=", "", Lopsided(a, b), "");
      && TypeBodySpan(content) == Some((1, 2 + |Lopsided(a, b)|)) && FieldsOf(content) == [p, q]
      && KeptFields(content, Keeper(names)) == [q]
      && TypeBodySpan(FilterFields(content, Keeper(names))) != Some((1, 2 + |q|))
  {
    var p, q, inner := Field(a, CLOSES_ONE), Field(b, OPENS_ONE), Lopsided(a, b);
    LopsidedFile(a, b);
    SecondOpens(a, b, names);
    SecondAlone(Whole("=", "", inner, ""), 1, 2 + |inner|, p, q, Keeper(names));
  }

  lemma PlainFieldStays(name: string, value: string, names: set<string>)
    requires Identifier(name)
    ensures Keeper(names)(Field(name, value)) <==> name !in names
  {
    NamedFieldStays(name, false, value, names);
    assert name + "" + ":" + value == Field(name, value);
  }
}
