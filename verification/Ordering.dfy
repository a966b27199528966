/** Sorting by a comparison that is a total order on the elements at hand, and
    the lexicographic order on strings that Rust's `String::cmp` uses. */
module Ordering {

  ghost predicate AntisymmetricOn<T(!new)>(le: (T, T) -> bool, s: seq<T>) {
    forall a, b {:trigger le(a, b), le(b, a)} | a in s && b in s && le(a, b) && le(b, a) :: a == b
  }

  /** `le` is total, transitive and antisymmetric on the elements of `s`. */
  ghost predicate OrderedOn<T(!new)>(le: (T, T) -> bool, s: seq<T>) {
    && (forall a, b {:trigger le(a, b)} | a in s && b in s :: le(a, b) || le(b, a))
    && AntisymmetricOn(le, s)
    && (forall a, b, c {:trigger le(a, b), le(b, c)} | a in s && b in s && c in s && le(a, b) && le(b, c) :: le(a, c))
  }

  ghost predicate Sorted<T(!new)>(le: (T, T) -> bool, s: seq<T>) {
    forall i, j | 0 <= i < j < |s| :: le(s[i], s[j])
  }

  function Insert<T(!new)>(le: (T, T) -> bool, x: T, s: seq<T>): seq<T> {
    if s == [] then [x]
    else if le(x, s[0]) then [x] + s
    else [s[0]] + Insert(le, x, s[1..])
  }

  function Sort<T(!new)>(le: (T, T) -> bool, s: seq<T>): seq<T> {
    if s == [] then [] else Insert(le, s[0], Sort(le, s[1..]))
  }

  lemma {:induction false} InsertKeepsElements<T(!new)>(le: (T, T) -> bool, x: T, s: seq<T>)
    ensures multiset(Insert(le, x, s)) == multiset{x} + multiset(s)
  {
    if s != [] {
      assert s == [s[0]] + s[1..];
      if !le(x, s[0]) {
        InsertKeepsElements(le, x, s[1..]);
      }
    }
  }

  /** Sorting permutes: no element is lost, added or repeated. */
  lemma {:induction false} SortKeepsElements<T(!new)>(le: (T, T) -> bool, s: seq<T>)
    ensures multiset(Sort(le, s)) == multiset(s)
    ensures |Sort(le, s)| == |s|
  {
    if s != [] {
      assert s == [s[0]] + s[1..];
      SortKeepsElements(le, s[1..]);
      InsertKeepsElements(le, s[0], Sort(le, s[1..]));
    }
    assert |multiset(Sort(le, s))| == |multiset(s)|;
  }

  lemma SameElements<T(!new)>(a: seq<T>, b: seq<T>)
    requires multiset(a) == multiset(b)
    ensures forall x :: x in a <==> x in b
  {
    forall x ensures x in a <==> x in b {
      assert x in a <==> x in multiset(a);
      assert x in b <==> x in multiset(b);
    }
  }

  lemma {:induction false} InsertSorts<T(!new)>(le: (T, T) -> bool, x: T, s: seq<T>)
    requires OrderedOn(le, [x] + s) && Sorted(le, s)
    ensures Sorted(le, Insert(le, x, s))
  {
    assert x in [x] + s;
    assert forall y :: y in s ==> y in [x] + s;
    if s != [] {
      if le(x, s[0]) {
        forall j | 0 <= j < |s| ensures le(x, s[j]) {
          assert s[0] in s && s[j] in s;
        }
      } else {
        assert forall y :: y in s[1..] ==> y in s;
        InsertSorts(le, x, s[1..]);
        var r := Insert(le, x, s[1..]);
        InsertKeepsElements(le, x, s[1..]);
        forall j | 0 <= j < |r| ensures le(s[0], r[j]) {
          assert r[j] in multiset(r);
          assert s[0] in s;
          assert r[j] == x || r[j] in s[1..];
        }
      }
    }
  }

  lemma OrderedOnFewer<T(!new)>(le: (T, T) -> bool, s: seq<T>, t: seq<T>)
    requires OrderedOn(le, s)
    requires forall x :: x in t ==> x in s
    ensures OrderedOn(le, t)
  {
  }

  lemma {:induction false} SortSorts<T(!new)>(le: (T, T) -> bool, s: seq<T>)
    requires OrderedOn(le, s)
    ensures Sorted(le, Sort(le, s))
  {
    if s != [] {
      OrderedOnFewer(le, s, s[1..]);
      SortSorts(le, s[1..]);
      var t := Sort(le, s[1..]);
      SortKeepsElements(le, s[1..]);
      SameElements(t, s[1..]);
      forall y | y in [s[0]] + t ensures y in s {
        assert y == s[0] || y in t;
        assert y in t ==> y in s[1..];
      }
      OrderedOnFewer(le, s, [s[0]] + t);
      InsertSorts(le, s[0], t);
    }
  }

  lemma HeadsAgree<T(!new)>(le: (T, T) -> bool, a: seq<T>, b: seq<T>)
    requires a != [] && b != []
    requires AntisymmetricOn(le, a) && Sorted(le, a) && Sorted(le, b)
    requires multiset(a) == multiset(b)
    ensures a[0] == b[0]
  {
    SameElements(a, b);
    assert b[0] in a && a[0] in b;
    var i :| 0 <= i < |a| && a[i] == b[0];
    var j :| 0 <= j < |b| && b[j] == a[0];
    if i != 0 && j != 0 {
      assert le(a[0], a[i]) && le(b[0], b[j]);
      assert a[0] in a;
    }
  }

  /** Two sorted arrangements of the same elements are the same list. */
  lemma {:induction false} SortedIsUnique<T(!new)>(le: (T, T) -> bool, a: seq<T>, b: seq<T>)
    requires AntisymmetricOn(le, a) && Sorted(le, a) && Sorted(le, b)
    requires multiset(a) == multiset(b)
    ensures a == b
  {
    assert |multiset(a)| == |multiset(b)|;
    if a != [] {
      HeadsAgree(le, a, b);
      assert a == [a[0]] + a[1..] && b == [b[0]] + b[1..];
      assert multiset(a[1..]) == multiset(a) - multiset{a[0]};
      assert multiset(b[1..]) == multiset(b) - multiset{b[0]};
      SortedIsUnique(le, a[1..], b[1..]);
    }
  }

  /** Hence sorting forgets the order of its input. */
  lemma SortForgetsOrder<T(!new)>(le: (T, T) -> bool, a: seq<T>, b: seq<T>)
    requires OrderedOn(le, a) && multiset(a) == multiset(b)
    ensures Sort(le, a) == Sort(le, b)
  {
    SameElements(a, b);
    OrderedOnFewer(le, a, b);
    SortSorts(le, a);
    SortSorts(le, b);
    SortKeepsElements(le, a);
    SortKeepsElements(le, b);
    SameElements(a, Sort(le, a));
    OrderedOnFewer(le, a, Sort(le, a));
    SortedIsUnique(le, Sort(le, a), Sort(le, b));
  }

  // ----- strings -----

  predicate LexLe(a: string, b: string) {
    if a == [] then true
    else if b == [] then false
    else a[0] < b[0] || (a[0] == b[0] && LexLe(a[1..], b[1..]))
  }

  lemma {:induction false} LexTotal(a: string, b: string)
    ensures LexLe(a, b) || LexLe(b, a)
  {
    if a != [] && b != [] { LexTotal(a[1..], b[1..]); }
  }

  lemma {:induction false} LexAntisymmetric(a: string, b: string)
    requires LexLe(a, b) && LexLe(b, a)
    ensures a == b
  {
    if a != [] && b != [] {
      LexAntisymmetric(a[1..], b[1..]);
      assert a == [a[0]] + a[1..] && b == [b[0]] + b[1..];
    }
  }

  lemma {:induction false} LexTransitive(a: string, b: string, c: string)
    requires LexLe(a, b) && LexLe(b, c)
    ensures LexLe(a, c)
  {
    if a != [] && a[0] == b[0] == c[0] { LexTransitive(a[1..], b[1..], c[1..]); }
  }

  /** The order of dictionaries: the shorter of two that agree, else by the first character
      in which they differ. */
  lemma {:induction false} LexIsDictionary(a: string, b: string)
    ensures LexLe(a, b) <==> a <= b || exists i | 0 <= i < |a| && i < |b| :: a[..i] == b[..i] && a[i] < b[i]
  {
    if a != [] && b != [] && a[0] == b[0] {
      var x, y := a[1..], b[1..];
      LexIsDictionary(x, y);
      assert a == [a[0]] + x && b == [b[0]] + y;
      if i :| 0 <= i < |x| && i < |y| && x[..i] == y[..i] && x[i] < y[i] {
        assert a[..i + 1] == [a[0]] + x[..i] && b[..i + 1] == [b[0]] + y[..i];
      }
      if i :| 0 <= i < |a| && i < |b| && a[..i] == b[..i] && a[i] < b[i] {
        assert x[..i - 1] == a[..i][1..] && y[..i - 1] == b[..i][1..];
        assert x[i - 1] < y[i - 1];
      }
    } else if a != [] && b != [] && a[0] < b[0] {
      assert a[..0] == b[..0];
    } else if a != [] && b != [] {
      assert forall i | 0 < i < |a| && i < |b| :: a[..i][0] != b[..i][0];
    }
  }

  lemma {:induction false} LexAfter(p: string, a: string, b: string)
    ensures LexLe(p + a, p + b) <==> LexLe(a, b)
  {
    if p == [] {
      assert p + a == a && p + b == b;
    } else {
      assert (p + a)[1..] == p[1..] + a && (p + b)[1..] == p[1..] + b;
      LexAfter(p[1..], a, b);
    }
  }
}
