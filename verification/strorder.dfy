/**
 * Python's ordering of str values (lexicographic by code point) and sorted()
 * applied to a set of strings, as history.save does with the finished set.
 */
module StrOrder {

  /** a <= b for Python strings. */
  predicate Leq(a: string, b: string)
    decreases |a|
  {
    a == [] || (b != [] && (a[0] < b[0] || (a[0] == b[0] && Leq(a[1..], b[1..]))))
  }

  /** a < b for Python strings. */
  predicate Lt(a: string, b: string) {
    Leq(a, b) && a != b
  }

  lemma {:induction false} LeqTotal(a: string, b: string)
    ensures Leq(a, b) || Leq(b, a)
    decreases |a|
  {
    if a != [] && b != [] && a[0] == b[0] {
      LeqTotal(a[1..], b[1..]);
    }
  }

  lemma {:induction false} LeqAntisymmetric(a: string, b: string)
    requires Leq(a, b) && Leq(b, a)
    ensures a == b
    decreases |a|
  {
    if a != [] {
      LeqAntisymmetric(a[1..], b[1..]);
      assert a == [a[0]] + a[1..] && b == [b[0]] + b[1..];
    }
  }

  lemma {:induction false} LeqTransitive(a: string, b: string, c: string)
    requires Leq(a, b) && Leq(b, c)
    ensures Leq(a, c)
    decreases |a|
  {
    if a != [] && a[0] == b[0] && b[0] == c[0] {
      LeqTransitive(a[1..], b[1..], c[1..]);
    }
  }

  lemma LtTransitive(a: string, b: string, c: string)
    requires Lt(a, b) && Lt(b, c)
    ensures Lt(a, c)
  {
    LeqTransitive(a, b, c);
    if a == c { LeqAntisymmetric(a, b); }
  }

  /** The set of elements of a list. */
  function Elems(s: seq<string>): set<string> {
    set x | x in s
  }

  /** Every element is strictly below every later one: sorted and free of duplicates. */
  predicate StrictlySorted(s: seq<string>) {
    forall i, j :: 0 <= i < j < |s| ==> Lt(s[i], s[j])
  }

  /** Inserts x into its place in a strictly sorted list, unless it is already there. */
  function Insert(x: string, s: seq<string>): (r: seq<string>)
    requires StrictlySorted(s)
    ensures StrictlySorted(r) && Elems(r) == Elems(s) + {x}
  {
    if s == [] then [x]
    else if x == s[0] then s
    else if Leq(x, s[0]) then
      PrependSmaller(x, s);
      [x] + s
    else
      LeqTotal(x, s[0]);
      var t := Insert(x, s[1..]);
      InsertBehindHead(x, s, t);
      [s[0]] + t
  }

  lemma PrependSmaller(x: string, s: seq<string>)
    requires StrictlySorted(s) && s != [] && Lt(x, s[0])
    ensures StrictlySorted([x] + s) && Elems([x] + s) == Elems(s) + {x}
  {
    assert forall j :: 0 <= j < |s| ==> Lt(x, s[j]) by {
      forall j | 0 <= j < |s| ensures Lt(x, s[j]) {
        if j > 0 { LtTransitive(x, s[0], s[j]); }
      }
    }
    assert Elems([x] + s) == Elems(s) + {x} by {
      assert forall y :: y in [x] + s <==> y == x || y in s;
    }
  }

  lemma InsertBehindHead(x: string, s: seq<string>, t: seq<string>)
    requires StrictlySorted(s) && s != [] && Lt(s[0], x)
    requires StrictlySorted(t) && Elems(t) == Elems(s[1..]) + {x}
    ensures StrictlySorted([s[0]] + t) && Elems([s[0]] + t) == Elems(s) + {x}
  {
    assert Elems(s) == Elems(s[1..]) + {s[0]} by {
      assert s == [s[0]] + s[1..];
      assert forall y :: y in s <==> y == s[0] || y in s[1..];
    }
    assert forall y :: y in t ==> Lt(s[0], y) by {
      forall y | y in t ensures Lt(s[0], y) {
        assert y in Elems(t);
        if y != x {
          var j :| 0 <= j < |s[1..]| && s[1..][j] == y;
          assert s[j + 1] == y;
        }
      }
    }
    assert Elems([s[0]] + t) == Elems(t) + {s[0]} by {
      assert forall y :: y in [s[0]] + t <==> y == s[0] || y in t;
    }
    forall i, j | 0 <= i < j < |t| + 1 ensures Lt(([s[0]] + t)[i], ([s[0]] + t)[j]) {
      if i == 0 { assert ([s[0]] + t)[j] == t[j - 1]; assert t[j - 1] in t; }
    }
  }

  /**
   * The list sorted() returns for a set of strings. Which element the
   * definition picks first does not matter: see SortedUnique.
   */
  ghost function SortedSeq(s: set<string>): (r: seq<string>)
    ensures StrictlySorted(r) && Elems(r) == s
    decreases |s|
  {
    if s == {} then []
    else
      var x :| x in s;
      Insert(x, SortedSeq(s - {x}))
  }

  /** There is only one strictly sorted list with a given set of elements. */
  lemma {:induction false} SortedUnique(a: seq<string>, b: seq<string>)
    requires StrictlySorted(a) && StrictlySorted(b) && Elems(a) == Elems(b)
    ensures a == b
    decreases |a|
  {
    if a == [] {
      DistinctCard(b);
    } else {
      assert a[0] in Elems(b) && b != [];
      assert b[0] in Elems(a);
      if a[0] != b[0] {
        var i :| 0 <= i < |a| && a[i] == b[0];
        var j :| 0 <= j < |b| && b[j] == a[0];
        assert Lt(a[0], b[0]) && Lt(b[0], a[0]);
        LeqAntisymmetric(a[0], b[0]);
        assert false;
      }
      assert a == [a[0]] + a[1..] && b == [b[0]] + b[1..];
      forall y ensures y in Elems(a[1..]) <==> y in Elems(b[1..]) {
        if y in a[1..] {
          var i :| 0 <= i < |a[1..]| && a[1..][i] == y;
          assert a[i + 1] == y && Lt(a[0], a[i + 1]);
          assert y in Elems(a);
          assert y in Elems(b) && y != b[0];
        }
        if y in b[1..] {
          var i :| 0 <= i < |b[1..]| && b[1..][i] == y;
          assert b[i + 1] == y && Lt(b[0], b[i + 1]);
          assert y in Elems(b);
          assert y in Elems(a) && y != a[0];
        }
      }
      SortedUnique(a[1..], b[1..]);
      assert a == [a[0]] + a[1..] && b == [b[0]] + b[1..];
    }
  }

  /** The sorted list has exactly one entry per element of the set. */
  lemma SortedSeqLength(s: set<string>)
    ensures |SortedSeq(s)| == |s|
  {
    DistinctCard(SortedSeq(s));
  }

  lemma {:induction false} DistinctCard(a: seq<string>)
    requires StrictlySorted(a)
    ensures |Elems(a)| == |a|
  {
    if a != [] {
      DistinctCard(a[1..]);
      assert a[0] !in Elems(a[1..]) by {
        forall i | 0 <= i < |a[1..]| ensures a[1..][i] != a[0] {
          assert Lt(a[0], a[i + 1]);
        }
      }
      assert Elems(a) == Elems(a[1..]) + {a[0]} by {
        assert a == [a[0]] + a[1..];
        assert forall y :: y in a <==> y == a[0] || y in a[1..];
      }
    }
  }

  /**
   * sorted(s) for a set of strings: the set is visited in whatever order it
   * iterates and each element is put in its place; the result does not
   * depend on that order.
   */
  method SortSet(s: set<string>) returns (r: seq<string>)
    ensures r == SortedSeq(s)
  {
    r := [];
    var rest := s;
    while rest != {}
      invariant StrictlySorted(r)
      invariant rest <= s && Elems(r) == s - rest
      decreases |rest|
    {
      var x :| x in rest;
      r := Insert(x, r);
      rest := rest - {x};
    }
    SortedUnique(r, SortedSeq(s));
  }
}
