/**
 * Python's ordering of `str` values (lexicographic on code points, a proper
 * prefix first) and `sorted(...)` of a set of strings, which the pipeline
 * uses for month keys, provider buckets and opportunity ids.
 */
module StrOrder {

  /** Python's `a < b` on strings. */
  predicate StrLt(a: string, b: string)
    decreases |a|
  {
    if a == [] then b != []
    else if b == [] then false
    else if a[0] != b[0] then a[0] < b[0]
    else StrLt(a[1..], b[1..])
  }

  /** Python's `a <= b` on strings. */
  predicate StrLe(a: string, b: string) {
    a == b || StrLt(a, b)
  }

  lemma {:induction false} StrLtIrreflexive(a: string)
    ensures !StrLt(a, a)
    decreases |a|
  {
    if a != [] { StrLtIrreflexive(a[1..]); }
  }

  lemma {:induction false} StrLtTransitive(a: string, b: string, c: string)
    requires StrLt(a, b) && StrLt(b, c)
    ensures StrLt(a, c)
    decreases |a|
  {
    if a != [] && b != [] && c != [] && a[0] == b[0] && b[0] == c[0] {
      StrLtTransitive(a[1..], b[1..], c[1..]);
    }
  }

  lemma {:induction false} StrLtTotal(a: string, b: string)
    ensures a == b || StrLt(a, b) || StrLt(b, a)
    decreases |a|
  {
    if a != [] && b != [] && a[0] == b[0] {
      StrLtTotal(a[1..], b[1..]);
      if a[1..] == b[1..] {
        assert a == [a[0]] + a[1..] && b == [b[0]] + b[1..];
      }
    }
  }

  lemma StrLtAsymmetric(a: string, b: string)
    requires StrLt(a, b)
    ensures !StrLt(b, a) && a != b
  {
    StrLtIrreflexive(a);
    if StrLt(b, a) { StrLtTransitive(a, b, a); }
  }

  /** Strictly increasing, hence also free of duplicates. */
  predicate StrictlySorted(s: seq<string>) {
    forall i, j :: 0 <= i < j < |s| ==> StrLt(s[i], s[j])
  }

  /** The least element of a non-empty finite set of strings. */
  method MinOf(s: set<string>) returns (m: string)
    requires s != {}
    ensures m in s
    ensures forall y :: y in s ==> StrLe(m, y)
  {
    var x :| x in s;
    m := x;
    var todo := s - {x};
    while todo != {}
      invariant m in s && todo <= s
      invariant forall y :: y in s && y !in todo ==> StrLe(m, y)
      decreases |todo|
    {
      var y :| y in todo;
      if StrLt(y, m) {
        forall z | z in s && z !in todo
          ensures StrLe(y, z)
        {
          if z != m { StrLtTransitive(y, m, z); }
        }
        m := y;
      } else {
        StrLtTotal(m, y);
      }
      todo := todo - {y};
    }
  }

  /** `sorted(xs)` for a set of strings: its elements in strictly increasing order. */
  method SortStrings(xs: set<string>) returns (r: seq<string>)
    ensures StrictlySorted(r)
    ensures forall x :: x in r <==> x in xs
  {
    r := [];
    var rest := xs;
    while rest != {}
      invariant rest <= xs
      invariant StrictlySorted(r)
      invariant forall x :: x in r <==> x in xs && x !in rest
      invariant forall i, y :: 0 <= i < |r| && y in rest ==> StrLt(r[i], y)
      decreases |rest|
    {
      var m := MinOf(rest);
      forall i, y | 0 <= i < |r| && y in rest - {m}
        ensures StrLt(r[i], y)
      {
      }
      r := r + [m];
      forall y | y in rest - {m}
        ensures StrLt(m, y)
      {
        assert StrLe(m, y);
      }
      rest := rest - {m};
    }
  }

  /** The head of a strictly sorted list is its least element. */
  lemma SortedHeadLeast(s: seq<string>, x: string)
    requires StrictlySorted(s) && x in s
    ensures StrLe(s[0], x)
  {
    var i :| 0 <= i < |s| && s[i] == x;
  }

  /**
   * A strictly sorted list is determined by its elements, so the two
   * postconditions of SortStrings fix its result completely.
   */
  lemma {:induction false} SortedUnique(a: seq<string>, b: seq<string>)
    requires StrictlySorted(a) && StrictlySorted(b)
    requires forall x :: x in a <==> x in b
    ensures a == b
    decreases |a|
  {
    assert a != [] ==> a[0] in a;
    assert b != [] ==> b[0] in b;
    if a != [] && b != [] {
      SortedHeadLeast(a, b[0]);
      SortedHeadLeast(b, a[0]);
      if a[0] != b[0] { StrLtAsymmetric(a[0], b[0]); }
      forall x ensures x in a[1..] <==> x in b[1..] {
        if x in a[1..] {
          var i :| 1 <= i < |a| && a[i] == x;
          StrLtAsymmetric(a[0], a[i]);
          assert x in a && x in b;
          var k :| 0 <= k < |b| && b[k] == x;
          assert k != 0;
          assert x == b[1..][k - 1];
        }
        if x in b[1..] {
          var i :| 1 <= i < |b| && b[i] == x;
          StrLtAsymmetric(b[0], b[i]);
          assert x in b && x in a;
          var k :| 0 <= k < |a| && a[k] == x;
          assert k != 0;
          assert x == a[1..][k - 1];
        }
      }
      SortedUnique(a[1..], b[1..]);
      assert a == [a[0]] + a[1..] && b == [b[0]] + b[1..];
    }
  }
}
