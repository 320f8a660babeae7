// `Array.prototype.sort` with a comparator: since ES2019 the sort is stable, so
// it is modelled as an insertion sort (its stability is lemma SortByStable),
// where `le(a, b)` stands for "the comparator does not put `b` before `a`"
// (comparator(a, b) <= 0).
module Sorting {
  import opened Common

  /** `le` is a total preorder: any two elements compare, and comparison chains. */
  ghost predicate TotalPreorder<T(!new)>(le: (T, T) -> bool) {
    && (forall a, b :: le(a, b) || le(b, a))
    && (forall a, b, c :: le(a, b) && le(b, c) ==> le(a, c))
  }

  /** Every element may stand before every later one. */
  ghost predicate SortedBy<T>(s: seq<T>, le: (T, T) -> bool) {
    forall i, j :: 0 <= i < j < |s| ==> le(s[i], s[j])
  }

  /** Places `x` in front of the first element it may precede. */
  function Insert<T>(x: T, s: seq<T>, le: (T, T) -> bool): (r: seq<T>)
    ensures multiset(r) == multiset(s) + multiset{x}
    ensures |r| == |s| + 1
  {
    if s == [] || le(x, s[0]) then [x] + s
    else
      assert s == [s[0]] + s[1..];
      [s[0]] + Insert(x, s[1..], le)
  }

  /** The sorted copy of `s`; elements that compare equal keep their original order. */
  function SortBy<T>(s: seq<T>, le: (T, T) -> bool): (r: seq<T>)
    ensures multiset(r) == multiset(s)
    ensures |r| == |s|
  {
    if s == [] then []
    else
      assert s == [s[0]] + s[1..];
      Insert(s[0], SortBy(s[1..], le), le)
  }

  lemma {:induction false} InsertSorted<T(!new)>(x: T, s: seq<T>, le: (T, T) -> bool)
    requires TotalPreorder(le)
    requires SortedBy(s, le)
    ensures SortedBy(Insert(x, s, le), le)
  {
    if s == [] || le(x, s[0]) {
      var r := [x] + s;
      forall i, j | 0 <= i < j < |r|
        ensures le(r[i], r[j])
      {
        if i == 0 && j > 1 {
          assert le(x, s[0]) && le(s[0], s[j - 1]);
        }
      }
    } else {
      var tail := Insert(x, s[1..], le);
      assert SortedBy(s[1..], le);
      InsertSorted(x, s[1..], le);
      var r := [s[0]] + tail;
      forall i, j | 0 <= i < j < |r|
        ensures le(r[i], r[j])
      {
        if i == 0 {
          var y := tail[j - 1];
          assert y in multiset(tail);
          assert y == x || y in multiset(s[1..]);
          if y != x {
            var k :| 0 <= k < |s[1..]| && s[1..][k] == y;
            assert le(s[0], s[k + 1]);
          }
        }
      }
    }
  }

  /** Under a total preorder the result is sorted: together with the multiset
      equality of `SortBy`'s contract, it is a sorted permutation. */
  lemma {:induction false} SortBySorted<T(!new)>(s: seq<T>, le: (T, T) -> bool)
    requires TotalPreorder(le)
    ensures SortedBy(SortBy(s, le), le)
  {
    if s != [] {
      SortBySorted(s[1..], le);
      InsertSorted(s[0], SortBy(s[1..], le), le);
    }
  }

  /** The elements that compare equal to `e` in both directions. */
  function Ties<T>(le: (T, T) -> bool, e: T): T -> bool {
    (y: T) => le(y, e) && le(e, y)
  }

  /** Among the elements tied with `e`, an inserted tie goes before those already there. */
  lemma {:induction false} InsertBeforeTies<T(!new)>(x: T, t: seq<T>, le: (T, T) -> bool, e: T)
    requires TotalPreorder(le)
    ensures Keep(Insert(x, t, le), Ties(le, e))
            == (if Ties(le, e)(x) then [x] else []) + Keep(t, Ties(le, e))
  {
    var p := Ties(le, e);
    if t == [] || le(x, t[0]) {
      var r := [x] + t;
      assert r[0] == x && r[1..] == t;
    } else {
      var tail := Insert(x, t[1..], le);
      var r := [t[0]] + tail;
      assert r[0] == t[0] && r[1..] == tail;
      InsertBeforeTies(x, t[1..], le, e);
      assert p(x) ==> !p(t[0]);
    }
  }

  /** The sort is stable: the elements tied with any `e` come out in their input order. */
  lemma {:induction false} SortByStable<T(!new)>(s: seq<T>, le: (T, T) -> bool, e: T)
    requires TotalPreorder(le)
    ensures Keep(SortBy(s, le), Ties(le, e)) == Keep(s, Ties(le, e))
  {
    if s != [] {
      SortByStable(s[1..], le, e);
      InsertBeforeTies(s[0], SortBy(s[1..], le), le, e);
    }
  }

  /** Elements of a permutation are elements of the original. */
  lemma PermutationMembers<T>(s: seq<T>, t: seq<T>, x: T)
    requires multiset(s) == multiset(t)
    ensures x in s <==> x in t
  {
    assert x in s <==> x in multiset(s);
    assert x in t <==> x in multiset(t);
  }

  /** `x` and `y` stand at two different positions `a` and `b` of `s`. */
  predicate TwoPositions<T(==)>(s: seq<T>, x: T, y: T, a: int, b: int) {
    0 <= a < |s| && 0 <= b < |s| && a != b && s[a] == x && s[b] == y
  }

  /** A value found at two positions occurs at least twice. */
  lemma OccursTwice<T>(t: seq<T>, i: int, j: int)
    requires 0 <= i < j < |t| && t[i] == t[j]
    ensures multiset(t)[t[i]] >= 2
  {
    var x := t[i];
    assert t == t[..j] + [t[j]] + t[j + 1..];
    assert x in t[..j] by {
      assert t[..j][i] == x;
    }
    assert multiset(t)[x] == multiset(t[..j])[x] + 1 + multiset(t[j + 1..])[x];
  }

  /** A value occurring at least twice has a second position besides `a`. */
  lemma SecondPosition<T>(s: seq<T>, a: int)
    requires 0 <= a < |s| && multiset(s)[s[a]] >= 2
    ensures exists b :: TwoPositions(s, s[a], s[a], a, b)
  {
    var x := s[a];
    var rest := s[..a] + s[a + 1..];
    assert s == s[..a] + [s[a]] + s[a + 1..];
    assert multiset(s) == multiset(rest) + multiset{x};
    assert x in multiset(rest);
    var c :| 0 <= c < |rest| && rest[c] == x;
    if c < a {
      assert s[c] == rest[c];
      assert TwoPositions(s, x, x, a, c);
    } else {
      assert s[c + 1] == rest[c];
      assert TwoPositions(s, x, x, a, c + 1);
    }
  }

  /** Two positions of a permutation come from two different positions of the original. */
  lemma PermutationPositions<T>(s: seq<T>, t: seq<T>, i: int, j: int)
    requires multiset(s) == multiset(t)
    requires 0 <= i < j < |t|
    ensures exists a, b :: TwoPositions(s, t[i], t[j], a, b)
  {
    var x, y := t[i], t[j];
    assert x in multiset(s) && y in multiset(s);
    var a :| 0 <= a < |s| && s[a] == x;
    if x != y {
      var b :| 0 <= b < |s| && s[b] == y;
      assert TwoPositions(s, x, y, a, b);
    } else {
      OccursTwice(t, i, j);
      SecondPosition(s, a);
    }
  }
}
