// Shared building blocks: optional values, the state of one browser-storage key,
// and the order-preserving filter that the application applies to its lists.
module Common {

  /** A JavaScript value that may be `null` or `undefined`. */
  datatype Option<+T> = None | Some(value: T)

  /** The content of one local-storage key, seen through `getItem` and `JSON.parse`:
      missing (or the empty string, which the code treats as missing), present but
      not parseable, or a parsed list of records. */
  datatype Slot<T> = Absent | Corrupt | Stored(items: seq<T>)

  /** `xs.filter(p)`: the elements satisfying `p`, in their original order. */
  function Keep<T>(xs: seq<T>, p: T -> bool): (r: seq<T>)
    ensures |r| <= |xs|
    ensures forall x :: x in r ==> x in xs && p(x)
  {
    if xs == [] then []
    else if p(xs[0]) then [xs[0]] + Keep(xs[1..], p)
    else Keep(xs[1..], p)
  }

  /** Nothing that satisfies `p` is lost: `Keep` selects exactly the elements with `p`. */
  lemma {:induction false} KeepMembers<T>(xs: seq<T>, p: T -> bool, x: T)
    ensures x in Keep(xs, p) <==> x in xs && p(x)
  {
    if xs != [] {
      KeepMembers(xs[1..], p, x);
      assert x in xs <==> x == xs[0] || x in xs[1..];
    }
  }

  /** `Keep` selects exactly the elements satisfying `p`, and everything when all do. */
  lemma KeepFacts<T>(s: seq<T>, p: T -> bool)
    ensures forall y :: y in Keep(s, p) <==> y in s && p(y)
    ensures (forall y :: y in s ==> p(y)) ==> Keep(s, p) == s
  {
    forall y | true
      ensures y in Keep(s, p) <==> y in s && p(y)
    {
      KeepMembers(s, p, y);
    }
    if forall y :: y in s ==> p(y) {
      KeepAll(s, p);
    }
  }

  /** Filtering commutes with concatenation, so the kept elements keep their relative order. */
  lemma {:induction false} KeepAppend<T>(a: seq<T>, b: seq<T>, p: T -> bool)
    ensures Keep(a + b, p) == Keep(a, p) + Keep(b, p)
  {
    if a == [] {
      assert a + b == b;
    } else {
      assert (a + b)[0] == a[0];
      assert (a + b)[1..] == a[1..] + b;
      KeepAppend(a[1..], b, p);
      var rest := Keep(a[1..], p) + Keep(b, p);
      if p(a[0]) {
        assert Keep(a + b, p) == [a[0]] + rest;
        assert [a[0]] + rest == ([a[0]] + Keep(a[1..], p)) + Keep(b, p);
      } else {
        assert Keep(a + b, p) == rest;
      }
    }
  }

  /** When every element passes, the filter returns the list unchanged. */
  lemma {:induction false} KeepAll<T>(xs: seq<T>, p: T -> bool)
    requires forall i :: 0 <= i < |xs| ==> p(xs[i])
    ensures Keep(xs, p) == xs
  {
    if xs != [] {
      KeepAll(xs[1..], p);
    }
  }

  /** The filtered list is a sub-multiset of the original: filtering never adds or duplicates. */
  lemma {:induction false} KeepSubMultiset<T>(xs: seq<T>, p: T -> bool)
    ensures multiset(Keep(xs, p)) <= multiset(xs)
  {
    if xs != [] {
      KeepSubMultiset(xs[1..], p);
      assert xs == [xs[0]] + xs[1..];
    }
  }
}
