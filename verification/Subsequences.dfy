/** Subsequences: what is left of a list when some of its elements are dropped. */
module Subsequences {

  predicate Sub<T(==)>(a: seq<T>, b: seq<T>)
    decreases |b|
  {
    a == []
    || (b != [] && a[|a| - 1] == b[|b| - 1] && Sub(a[..|a| - 1], b[..|b| - 1]))
    || (b != [] && Sub(a, b[..|b| - 1]))
  }

  lemma SubSnoc<T>(a: seq<T>, b: seq<T>, x: T)
    requires Sub(a, b)
    ensures Sub(a, b + [x]) && Sub(a + [x], b + [x])
  {
    assert (b + [x])[..|b|] == b && (a + [x])[..|a|] == a;
  }

  lemma {:induction false} SubLength<T>(a: seq<T>, b: seq<T>)
    requires Sub(a, b)
    ensures |a| <= |b| && (|a| == |b| ==> a == b)
    decreases |b|
  {
    if a != [] {
      var b' := b[..|b| - 1];
      if Sub(a, b') {
        SubLength(a, b');
      } else {
        SubLength(a[..|a| - 1], b');
        assert a == a[..|a| - 1] + [a[|a| - 1]] && b == b' + [b[|b| - 1]];
      }
    }
  }

  /** Dropping one element of a subsequence leaves a subsequence. */
  lemma {:induction false} SubDrop<T>(p: seq<T>, x: T, q: seq<T>, b: seq<T>)
    requires Sub(p + [x] + q, b)
    ensures Sub(p + q, b)
    decreases |b|
  {
    var a := p + [x] + q;
    var a', b' := a[..|a| - 1], b[..|b| - 1];
    if Sub(a, b') {
      SubDrop(p, x, q, b');
    } else if q == [] {
      assert a' == p && p + q == p;
    } else {
      var q' := q[..|q| - 1];
      assert a' == p + [x] + q';
      SubDrop(p, x, q', b');
      assert (p + q)[..|p + q| - 1] == p + q';
    }
  }

  lemma {:induction false} SubTransitive<T>(a: seq<T>, b: seq<T>, c: seq<T>)
    requires Sub(a, b) && Sub(b, c)
    ensures Sub(a, c)
    decreases |c|
  {
    if a != [] {
      if Sub(b, c[..|c| - 1]) {
        SubTransitive(a, b, c[..|c| - 1]);
      } else if Sub(a, b[..|b| - 1]) {
        SubTransitive(a, b[..|b| - 1], c[..|c| - 1]);
      } else {
        SubTransitive(a[..|a| - 1], b[..|b| - 1], c[..|c| - 1]);
      }
    }
  }

  /** The elements with a given key, in order. */
  function Only<T, K(==)>(s: seq<T>, key: T -> K, k: K): seq<T>
    decreases |s|
  {
    if s == [] then []
    else
      var n := |s| - 1;
      Only(s[..n], key, k) + if key(s[n]) == k then [s[n]] else []
  }

  /** Choosing the elements with one key keeps the subsequence relation. */
  lemma {:induction false} SubOnly<T, K>(a: seq<T>, b: seq<T>, key: T -> K, k: K)
    requires Sub(a, b)
    ensures Sub(Only(a, key, k), Only(b, key, k))
    decreases |b|
  {
    if a != [] {
      var b' := b[..|b| - 1];
      if Sub(a, b') {
        SubOnly(a, b', key, k);
        GrowRight(Only(a, key, k), Only(b', key, k), key, k, b[|b| - 1]);
      } else {
        SubOnly(a[..|a| - 1], b', key, k);
        GrowBoth(Only(a[..|a| - 1], key, k), Only(b', key, k), key, k, b[|b| - 1]);
      }
    }
  }

  lemma GrowRight<T, K>(a: seq<T>, b: seq<T>, key: T -> K, k: K, x: T)
    requires Sub(a, b)
    ensures Sub(a, b + if key(x) == k then [x] else [])
  {
    SubSnoc(a, b, x);
    assert b + [] == b;
  }

  lemma GrowBoth<T, K>(a: seq<T>, b: seq<T>, key: T -> K, k: K, x: T)
    requires Sub(a, b)
    ensures Sub(a + if key(x) == k then [x] else [], b + if key(x) == k then [x] else [])
  {
    SubSnoc(a, b, x);
    assert b + [] == b && a + [] == a;
  }

  lemma {:induction false} SubMembers<T>(a: seq<T>, b: seq<T>)
    requires Sub(a, b)
    ensures forall x :: x in a ==> x in b
    decreases |b|
  {
    if a != [] {
      var b' := b[..|b| - 1];
      assert b == b' + [b[|b| - 1]];
      if Sub(a, b') {
        SubMembers(a, b');
      } else {
        SubMembers(a[..|a| - 1], b');
        assert a == a[..|a| - 1] + [a[|a| - 1]];
      }
    }
  }
}
