/** Sets of identifiers listed in ascending order, as the routing code does before it iterates a map. */
module Ascending {

  predicate StrictlyAscending(s: seq<nat>) {
    forall i, j | 0 <= i < j < |s| :: s[i] < s[j]
  }

  lemma LastIsGreatest(s: seq<nat>, x: nat)
    requires StrictlyAscending(s) && x in s
    ensures x <= s[|s| - 1]
    ensures x in s[..|s| - 1] <==> x != s[|s| - 1]
  {
    var k :| 0 <= k < |s| && s[k] == x;
    if k < |s| - 1 {
      assert s[..|s| - 1][k] == x;
    }
  }

  lemma HeadIsMember(s: seq<nat>)
    ensures s == [] || s[0] in s
  {
  }

  /** Two ascending listings of the same set are the same listing. */
  lemma {:induction false} AscendingUnique(a: seq<nat>, b: seq<nat>)
    requires StrictlyAscending(a) && StrictlyAscending(b)
    requires forall x :: x in a <==> x in b
    ensures a == b
    decreases |a|
  {
    if a != [] && b != [] {
      var a', b', x, y := a[..|a| - 1], b[..|b| - 1], a[|a| - 1], b[|b| - 1];
      assert x in a && y in b;
      LastIsGreatest(a, y);
      LastIsGreatest(b, x);
      forall k: nat ensures k in a' <==> k in b' {
        if k in a {
          LastIsGreatest(a, k);
          LastIsGreatest(b, k);
        }
      }
      AscendingUnique(a', b');
      assert a == a' + [x] && b == b' + [y];
    } else {
      HeadIsMember(a);
      HeadIsMember(b);
    }
  }

  lemma SpliceAscending(s: seq<nat>, i: nat, x: nat)
    requires StrictlyAscending(s) && i <= |s|
    requires forall k | 0 <= k < i :: s[k] < x
    requires forall k | i <= k < |s| :: x < s[k]
    ensures StrictlyAscending(s[..i] + [x] + s[i..])
  {
    var r := s[..i] + [x] + s[i..];
    forall j, k | 0 <= j < k < |r| ensures r[j] < r[k] {
      assert r[j] == if j < i then s[j] else if j == i then x else s[j - 1];
      assert r[k] == if k < i then s[k] else if k == i then x else s[k - 1];
    }
  }

  /** Inserts x into an ascending listing that does not hold it. */
  method Insert(s: seq<nat>, x: nat) returns (r: seq<nat>)
    requires StrictlyAscending(s) && x !in s
    ensures StrictlyAscending(r)
    ensures forall y :: y in r <==> y == x || y in s
  {
    var i: nat := |s|;
    while i > 0 && x < s[i - 1]
      invariant i <= |s| && forall k | i <= k < |s| :: x < s[k]
    {
      i := i - 1;
    }
    forall k | 0 <= k < i ensures s[k] < x {
      assert s[k] <= s[i - 1] != x;
    }
    SpliceAscending(s, i, x);
    assert s == s[..i] + s[i..];
    r := s[..i] + [x] + s[i..];
  }

  method Sort(keys: set<nat>) returns (r: seq<nat>)
    ensures StrictlyAscending(r)
    ensures forall y :: y in r <==> y in keys
  {
    r := [];
    var left := keys;
    while left != {}
      invariant StrictlyAscending(r) && left <= keys
      invariant forall y :: y in r <==> y in keys && y !in left
      decreases left
    {
      var x :| x in left;
      r := Insert(r, x);
      left := left - {x};
    }
  }
}
