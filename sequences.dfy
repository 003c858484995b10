/** Vector bookkeeping used by the registries: a vector of pointers without
    repeats, and `erase` of the first element equal to a given one. */
module Sequences {

  /** No element occurs twice. */
  predicate Distinct<T(==)>(s: seq<T>) {
    forall i, j :: 0 <= i < j < |s| ==> s[i] != s[j]
  }

  /** The vector after erasing the first element equal to `x`; the vector
      itself when there is none. */
  function RemoveFirst<T(==)>(s: seq<T>, x: T): (r: seq<T>)
    ensures |r| == if x in s then |s| - 1 else |s|
  {
    if s == [] then []
    else if s[0] == x then s[1..]
    else [s[0]] + RemoveFirst(s[1..], x)
  }

  /** Without `x` in the vector, nothing is erased. */
  lemma {:induction false} RemoveFirstAbsent<T>(s: seq<T>, x: T)
    requires x !in s
    ensures RemoveFirst(s, x) == s
  {
    if s != [] {
      assert s[0] != x;
      assert x !in s[1..];
      RemoveFirstAbsent(s[1..], x);
      assert s == [s[0]] + s[1..];
    }
  }

  /** With `x` first found at index `k`, exactly that entry is erased and the
      others keep their order. */
  lemma {:induction false} RemoveFirstAt<T>(s: seq<T>, x: T, k: nat)
    requires k < |s| && s[k] == x
    requires forall i :: 0 <= i < k ==> s[i] != x
    ensures RemoveFirst(s, x) == s[..k] + s[k + 1..]
  {
    if k > 0 {
      assert s[0] != x;
      RemoveFirstAt(s[1..], x, k - 1);
      assert s[1..][..k - 1] == s[1..k];
      assert s[1..][k..] == s[k + 1..];
      assert [s[0]] + s[1..k] == s[..k];
    }
  }

  /** Erasing removes one copy of `x` if there is one and nothing else. */
  lemma {:induction false} RemoveFirstMultiset<T>(s: seq<T>, x: T)
    ensures multiset(RemoveFirst(s, x)) == multiset(s) - multiset{x}
  {
    if s != [] {
      assert s == [s[0]] + s[1..];
      if s[0] != x {
        RemoveFirstMultiset(s[1..], x);
      }
    }
  }

  /** Erasing from a vector without repeats leaves one without repeats and
      without `x`; the vector shrinks by one exactly when `x` was there. */
  lemma {:induction false} RemoveFirstDistinct<T>(s: seq<T>, x: T)
    requires Distinct(s)
    ensures Distinct(RemoveFirst(s, x))
    ensures x !in RemoveFirst(s, x)
    ensures |RemoveFirst(s, x)| == if x in s then |s| - 1 else |s|
  {
    RemoveFirstMultiset(s, x);
    var r := RemoveFirst(s, x);
    if x in s {
      var k :| 0 <= k < |s| && s[k] == x;
      RemoveFirstAt(s, x, k);
      assert r == s[..k] + s[k + 1..];
      forall i, j | 0 <= i < j < |r| ensures r[i] != r[j] {
        var i' := if i < k then i else i + 1;
        var j' := if j < k then j else j + 1;
        assert r[i] == s[i'] && r[j] == s[j'];
      }
      forall i | 0 <= i < |r| ensures r[i] != x {
        var i' := if i < k then i else i + 1;
        assert r[i] == s[i'];
      }
    } else {
      RemoveFirstAbsent(s, x);
    }
  }

  /** A second completion for the same entry is a no-op. */
  lemma RemoveFirstTwice<T>(s: seq<T>, x: T)
    requires Distinct(s)
    ensures RemoveFirst(RemoveFirst(s, x), x) == RemoveFirst(s, x)
  {
    RemoveFirstDistinct(s, x);
    RemoveFirstAbsent(RemoveFirst(s, x), x);
  }

}
