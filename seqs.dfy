/** Facts about sequences used as Python lists: distinctness, `list.remove` and order-preserving filtering. */
module Seqs {

  /** No element occurs twice. */
  predicate NoDup<T(==)>(s: seq<T>)
  {
    forall i, j :: 0 <= i < j < |s| ==> s[i] != s[j]
  }

  /** The elements of a list, as a set. */
  function Elems<T>(s: seq<T>): set<T>
  {
    set x | x in s
  }

  /** Where `x` first occurs in `s`, as Python's `list.index(x)` finds it. */
  function FirstIndex<T(==)>(s: seq<T>, x: T): (i: nat)
    requires x in s
    ensures i < |s| && s[i] == x && x !in s[..i]
  {
    if s[0] == x then 0
    else
      assert s[1..][..FirstIndex(s[1..], x)] == s[1..FirstIndex(s[1..], x) + 1];
      FirstIndex(s[1..], x) + 1
  }

  /** Python's `list.remove(x)`: drop the first occurrence of `x`, which must be present (Python raises
      `ValueError` otherwise); everything before and after it stays in order. */
  function Remove<T(==)>(s: seq<T>, x: T): (r: seq<T>)
    requires x in s
    ensures |r| == |s| - 1
    ensures r == s[..FirstIndex(s, x)] + s[FirstIndex(s, x) + 1..]
  {
    if s[0] == x then s[1..]
    else
      var j := FirstIndex(s[1..], x);
      assert s[..j + 1] == [s[0]] + s[1..][..j];
      assert s[j + 2..] == s[1..][j + 1..];
      [s[0]] + Remove(s[1..], x)
  }

  /** The elements of `s` that are not in `drop`, in their original order. */
  function Without<T(==)>(s: seq<T>, drop: set<T>): (r: seq<T>)
  {
    if s == [] then [] else (if s[0] in drop then [] else [s[0]]) + Without(s[1..], drop)
  }

  /** Membership in a filtered list: exactly the elements of `s` outside `drop`. */
  lemma {:induction false} WithoutMembers<T>(s: seq<T>, drop: set<T>, y: T)
    ensures y in Without(s, drop) <==> y in s && y !in drop
  {
    if s != [] {
      WithoutMembers(s[1..], drop, y);
      assert s == [s[0]] + s[1..];
    }
  }

  /** Filtering keeps a list free of duplicates. */
  lemma {:induction false} WithoutNoDup<T>(s: seq<T>, drop: set<T>)
    requires NoDup(s)
    ensures NoDup(Without(s, drop))
  {
    if s != [] {
      WithoutNoDup(s[1..], drop);
      WithoutMembers(s[1..], drop, s[0]);
      var t := Without(s[1..], drop);
      assert s[0] !in s[1..];
      if s[0] !in drop {
        assert forall j :: 0 <= j < |t| ==> t[j] != s[0];
      }
    }
  }

  /** Removing nothing leaves the list as it was. */
  lemma {:induction false} WithoutNothing<T>(s: seq<T>)
    ensures Without(s, {}) == s
  {
    if s != [] {
      WithoutNothing(s[1..]);
      assert s == [s[0]] + s[1..];
    }
  }

  /** On a list without duplicates, `list.remove(x)` is the same as filtering `x` out. */
  lemma {:induction false} RemoveIsWithout<T>(s: seq<T>, x: T)
    requires NoDup(s) && x in s
    ensures Remove(s, x) == Without(s, {x})
  {
    if s != [] {
      if s[0] == x {
        assert x !in s[1..];
        WithoutAbsent(s[1..], {x});
      } else {
        RemoveIsWithout(s[1..], x);
      }
    }
  }

  /** Filtering out elements that do not occur changes nothing. */
  lemma {:induction false} WithoutAbsent<T>(s: seq<T>, drop: set<T>)
    requires forall y :: y in drop ==> y !in s
    ensures Without(s, drop) == s
  {
    if s != [] {
      WithoutAbsent(s[1..], drop);
      assert s == [s[0]] + s[1..];
    }
  }

  /** Filtering twice is filtering once by the union of what is dropped. */
  lemma {:induction false} WithoutWithout<T>(s: seq<T>, a: set<T>, b: set<T>)
    ensures Without(Without(s, a), b) == Without(s, a + b)
  {
    if s != [] {
      WithoutWithout(s[1..], a, b);
      var t := Without(s[1..], a);
      if s[0] !in a {
        var u := [s[0]] + t;
        assert Without(s, a) == u;
        assert u[0] == s[0] && u[1..] == t;
        assert Without(u, b) == (if s[0] in b then [] else [s[0]]) + Without(t, b);
      } else {
        assert Without(s, a) == t;
      }
    }
  }

  /** `list.remove(x)` applied to a list that holds `x` exactly once: the result is the list without `x`,
      the others in their order. */
  method RemoveOnce<T(==)>(s: seq<T>, x: T) returns (r: seq<T>)
    requires NoDup(s) && x in s
    ensures r == Without(s, {x})
  {
    RemoveIsWithout(s, x);
    r := Remove(s, x);
  }

  /** Removing the elements of `s` one after another, in a list without duplicates, leaves `s` filtered by
      everything removed so far. */
  lemma RemoveNext<T>(s: seq<T>, done: set<T>, x: T)
    requires NoDup(s) && x in s && x !in done
    ensures x in Without(s, done)
    ensures Remove(Without(s, done), x) == Without(s, done + {x})
  {
    WithoutMembers(s, done, x);
    WithoutNoDup(s, done);
    RemoveIsWithout(Without(s, done), x);
    WithoutWithout(s, done, {x});
  }

  /** A reordering of a list without duplicates has none either. */
  lemma PermutationNoDup<T>(s: seq<T>, t: seq<T>)
    requires NoDup(s) && multiset(s) == multiset(t)
    ensures NoDup(t)
  {
    forall i, j | 0 <= i < j < |t| ensures t[i] != t[j] {
      if t[i] == t[j] {
        var x := t[i];
        assert multiset(t)[x] >= 2 by {
          var u := t[..i] + t[i+1..];
          assert t == t[..i] + [x] + t[i+1..];
          assert t[j] in t[i+1..];
          assert multiset(t) == multiset(t[..i]) + multiset{x} + multiset(t[i+1..]);
        }
        NoDupCount(s, x);
      }
    }
  }

  /** In a list without duplicates every element occurs at most once. */
  lemma {:induction false} NoDupCount<T>(s: seq<T>, x: T)
    requires NoDup(s)
    ensures multiset(s)[x] <= 1
  {
    if s != [] {
      assert s == [s[0]] + s[1..];
      assert NoDup(s[1..]);
      NoDupCount(s[1..], x);
      if s[0] == x {
        assert x !in s[1..];
        assert multiset(s[1..])[x] == 0;
      }
    }
  }
}
