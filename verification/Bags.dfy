/** Sequences up to the order of their elements. */
module Bags {

  function Without<T>(s: seq<T>, j: nat): seq<T>
    requires j < |s|
  {
    s[..j] + s[j + 1..]
  }

  lemma {:induction false} WithoutBag<T>(s: seq<T>, j: nat)
    requires j < |s|
    ensures multiset(s) == multiset(Without(s, j)) + multiset{s[j]}
  {
    assert s == s[..j] + [s[j]] + s[j + 1..];
  }

  lemma {:induction false} LengthOfBag<T>(a: seq<T>, b: seq<T>)
    requires multiset(a) == multiset(b)
    ensures |a| == |b|
  {
    assert |a| == |multiset(a)| == |multiset(b)| == |b|;
  }

  lemma {:induction false} IndexIn<T>(s: seq<T>, x: T) returns (j: nat)
    requires x in multiset(s)
    ensures j < |s| && s[j] == x
  {
    j :| 0 <= j < |s| && s[j] == x;
  }

  /** Removing one common element from two sequences with the same elements. */
  lemma {:induction false} DropCommon<T>(a: seq<T>, i: nat, b: seq<T>, j: nat)
    requires multiset(a) == multiset(b) && i < |a| && j < |b| && a[i] == b[j]
    ensures multiset(Without(a, i)) == multiset(Without(b, j))
  {
    WithoutBag(a, i);
    WithoutBag(b, j);
    assert multiset(Without(a, i)) == multiset(a) - multiset{a[i]};
    assert multiset(Without(b, j)) == multiset(b) - multiset{a[i]};
  }

  function Mapped<T, U>(s: seq<T>, f: T -> U): seq<U> {
    seq(|s|, i requires 0 <= i < |s| => f(s[i]))
  }

  lemma {:induction false} MappedWithout<T, U>(s: seq<T>, j: nat, f: T -> U)
    requires j < |s|
    ensures Mapped(Without(s, j), f) == Without(Mapped(s, f), j)
  {
  }

  /** Mapping two sequences with the same elements gives two sequences with the same elements. */
  lemma {:induction false} MapKeepsBag<T, U>(a: seq<T>, b: seq<T>, f: T -> U)
    requires multiset(a) == multiset(b)
    ensures multiset(Mapped(a, f)) == multiset(Mapped(b, f))
    decreases |a|
  {
    LengthOfBag(a, b);
    if a != [] {
      assert a[0] in multiset(a);
      var j := IndexIn(b, a[0]);
      DropCommon(a, 0, b, j);
      MapKeepsBag(Without(a, 0), Without(b, j), f);
      MappedWithout(a, 0, f);
      MappedWithout(b, j, f);
      WithoutBag(Mapped(a, f), 0);
      WithoutBag(Mapped(b, f), j);
    }
  }
}
