/** Declarations shared by the models of the individual components. */
module Common {

  datatype Option<+T> = None | Some(value: T)

  type Byte = b: int | 0 <= b < 256

  /** Ticks since an arbitrary origin: nanoseconds for alerts, seconds elsewhere. */
  type Time = int

  /** A subset is no larger than the set. */
  lemma {:induction false} CardinalityMonotone<T>(a: set<T>, b: set<T>)
    requires a <= b
    ensures |a| <= |b|
    ensures |a| == |b| ==> a == b
  {
    assert b == a + (b - a);
    assert |b| == |a| + |b - a|;
  }

  /** Sizes of a union of disjoint sets add up. */
  lemma {:induction false} CardinalityUnion<T>(a: set<T>, b: set<T>)
    requires a !! b
    ensures |a + b| == |a| + |b|
  {
  }

  /** Striking one more element off a list of things to do. */
  lemma {:induction false} CountStruck<T>(wanted: set<T>, todo: set<T>, x: T)
    requires x in todo
    ensures |wanted - (todo - {x})| == |wanted - todo| + if x in wanted then 1 else 0
  {
    if x in wanted {
      assert wanted - (todo - {x}) == (wanted - todo) + {x};
    } else {
      assert wanted - (todo - {x}) == wanted - todo;
    }
  }

  /** Any member of a non-empty set. */
  method Pick<T(==)>(s: set<T>) returns (x: T)
    requires s != {}
    ensures x in s
  {
    x :| x in s;
  }

  /** The smallest member of a finite set of integers. */
  method Least(ids: set<int>) returns (m: int)
    requires ids != {}
    ensures m in ids && forall id :: id in ids ==> m <= id
  {
    m := Pick(ids);
    var rest := ids - {m};
    while rest != {}
      invariant rest <= ids && m in ids
      invariant forall id :: id in ids ==> id in rest || m <= id
      decreases |rest|
    {
      var id := Pick(rest);
      if id < m {
        m := id;
      }
      rest := rest - {id};
    }
  }
}
