/** The optional value, bytes, and the finite-set facts the other modules share. */
module Options {

  datatype Option<+T> = None | Some(value: T)

  newtype byte = x: int | 0 <= x < 256

  type Bytes = seq<byte>

  /** A subset is no larger, and a proper subset is smaller. */
  lemma {:induction false} SubsetSize<T>(small: set<T>, big: set<T>)
    requires small <= big
    ensures |small| <= |big|
    ensures |small| == |big| ==> small == big
  {
    if x :| x in small {
      SubsetSize(small - {x}, big - {x});
      assert small == (small - {x}) + {x} && big == (big - {x}) + {x};
    }
  }

  /** A set of integers inside a half-open range is no larger than the range. */
  lemma {:induction false} RangeSize(s: set<int>, lo: int, hi: int)
    requires lo <= hi
    requires forall i :: i in s ==> lo <= i < hi
    ensures |s| <= hi - lo
    decreases hi - lo
  {
    if lo == hi {
      if i :| i in s {
        assert false;
      }
    } else {
      RangeSize(s - {lo}, lo + 1, hi);
      assert s <= (s - {lo}) + {lo};
      SubsetSize(s, (s - {lo}) + {lo});
    }
  }

  /** A set of integers that is exactly a half-open range has the range's size. */
  lemma {:induction false} ExactRangeSize(s: set<int>, lo: int, hi: int)
    requires lo <= hi
    requires forall i :: i in s <==> lo <= i < hi
    ensures |s| == hi - lo
    decreases hi - lo
  {
    if lo == hi {
      if i :| i in s {
        assert false;
      }
    } else {
      ExactRangeSize(s - {lo}, lo + 1, hi);
      assert s == (s - {lo}) + {lo};
    }
  }

  /** A map has as many entries as it has keys. */
  lemma SameKeysSameSize<T, U>(a: map<nat, T>, b: map<nat, U>)
    requires a.Keys == b.Keys
    ensures |a| == |b|
  {
    assert |a| == |a.Keys| && |b| == |b.Keys|;
  }

  lemma OneKeyMore<T>(m: map<nat, T>, k: nat, v: T)
    ensures |m[k := v]| == if k in m then |m| else |m| + 1
  {
    assert m[k := v].Keys == m.Keys + {k};
    assert |m[k := v]| == |m[k := v].Keys| && |m| == |m.Keys|;
  }
}
