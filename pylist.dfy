/**
 * The two Python list operations the job queue relies on: membership
 * (`x in s`, by object identity for the queue's items) and `s.remove(x)`,
 * which drops the FIRST occurrence only.  `Without` is the reference
 * definition that the queue's bookkeeping is stated against: the elements
 * of a list that are not in a second one, in their original order.
 */
module PyList {

  predicate Distinct<T(==)>(s: seq<T>) {
    forall i, j :: 0 <= i < j < |s| ==> s[i] != s[j]
  }

  /** Python's `s.remove(x)`, with the `x in s` guard every caller in the source puts before it. */
  function RemoveFirst<T(==)>(s: seq<T>, x: T): (r: seq<T>)
    ensures x !in s ==> r == s
    ensures multiset(r) == multiset(s) - multiset{x}
  {
    if s == [] then []
    else if s[0] == x then
      assert s == [x] + s[1..];
      s[1..]
    else
      assert s == [s[0]] + s[1..];
      [s[0]] + RemoveFirst(s[1..], x)
  }

  /** `remove` cuts out the element at the first occurrence and keeps the rest in order. */
  lemma {:induction false} RemoveFirstAt<T>(s: seq<T>, x: T, i: nat)
    requires i < |s| && s[i] == x && x !in s[..i]
    ensures RemoveFirst(s, x) == s[..i] + s[i + 1..]
  {
    if i == 0 {
      assert s[..0] + s[1..] == s[1..];
    } else {
      var t := s[1..];
      TailSlices(s, i);
      assert s[0] != x;
      RemoveFirstAt(t, x, i - 1);
      assert RemoveFirst(s, x) == [s[0]] + RemoveFirst(t, x);
    }
  }

  /** How the slices of s around index i look from its tail. */
  lemma TailSlices<T>(s: seq<T>, i: nat)
    requires 0 < i < |s|
    ensures s[..i] == [s[0]] + s[1..][..i - 1] && s[1..][i..] == s[i + 1..]
    ensures s[..i] + s[i + 1..] == [s[0]] + (s[1..][..i - 1] + s[1..][i..])
  {
  }

  /** The elements of s that do not occur in xs, in the order s has them. */
  function Without<T(==)>(s: seq<T>, xs: seq<T>): (r: seq<T>)
    ensures forall y :: y in r ==> y in s && y !in xs
    ensures forall y :: y in s && y !in xs ==> y in r
    ensures |r| <= |s|
    ensures Distinct(s) ==> Distinct(r)
  {
    if s == [] then []
    else if s[0] in xs then Without(s[1..], xs)
    else [s[0]] + Without(s[1..], xs)
  }

  /** A list none of whose elements is in xs keeps all of them. */
  lemma {:induction false} WithoutNone<T>(s: seq<T>, xs: seq<T>)
    requires forall y :: y in s ==> y !in xs
    ensures Without(s, xs) == s
  {
    if s != [] {
      WithoutNone(s[1..], xs);
    }
  }

  /** An element appended to a list and to the removal list leaves no trace. */
  lemma {:induction false} WithoutAppended<T>(s: seq<T>, xs: seq<T>, y: T)
    requires y !in s
    ensures Without(s + [y], xs + [y]) == Without(s, xs)
  {
    if s == [] {
      assert [] + [y] == [y];
    } else {
      assert (s + [y])[1..] == s[1..] + [y];
      WithoutAppended(s[1..], xs, y);
    }
  }

  /** Removing a list's elements one after another is removing them all at once. */
  lemma {:induction false} WithoutSnoc<T>(s: seq<T>, xs: seq<T>, x: T)
    ensures Without(Without(s, xs), [x]) == Without(s, xs + [x])
  {
    if s != [] {
      WithoutSnoc(s[1..], xs, x);
      if s[0] !in xs {
        assert Without(s, xs) == [s[0]] + Without(s[1..], xs);
        assert Without(s, xs)[1..] == Without(s[1..], xs);
      }
    }
  }

  /** On a list without repetitions, `remove` drops exactly the one element. */
  lemma {:induction false} RemoveFirstIsWithout<T>(s: seq<T>, x: T)
    requires Distinct(s)
    ensures RemoveFirst(s, x) == Without(s, [x])
  {
    if s != [] {
      assert Distinct(s[1..]) by {
        forall i, j | 0 <= i < j < |s[1..]| ensures s[1..][i] != s[1..][j] {
          assert s[1..][i] == s[i + 1] && s[1..][j] == s[j + 1];
        }
      }
      RemoveFirstIsWithout(s[1..], x);
      if s[0] == x {
        assert x !in s[1..] by {
          forall j | 0 <= j < |s[1..]| ensures s[1..][j] != x {
            assert s[1..][j] == s[j + 1];
          }
        }
        WithoutNone(s[1..], [x]);
      }
    }
  }

  /** A list without repetitions splits into two disjoint lists without repetitions. */
  lemma DistinctSplit<T>(a: seq<T>, b: seq<T>)
    requires Distinct(a + b)
    ensures Distinct(a) && Distinct(b)
    ensures forall y :: y in a ==> y !in b
  {
    forall i, j | 0 <= i < j < |a| ensures a[i] != a[j] {
      assert (a + b)[i] == a[i] && (a + b)[j] == a[j];
    }
    forall i, j | 0 <= i < j < |b| ensures b[i] != b[j] {
      assert (a + b)[|a| + i] == b[i] && (a + b)[|a| + j] == b[j];
    }
    forall i, j | 0 <= i < |a| && 0 <= j < |b| ensures a[i] != b[j] {
      assert (a + b)[i] == a[i] && (a + b)[|a| + j] == b[j];
    }
  }
}
