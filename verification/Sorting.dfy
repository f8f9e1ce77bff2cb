/** Stable sorting, as `sorted` and `list.sort` do it, and what it determines. */
module Sorting {

  /** Put `x` before the first element it may precede. */
  function Insert<T>(x: T, s: seq<T>, le: (T, T) -> bool): (r: seq<T>)
    ensures |r| == |s| + 1
  {
    if s == [] then [x]
    else if le(x, s[0]) then [x] + s
    else [s[0]] + Insert(x, s[1..], le)
  }

  function StableSort<T>(s: seq<T>, le: (T, T) -> bool): (r: seq<T>)
    ensures |r| == |s|
  {
    if s == [] then [] else Insert(s[0], StableSort(s[1..], le), le)
  }

  lemma {:induction false} InsertIsPermutation<T>(x: T, s: seq<T>, le: (T, T) -> bool)
    ensures multiset(Insert(x, s, le)) == multiset{x} + multiset(s)
  {
    if s != [] && !le(x, s[0]) {
      InsertIsPermutation(x, s[1..], le);
      assert s == [s[0]] + s[1..];
    }
  }

  lemma {:induction false} SortIsPermutation<T>(s: seq<T>, le: (T, T) -> bool)
    ensures multiset(StableSort(s, le)) == multiset(s)
  {
    if s != [] {
      SortIsPermutation(s[1..], le);
      InsertIsPermutation(s[0], StableSort(s[1..], le), le);
      assert s == [s[0]] + s[1..];
    }
  }

  ghost predicate TotalPreorder<T(!new)>(le: (T, T) -> bool) {
    && (forall x, y :: le(x, y) || le(y, x))
    && (forall x, y, z :: le(x, y) && le(y, z) ==> le(x, z))
  }

  ghost predicate Sorted<T>(s: seq<T>, le: (T, T) -> bool) {
    forall i, j :: 0 <= i < j < |s| ==> le(s[i], s[j])
  }

  lemma {:induction false} InsertIsSorted<T(!new)>(x: T, s: seq<T>, le: (T, T) -> bool)
    requires TotalPreorder(le) && Sorted(s, le)
    ensures Sorted(Insert(x, s, le), le)
  {
    if s != [] && !le(x, s[0]) {
      InsertIsSorted(x, s[1..], le);
      InsertIsPermutation(x, s[1..], le);
      var rest := Insert(x, s[1..], le);
      forall k | 0 <= k < |rest|
        ensures le(s[0], rest[k])
      {
        assert rest[k] in multiset(rest);
        assert rest[k] == x || rest[k] in s[1..];
      }
    } else if s != [] {
      forall k | 0 <= k < |s|
        ensures le(x, s[k])
      {
        assert k > 0 ==> le(s[0], s[k]);
      }
    }
  }

  lemma {:induction false} SortIsSorted<T(!new)>(s: seq<T>, le: (T, T) -> bool)
    requires TotalPreorder(le)
    ensures Sorted(StableSort(s, le), le)
  {
    if s != [] {
      SortIsSorted(s[1..], le);
      InsertIsSorted(s[0], StableSort(s[1..], le), le);
    }
  }

  lemma {:induction false} InsertBeforeTail<T>(x: T, s: seq<T>, tail: seq<T>, le: (T, T) -> bool)
    requires tail != [] ==> le(x, tail[0])
    ensures Insert(x, s + tail, le) == Insert(x, s, le) + tail
  {
    if s == [] {
      assert s + tail == tail;
    } else {
      assert (s + tail)[1..] == s[1..] + tail;
      if !le(x, s[0]) {
        InsertBeforeTail(x, s[1..], tail, le);
      }
    }
  }

  lemma SortedElementIsMember<T>(s: seq<T>, le: (T, T) -> bool, i: nat)
    requires i < |s|
    ensures StableSort(s, le)[i] in s
  {
    SortIsPermutation(s, le);
    assert StableSort(s, le)[i] in multiset(StableSort(s, le));
  }

  lemma SortKeepsMembers<T>(s: seq<T>, le: (T, T) -> bool)
    ensures forall x :: x in StableSort(s, le) <==> x in s
  {
    SortIsPermutation(s, le);
    var r := StableSort(s, le);
    forall x: T
      ensures x in r <==> x in s
    {
      assert x in r <==> x in multiset(r);
      assert x in s <==> x in multiset(s);
    }
  }

  /** When every element of A may precede every element of B, sorting the
      concatenation is sorting the parts; this is where stability matters. */
  lemma {:induction false} SortSplits<T>(a: seq<T>, b: seq<T>, le: (T, T) -> bool)
    requires forall x, y :: x in a && y in b ==> le(x, y)
    ensures StableSort(a + b, le) == StableSort(a, le) + StableSort(b, le)
  {
    if a == [] {
      assert a + b == b;
    } else {
      SortSplits(a[1..], b, le);
      assert (a + b)[1..] == a[1..] + b;
      var tail := StableSort(b, le);
      if tail != [] {
        SortedElementIsMember(b, le, 0);
      }
      InsertBeforeTail(a[0], StableSort(a[1..], le), tail, le);
    }
  }

  /** Sorting a sorted list changes nothing. */
  lemma {:induction false} SortedIsFixed<T>(s: seq<T>, le: (T, T) -> bool)
    requires Sorted(s, le)
    ensures StableSort(s, le) == s
  {
    if s != [] {
      SortedIsFixed(s[1..], le);
      assert |s| > 1 ==> le(s[0], s[1]);
    }
  }

  /** Ties are only between equal elements. */
  ghost predicate TiesAreEqual<T>(s: seq<T>, le: (T, T) -> bool) {
    forall x, y :: x in s && y in s && le(x, y) && le(y, x) ==> x == y
  }

  lemma SameFirst<T>(s: seq<T>, t: seq<T>, le: (T, T) -> bool)
    requires s != [] && t != [] && Sorted(s, le) && Sorted(t, le) && TiesAreEqual(s, le)
    requires s[0] in t && t[0] in s
    ensures s[0] == t[0]
  {
    var i :| 0 <= i < |t| && t[i] == s[0];
    var j :| 0 <= j < |s| && s[j] == t[0];
    if i != 0 && j != 0 {
      assert le(t[0], t[i]) && le(s[0], s[j]);
    }
  }

  lemma TailMultiset<T>(s: seq<T>)
    requires s != []
    ensures multiset(s[1..]) == multiset(s) - multiset{s[0]}
  {
    assert s == [s[0]] + s[1..];
  }

  lemma {:induction false} SortedIsUnique<T>(s: seq<T>, t: seq<T>, le: (T, T) -> bool)
    requires Sorted(s, le) && Sorted(t, le) && multiset(s) == multiset(t) && TiesAreEqual(s, le)
    ensures s == t
    decreases |s|
  {
    assert |s| == |multiset(s)| == |multiset(t)| == |t|;
    if s != [] {
      assert s[0] in multiset(t) && t[0] in multiset(s);
      SameFirst(s, t, le);
      TailMultiset(s);
      TailMultiset(t);
      SortedIsUnique(s[1..], t[1..], le);
    }
  }

  /** Without ties between different elements, the order of arrival is forgotten. */
  lemma SortForgetsOrder<T(!new)>(s: seq<T>, t: seq<T>, le: (T, T) -> bool)
    requires TotalPreorder(le) && multiset(s) == multiset(t) && TiesAreEqual(s, le)
    ensures StableSort(s, le) == StableSort(t, le)
  {
    SortIsSorted(s, le);
    SortIsSorted(t, le);
    SortIsPermutation(s, le);
    SortIsPermutation(t, le);
    SortKeepsMembers(s, le);
    SortedIsUnique(StableSort(s, le), StableSort(t, le), le);
  }
}
