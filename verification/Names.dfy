/** Text in dictionary order, and a set of names as its sorted list. */
module Names {
  import opened Sorting
  import opened Sums

  predicate Le(a: string, b: string)
    decreases |a|
  {
    if a == "" then true
    else if b == "" then false
    else if a[0] != b[0] then a[0] < b[0]
    else Le(a[1..], b[1..])
  }

  lemma {:induction false} LeIsTotal(a: string, b: string)
    ensures Le(a, b) || Le(b, a)
    ensures Le(a, b) && Le(b, a) ==> a == b
    decreases |a|
  {
    if a != "" && b != "" && a[0] == b[0] {
      LeIsTotal(a[1..], b[1..]);
      assert a == [a[0]] + a[1..] && b == [b[0]] + b[1..];
    }
  }

  lemma {:induction false} LeIsTransitive(a: string, b: string, c: string)
    requires Le(a, b) && Le(b, c)
    ensures Le(a, c)
    decreases |a|
  {
    if a != "" && b != "" && c != "" && a[0] == b[0] == c[0] {
      LeIsTransitive(a[1..], b[1..], c[1..]);
    }
  }

  /** The texts agree up to a place where the first has the smaller character. */
  ghost predicate SmallerAt(a: string, b: string, i: int) {
    0 <= i < |a| && i < |b| && a[..i] == b[..i] && a[i] < b[i]
  }

  lemma SmallerInTail(a: string, b: string, i: int)
    requires a != "" && b != "" && a[0] == b[0]
    ensures SmallerAt(a[1..], b[1..], i) <==> SmallerAt(a, b, i + 1) && i >= 0
  {
    if 0 <= i < |a| - 1 && i < |b| - 1 {
      assert a[..i + 1] == [a[0]] + a[1..][..i] && b[..i + 1] == [b[0]] + b[1..][..i];
    }
  }

  lemma PrefixInTail(a: string, b: string)
    requires a != "" && b != "" && a[0] == b[0]
    ensures a <= b <==> a[1..] <= b[1..]
  {
    assert a == [a[0]] + a[1..] && b == [b[0]] + b[1..];
  }

  /** Dictionary order: a prefix comes first, and otherwise the first difference
      decides. */
  lemma {:induction false} LeByFirstDifference(a: string, b: string)
    ensures Le(a, b) <==> a <= b || exists i :: SmallerAt(a, b, i)
    decreases |a|
  {
    if a == "" || b == "" {
    } else if a[0] != b[0] {
      assert a[..0] == b[..0];
      assert SmallerAt(a, b, 0) <==> a[0] < b[0];
      forall i | 0 < i <= |a| && i <= |b|
        ensures a[..i] != b[..i]
      {
        assert a[..i][0] != b[..i][0];
      }
    } else {
      LeByFirstDifference(a[1..], b[1..]);
      PrefixInTail(a, b);
      if i :| SmallerAt(a[1..], b[1..], i) {
        SmallerInTail(a, b, i);
      } else if i :| SmallerAt(a, b, i) {
        SmallerInTail(a, b, i - 1);
      }
    }
  }

  function ByName(): (string, string) -> bool {
    (a, b) => Le(a, b)
  }

  lemma ByNameIsOrder()
    ensures TotalPreorder(ByName())
    ensures forall a, b :: Le(a, b) && Le(b, a) ==> a == b
  {
    forall a, b
      ensures ByName()(a, b) || ByName()(b, a)
      ensures Le(a, b) && Le(b, a) ==> a == b
    {
      LeIsTotal(a, b);
    }
    forall a, b, c | ByName()(a, b) && ByName()(b, c)
      ensures ByName()(a, c)
    {
      LeIsTransitive(a, b, c);
    }
  }

  /** The list is the set in dictionary order, each name once. */
  ghost predicate ListsSet(ids: seq<string>, s: set<string>) {
    Sorted(ids, ByName()) && Distinct(ids) && Elements(ids) == s
  }

  /** `sorted(s)`. */
  method SortedNames(s: set<string>) returns (ids: seq<string>)
    ensures ListsSet(ids, s)
  {
    var rest, list := s, [];
    while rest != {}
      invariant rest <= s && Distinct(list) && Elements(list) == s - rest
      decreases |rest|
    {
      var x :| x in rest;
      OneMoreName(list, s, rest, x);
      list, rest := list + [x], rest - {x};
    }
    ids := StableSort(list, ByName());
    SortedListOf(list, s);
  }

  lemma OneMoreName(list: seq<string>, s: set<string>, rest: set<string>, x: string)
    requires rest <= s && Distinct(list) && Elements(list) == s - rest && x in rest
    ensures Distinct(list + [x]) && Elements(list + [x]) == s - (rest - {x})
  {
    assert x !in Elements(list);
    assert Elements(list + [x]) == Elements(list) + {x};
  }

  /** Sorting a list of a set's names lists the set. */
  lemma SortedListOf(list: seq<string>, s: set<string>)
    requires Distinct(list) && Elements(list) == s
    ensures ListsSet(StableSort(list, ByName()), s)
  {
    ByNameIsOrder();
    SortIsSorted(list, ByName());
    SortKeepsMembers(list, ByName());
    SortKeepsDistinct(list);
    assert Elements(StableSort(list, ByName())) == Elements(list);
  }

  lemma DistinctByCount(ids: seq<string>)
    ensures Distinct(ids) <==> forall x :: multiset(ids)[x] <= 1
    decreases |ids|
  {
    if ids != [] {
      DistinctByCount(ids[1..]);
      assert ids == [ids[0]] + ids[1..];
      assert multiset(ids) == multiset{ids[0]} + multiset(ids[1..]);
      if Distinct(ids) {
        assert ids[0] !in ids[1..];
        assert multiset(ids[1..])[ids[0]] == 0;
      } else if forall x :: multiset(ids)[x] <= 1 {
        assert multiset(ids)[ids[0]] <= 1;
        assert ids[0] !in multiset(ids[1..]);
        forall x: string
          ensures multiset(ids[1..])[x] <= 1
        {
          assert multiset(ids)[x] <= 1;
        }
        assert false;
      }
    }
  }

  lemma SortKeepsDistinct(ids: seq<string>)
    requires Distinct(ids)
    ensures Distinct(StableSort(ids, ByName()))
  {
    SortIsPermutation(ids, ByName());
    DistinctByCount(ids);
    DistinctByCount(StableSort(ids, ByName()));
  }

  lemma EmptyList(ids: seq<string>)
    ensures Elements(ids) == {} <==> ids == []
  {
    if ids != [] {
      assert ids[0] in Elements(ids);
    }
  }

  lemma {:induction false} SortedListIsUnique(a: seq<string>, b: seq<string>, s: set<string>)
    requires ListsSet(a, s) && ListsSet(b, s)
    ensures a == b
    decreases |a|
  {
    EmptyList(a);
    EmptyList(b);
    if a != [] {
      assert a[0] in Elements(b);
      ByNameIsOrder();
      assert b[0] in Elements(a);
      SameFirst(a, b, ByName());
      assert Elements(a[1..]) == s - {a[0]} && Elements(b[1..]) == s - {a[0]};
      SortedListIsUnique(a[1..], b[1..], s - {a[0]});
    }
  }

  lemma {:induction false} SetHasList(s: set<string>) returns (ids: seq<string>)
    ensures Distinct(ids) && Elements(ids) == s
    decreases s
  {
    if s == {} {
      ids := [];
    } else {
      var x :| x in s;
      var rest := SetHasList(s - {x});
      ids := rest + [x];
      assert x !in Elements(rest);
      assert Elements(ids) == Elements(rest) + {x};
    }
  }

  lemma SetHasSortedList(s: set<string>)
    ensures exists ids :: ListsSet(ids, s)
  {
    var list := SetHasList(s);
    SortedListOf(list, s);
  }

  /** The one list of a set in dictionary order. */
  ghost function InOrder(s: set<string>): (ids: seq<string>)
    ensures ListsSet(ids, s)
  {
    SetHasSortedList(s);
    var ids :| ListsSet(ids, s);
    ids
  }
}
