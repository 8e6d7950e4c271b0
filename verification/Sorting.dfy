// The contract of Rust's stable `sort_by`: there is exactly one stable sorted arrangement of a
// sequence under a total preorder, and an insertion sort computes it.
module Sorting {
  import opened Prelude

  ghost predicate TotalPreorder<T(!new)>(le: (T, T) -> bool) {
    && (forall a, b :: le(a, b) || le(b, a))
    && (forall a, b, c :: le(a, b) && le(b, c) ==> le(a, c))
  }

  ghost predicate Sorted<T>(s: seq<T>, le: (T, T) -> bool) {
    forall i, j :: 0 <= i < j < |s| ==> le(s[i], s[j])
  }

  /** The elements of `s` tied with `x`, in order. */
  ghost function Ties<T>(s: seq<T>, x: T, le: (T, T) -> bool): seq<T> {
    if s == [] then []
    else
      var last := s[|s| - 1];
      Ties(s[..|s| - 1], x, le) + if le(x, last) && le(last, x) then [last] else []
  }

  /** `out` is `src` sorted with every class of tied elements kept in its original order. */
  ghost predicate StableSorted<T(!new)>(src: seq<T>, out: seq<T>, le: (T, T) -> bool) {
    && Sorted(out, le)
    && forall x :: Ties(out, x, le) == Ties(src, x, le)
  }

  /** Put `x`, which came after every element of `s`, behind the last element not above it. */
  function Insert<T>(s: seq<T>, x: T, le: (T, T) -> bool): seq<T> {
    if s == [] || le(s[|s| - 1], x) then s + [x]
    else Insert(s[..|s| - 1], x, le) + [s[|s| - 1]]
  }

  function StableSort<T>(s: seq<T>, le: (T, T) -> bool): seq<T> {
    if s == [] then [] else Insert(StableSort(s[..|s| - 1], le), s[|s| - 1], le)
  }

  lemma {:induction false} InsertKeeps<T>(s: seq<T>, x: T, le: (T, T) -> bool)
    ensures |Insert(s, x, le)| == |s| + 1
    ensures multiset(Insert(s, x, le)) == multiset(s) + multiset{x}
  {
    if s != [] && !le(s[|s| - 1], x) {
      InsertKeeps(s[..|s| - 1], x, le);
      assert s == s[..|s| - 1] + [s[|s| - 1]];
    }
  }

  lemma {:induction false} InsertSorted<T(!new)>(s: seq<T>, x: T, le: (T, T) -> bool)
    requires TotalPreorder(le) && Sorted(s, le)
    ensures Sorted(Insert(s, x, le), le)
  {
    if s != [] && !le(s[|s| - 1], x) {
      var front, last := s[..|s| - 1], s[|s| - 1];
      InsertSorted(front, x, le);
      InsertKeeps(front, x, le);
      var t := Insert(front, x, le);
      forall i | 0 <= i < |t| ensures le(t[i], last) {
        assert t[i] in multiset(t);
        assert t[i] in front || t[i] == x;
      }
    }
  }

  lemma {:induction false} InsertTies<T(!new)>(s: seq<T>, x: T, y: T, le: (T, T) -> bool)
    requires TotalPreorder(le)
    ensures Ties(Insert(s, x, le), y, le) == Ties(s + [x], y, le)
  {
    assert (s + [x])[..|s|] == s;
    if s != [] && !le(s[|s| - 1], x) {
      var front, last := s[..|s| - 1], s[|s| - 1];
      InsertTies(front, x, y, le);
      assert (front + [x])[..|front|] == front;
      assert (Insert(front, x, le) + [last])[..|Insert(front, x, le)|] == Insert(front, x, le);
    }
  }

  lemma {:induction false} SortKeeps<T>(s: seq<T>, le: (T, T) -> bool)
    ensures |StableSort(s, le)| == |s|
    ensures multiset(StableSort(s, le)) == multiset(s)
  {
    if s != [] {
      SortKeeps(s[..|s| - 1], le);
      InsertKeeps(StableSort(s[..|s| - 1], le), s[|s| - 1], le);
      assert s == s[..|s| - 1] + [s[|s| - 1]];
    }
  }

  /** The insertion sort meets the contract of a stable sort. */
  lemma {:induction false} SortIsStable<T(!new)>(s: seq<T>, le: (T, T) -> bool)
    requires TotalPreorder(le)
    ensures StableSorted(s, StableSort(s, le), le)
  {
    if s != [] {
      var front, last := s[..|s| - 1], s[|s| - 1];
      SortIsStable(front, le);
      InsertSorted(StableSort(front, le), last, le);
      var t := StableSort(front, le);
      forall y ensures Ties(StableSort(s, le), y, le) == Ties(s, y, le) {
        InsertTies(t, last, y, le);
        assert (t + [last])[..|t|] == t;
        assert Ties(t, y, le) == Ties(front, y, le);
      }
    }
  }

  lemma {:induction false} TiesMembers<T(!new)>(s: seq<T>, x: T, le: (T, T) -> bool)
    ensures forall y :: y in Ties(s, x, le) <==> y in s && le(x, y) && le(y, x)
  {
    if s != [] {
      TiesMembers(s[..|s| - 1], x, le);
      assert s == s[..|s| - 1] + [s[|s| - 1]];
    }
  }

  lemma LastTie<T>(s: seq<T>, x: T, le: (T, T) -> bool)
    requires s != [] && le(x, s[|s| - 1]) && le(s[|s| - 1], x)
    ensures Ties(s, x, le) != [] && Ties(s, x, le)[|Ties(s, x, le)| - 1] == s[|s| - 1]
  {}

  lemma NotAfterLast<T>(s: seq<T>, x: T, le: (T, T) -> bool)
    requires s != [] && Sorted(s, le) && x in s && le(x, x)
    ensures le(x, s[|s| - 1])
  {
    var i :| 0 <= i < |s| && s[i] == x;
    if i < |s| - 1 { assert le(s[i], s[|s| - 1]); }
  }

  /** Sorted sequences with the same tie classes end in the same element. */
  lemma SameLast<T(!new)>(s: seq<T>, t: seq<T>, le: (T, T) -> bool)
    requires Sorted(s, le) && Sorted(t, le) && s != [] && t != []
    requires forall x :: le(x, x)
    requires forall x :: Ties(s, x, le) == Ties(t, x, le)
    ensures s[|s| - 1] == t[|t| - 1]
  {
    var a, b := s[|s| - 1], t[|t| - 1];
    TiesMembers(s, a, le); TiesMembers(t, a, le);
    TiesMembers(s, b, le); TiesMembers(t, b, le);
    assert a in Ties(s, a, le) && b in Ties(t, b, le);
    assert a in Ties(t, a, le) && b in Ties(s, b, le);
    NotAfterLast(t, a, le);
    NotAfterLast(s, b, le);
    LastTie(s, a, le);
    LastTie(t, a, le);
  }

  lemma SameFront<T>(front: seq<T>, front': seq<T>, a: T, x: T, le: (T, T) -> bool)
    requires Ties(front + [a], x, le) == Ties(front' + [a], x, le)
    ensures Ties(front, x, le) == Ties(front', x, le)
  {
    var e := if le(x, a) && le(a, x) then [a] else [];
    assert (front + [a])[..|front|] == front && (front' + [a])[..|front'|] == front';
    assert Ties(front + [a], x, le) == Ties(front, x, le) + e;
    assert Ties(front' + [a], x, le) == Ties(front', x, le) + e;
    assert Ties(front, x, le) == (Ties(front, x, le) + e)[..|Ties(front + [a], x, le)| - |e|];
  }

  /** Two sorted sequences with the same tie classes are equal: the stable arrangement is unique. */
  lemma {:induction false} SortedTiesUnique<T(!new)>(s: seq<T>, t: seq<T>, le: (T, T) -> bool)
    requires TotalPreorder(le) && Sorted(s, le) && Sorted(t, le)
    requires forall x :: Ties(s, x, le) == Ties(t, x, le)
    ensures s == t
  {
    assert forall x :: le(x, x);
    if s != [] && t == [] {
      LastTie(s, s[|s| - 1], le);
    } else if s == [] && t != [] {
      LastTie(t, t[|t| - 1], le);
    } else if s != [] && t != [] {
      SameLast(s, t, le);
      var front, front', a := s[..|s| - 1], t[..|t| - 1], s[|s| - 1];
      assert s == front + [a] && t == front' + [a];
      forall x ensures Ties(front, x, le) == Ties(front', x, le) {
        SameFront(front, front', a, x, le);
      }
      SortedTiesUnique(front, front', le);
    }
  }

  lemma DropLast<T>(s: seq<T>, t: seq<T>)
    requires s != [] && t != [] && s[|s| - 1] == t[|t| - 1]
    requires multiset(s) == multiset(t)
    ensures multiset(s[..|s| - 1]) == multiset(t[..|t| - 1])
  {
    assert s == s[..|s| - 1] + [s[|s| - 1]] && t == t[..|t| - 1] + [t[|t| - 1]];
    assert multiset(s[..|s| - 1]) == multiset(s) - multiset{s[|s| - 1]};
    assert multiset(t[..|t| - 1]) == multiset(t) - multiset{t[|t| - 1]};
  }

  /** Under an antisymmetric order the sorted arrangement depends on the multiset alone. */
  lemma {:induction false} SortedMultisetUnique<T(!new)>(s: seq<T>, t: seq<T>, le: (T, T) -> bool)
    requires Sorted(s, le) && Sorted(t, le) && multiset(s) == multiset(t)
    requires forall a :: le(a, a)
    requires forall a, b :: le(a, b) && le(b, a) ==> a == b
    ensures s == t
  {
    assert |multiset(s)| == |multiset(t)|;
    if s != [] {
      var a, b := s[|s| - 1], t[|t| - 1];
      assert a in multiset(t) && b in multiset(s);
      NotAfterLast(t, a, le);
      NotAfterLast(s, b, le);
      DropLast(s, t);
      SortedMultisetUnique(s[..|s| - 1], t[..|t| - 1], le);
      assert s == s[..|s| - 1] + [a] && t == t[..|t| - 1] + [b];
    }
  }

  lemma {:induction false} TiesOfFilter<T>(s: seq<T>, keep: T -> bool, x: T, le: (T, T) -> bool)
    ensures Ties(Filter(s, keep), x, le) == Filter(Ties(s, x, le), keep)
  {
    if s != [] {
      var front, last := s[..|s| - 1], s[|s| - 1];
      TiesOfFilter(front, keep, x, le);
      var kept, tied := Filter(front, keep), Ties(front, x, le);
      assert Filter(s, keep) == kept + if keep(last) then [last] else [];
      assert (kept + [last])[..|kept|] == kept && kept + [] == kept;
      assert Ties(s, x, le) == tied + if le(x, last) && le(last, x) then [last] else [];
      assert (tied + [last])[..|tied|] == tied && tied + [] == tied;
      assert Filter(tied, keep) + [] == Filter(tied, keep);
      assert Ties(kept, x, le) + [] == Ties(kept, x, le);
    }
  }

  lemma {:induction false} FilterSorted<T(!new)>(s: seq<T>, keep: T -> bool, le: (T, T) -> bool)
    requires Sorted(s, le)
    ensures Sorted(Filter(s, keep), le)
  {
    if s != [] {
      var front, last := s[..|s| - 1], s[|s| - 1];
      FilterSorted(front, keep, le);
      FilterMembers(front, keep);
      var kept := Filter(front, keep);
      forall y | y in kept ensures le(y, last) {
        var j :| 0 <= j < |front| && front[j] == y;
        assert le(s[j], s[|s| - 1]);
      }
    }
  }

  /** Sorting commutes with dropping elements. */
  lemma SortFilter<T(!new)>(s: seq<T>, keep: T -> bool, le: (T, T) -> bool)
    requires TotalPreorder(le)
    ensures StableSort(Filter(s, keep), le) == Filter(StableSort(s, le), keep)
  {
    SortIsStable(s, le);
    SortIsStable(Filter(s, keep), le);
    FilterSorted(StableSort(s, le), keep, le);
    forall x ensures Ties(StableSort(Filter(s, keep), le), x, le) == Ties(Filter(StableSort(s, le), keep), x, le) {
      TiesOfFilter(s, keep, x, le);
      TiesOfFilter(StableSort(s, le), keep, x, le);
    }
    SortedTiesUnique(StableSort(Filter(s, keep), le), Filter(StableSort(s, le), keep), le);
  }

  /** Sorting commutes with a map that the order cannot see. */
  lemma {:induction false} SortMap<S(!new), T>(s: seq<S>, f: S -> T, les: (S, S) -> bool, le: (T, T) -> bool)
    requires forall a, b :: les(a, b) == le(f(a), f(b))
    ensures StableSort(Map(f, s), le) == Map(f, StableSort(s, les))
  {
    if s != [] {
      var front, last := s[..|s| - 1], s[|s| - 1];
      SortMap(front, f, les, le);
      assert Map(f, s)[..|s| - 1] == Map(f, front);
      InsertMap(StableSort(front, les), last, f, les, le);
    }
  }

  lemma {:induction false} InsertMap<S(!new), T>(s: seq<S>, x: S, f: S -> T, les: (S, S) -> bool, le: (T, T) -> bool)
    requires forall a, b :: les(a, b) == le(f(a), f(b))
    ensures Insert(Map(f, s), f(x), le) == Map(f, Insert(s, x, les))
  {
    if s != [] && !les(s[|s| - 1], x) {
      var front := s[..|s| - 1];
      InsertMap(front, x, f, les, le);
      assert Map(f, s)[..|s| - 1] == Map(f, front);
    }
  }
}
