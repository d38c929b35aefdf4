/**
 * Comparator results, total preorders and the stable sort that
 * `Array.prototype.sort` performs when given a consistent comparator.
 */
module Sorting {
  import opened Seqs

  /** The sign of a comparator's result: negative, zero (or `undefined`), positive. */
  datatype Ordering = LT | EQ | GT

  function Flip(o: Ordering): Ordering {
    match o
    case LT => GT
    case EQ => EQ
    case GT => LT
  }

  type Comparator<!T> = (T, T) -> Ordering

  /** A consistent comparator: antisymmetric in sign and transitive in "not greater". */
  ghost predicate IsTotalPreorder<T(!new)>(cmp: Comparator<T>) {
    && (forall a, b :: cmp(a, b) == Flip(cmp(b, a)))
    && (forall a, b, c :: cmp(a, b) != GT && cmp(b, c) != GT ==> cmp(a, c) != GT)
  }

  lemma {:induction false} LessThenNotGreater<T(!new)>(cmp: Comparator<T>, a: T, b: T, c: T)
    requires IsTotalPreorder(cmp)
    requires cmp(a, b) == LT && cmp(b, c) != GT
    ensures cmp(a, c) == LT
  {
    assert cmp(b, a) == GT;
    assert cmp(c, a) == Flip(cmp(a, c));
  }

  /** Nothing strictly above a value ties with a value that ties with it. */
  lemma {:induction false} TieExcludesGreater<T(!new)>(cmp: Comparator<T>, x: T, y: T, pivot: T)
    requires IsTotalPreorder(cmp)
    requires cmp(x, pivot) == EQ && cmp(x, y) == LT
    ensures cmp(y, pivot) != EQ
  {
    assert cmp(pivot, x) == EQ;
    assert cmp(y, x) == GT;
  }

  /** Every earlier element is not greater than every later one. */
  ghost predicate SortedBy<T>(s: seq<T>, cmp: Comparator<T>) {
    forall i, j :: 0 <= i < j < |s| ==> cmp(s[i], s[j]) != GT
  }

  /** Insertion after every element that is not greater than `x` (keeps ties in arrival order). */
  function Insert<T>(x: T, s: seq<T>, cmp: Comparator<T>): (r: seq<T>)
    ensures multiset(r) == multiset(s) + multiset{x}
    ensures |r| == |s| + 1
  {
    if s == [] then [x]
    else if cmp(s[0], x) == GT then [x] + s
    else
      assert s == [s[0]] + s[1..];
      [s[0]] + Insert(x, s[1..], cmp)
  }

  /** A stable sort: each element in turn is inserted into the sorted prefix before it. */
  function SortBy<T>(s: seq<T>, cmp: Comparator<T>): (r: seq<T>)
    ensures multiset(r) == multiset(s)
    ensures |r| == |s|
  {
    if s == [] then []
    else
      assert s == s[..|s| - 1] + [s[|s| - 1]];
      Insert(s[|s| - 1], SortBy(s[..|s| - 1], cmp), cmp)
  }

  lemma {:induction false} InsertSorted<T(!new)>(x: T, s: seq<T>, cmp: Comparator<T>)
    requires IsTotalPreorder(cmp) && SortedBy(s, cmp)
    ensures SortedBy(Insert(x, s, cmp), cmp)
  {
    if s == [] {
    } else if cmp(s[0], x) == GT {
      var r := [x] + s;
      forall j | 0 < j < |r| ensures cmp(x, r[j]) != GT {
        assert cmp(x, s[0]) == LT;
        if j > 1 {
          LessThenNotGreater(cmp, x, s[0], s[j - 1]);
        }
      }
    } else {
      var rest := Insert(x, s[1..], cmp);
      InsertSorted(x, s[1..], cmp);
      var r := [s[0]] + rest;
      forall j | 0 < j < |r| ensures cmp(s[0], r[j]) != GT {
        assert r[j] in multiset(rest);
        assert r[j] in multiset(s[1..]) + multiset{x};
        if r[j] != x {
          var k :| 0 <= k < |s[1..]| && s[1..][k] == r[j];
          assert s[k + 1] == r[j];
        }
      }
    }
  }

  lemma {:induction false} SortBySorted<T(!new)>(s: seq<T>, cmp: Comparator<T>)
    requires IsTotalPreorder(cmp)
    ensures SortedBy(SortBy(s, cmp), cmp)
  {
    if s != [] {
      SortBySorted(s[..|s| - 1], cmp);
      InsertSorted(s[|s| - 1], SortBy(s[..|s| - 1], cmp), cmp);
    }
  }

  /** The elements of `s` that tie with `pivot`, in their order in `s`. */
  function Ties<T>(s: seq<T>, pivot: T, cmp: Comparator<T>): seq<T> {
    if s == [] then []
    else (if cmp(s[0], pivot) == EQ then [s[0]] else []) + Ties(s[1..], pivot, cmp)
  }

  lemma {:induction false} TiesAppend<T>(a: seq<T>, b: seq<T>, pivot: T, cmp: Comparator<T>)
    ensures Ties(a + b, pivot, cmp) == Ties(a, pivot, cmp) + Ties(b, pivot, cmp)
  {
    if a == [] {
      AppendEmpty(a, b);
    } else {
      var head := if cmp(a[0], pivot) == EQ then [a[0]] else [];
      AppendTail(a, b);
      TiesAppend(a[1..], b, pivot, cmp);
      assert Ties(a + b, pivot, cmp) == head + Ties(a[1..] + b, pivot, cmp);
      AppendAssoc(head, Ties(a[1..], pivot, cmp), Ties(b, pivot, cmp));
    }
  }

  lemma {:induction false} NoTies<T>(s: seq<T>, pivot: T, cmp: Comparator<T>)
    requires forall k :: 0 <= k < |s| ==> cmp(s[k], pivot) != EQ
    ensures Ties(s, pivot, cmp) == []
  {
    if s != [] {
      NoTies(s[1..], pivot, cmp);
    }
  }

  lemma {:induction false} TiesAfterGreater<T(!new)>(x: T, s: seq<T>, pivot: T, cmp: Comparator<T>)
    requires IsTotalPreorder(cmp) && SortedBy(s, cmp)
    requires s != [] && cmp(s[0], x) == GT && cmp(x, pivot) == EQ
    ensures Ties(s, pivot, cmp) == []
  {
    forall k | 0 <= k < |s| ensures cmp(s[k], pivot) != EQ {
      assert cmp(x, s[0]) == LT;
      if k > 0 {
        LessThenNotGreater(cmp, x, s[0], s[k]);
      }
      TieExcludesGreater(cmp, x, s[k], pivot);
    }
    NoTies(s, pivot, cmp);
  }

  lemma {:induction false} InsertStableFront<T(!new)>(x: T, s: seq<T>, pivot: T, cmp: Comparator<T>)
    requires IsTotalPreorder(cmp) && SortedBy(s, cmp)
    requires s != [] && cmp(s[0], x) == GT
    ensures Ties([x] + s, pivot, cmp)
         == Ties(s, pivot, cmp) + (if cmp(x, pivot) == EQ then [x] else [])
  {
    TiesAppend([x], s, pivot, cmp);
    if cmp(x, pivot) == EQ {
      TiesAfterGreater(x, s, pivot, cmp);
    }
  }

  lemma {:induction false} InsertStable<T(!new)>(x: T, s: seq<T>, pivot: T, cmp: Comparator<T>)
    requires IsTotalPreorder(cmp) && SortedBy(s, cmp)
    ensures Ties(Insert(x, s, cmp), pivot, cmp)
         == Ties(s, pivot, cmp) + (if cmp(x, pivot) == EQ then [x] else [])
  {
    if s == [] {
    } else if cmp(s[0], x) == GT {
      InsertStableFront(x, s, pivot, cmp);
    } else {
      var head, tail := [s[0]], s[1..];
      var rest := Insert(x, tail, cmp);
      var tx := if cmp(x, pivot) == EQ then [x] else [];
      SortedTail(s, cmp);
      InsertStable(x, tail, pivot, cmp);
      assert Insert(x, s, cmp) == head + rest;
      TiesAppend(head, rest, pivot, cmp);
      TiesAppend(head, tail, pivot, cmp);
      ConsSplit(s);
      AppendAssoc(Ties(head, pivot, cmp), Ties(tail, pivot, cmp), tx);
    }
  }

  lemma {:induction false} SortedTail<T>(s: seq<T>, cmp: Comparator<T>)
    requires s != [] && SortedBy(s, cmp)
    ensures SortedBy(s[1..], cmp)
  {
    forall i, j | 0 <= i < j < |s| - 1
      ensures cmp(s[1..][i], s[1..][j]) != GT
    {
      assert s[1..][i] == s[i + 1] && s[1..][j] == s[j + 1];
    }
  }

  lemma {:induction false} InsertIntoSorted<T(!new)>(x: T, s: seq<T>, pivot: T, cmp: Comparator<T>)
    requires IsTotalPreorder(cmp)
    ensures Ties(Insert(x, SortBy(s, cmp), cmp), pivot, cmp)
         == Ties(SortBy(s, cmp), pivot, cmp) + (if cmp(x, pivot) == EQ then [x] else [])
  {
    SortBySorted(s, cmp);
    InsertStable(x, SortBy(s, cmp), pivot, cmp);
  }

  /** Stability: the elements tying with any given value come out in their input order. */
  lemma {:induction false} SortByStable<T(!new)>(s: seq<T>, pivot: T, cmp: Comparator<T>)
    requires IsTotalPreorder(cmp)
    ensures Ties(SortBy(s, cmp), pivot, cmp) == Ties(s, pivot, cmp)
  {
    if s != [] {
      SortByStable(s[..|s| - 1], pivot, cmp);
      InsertIntoSorted(s[|s| - 1], s[..|s| - 1], pivot, cmp);
      StableStep(s, pivot, cmp);
    }
  }

  /** The sequence algebra of one step of `SortByStable`. */
  lemma {:induction false} StableStep<T>(s: seq<T>, pivot: T, cmp: Comparator<T>)
    requires s != []
    requires Ties(SortBy(s[..|s| - 1], cmp), pivot, cmp) == Ties(s[..|s| - 1], pivot, cmp)
    requires Ties(Insert(s[|s| - 1], SortBy(s[..|s| - 1], cmp), cmp), pivot, cmp)
          == Ties(SortBy(s[..|s| - 1], cmp), pivot, cmp) + (if cmp(s[|s| - 1], pivot) == EQ then [s[|s| - 1]] else [])
    ensures Ties(SortBy(s, cmp), pivot, cmp) == Ties(s, pivot, cmp)
  {
    SortByLast(s, cmp);
    TiesLast(s, pivot, cmp);
  }

  /** `Ties` of a non-empty list, split at its last element. */
  lemma {:induction false} TiesLast<T>(s: seq<T>, pivot: T, cmp: Comparator<T>)
    requires s != []
    ensures Ties(s, pivot, cmp)
         == Ties(s[..|s| - 1], pivot, cmp) + (if cmp(s[|s| - 1], pivot) == EQ then [s[|s| - 1]] else [])
  {
    var init, last := s[..|s| - 1], s[|s| - 1];
    TiesAppend(init, [last], pivot, cmp);
    TiesSingle(last, pivot, cmp);
    assert s == init + [last];
  }

  lemma {:induction false} SortByLast<T>(s: seq<T>, cmp: Comparator<T>)
    requires s != []
    ensures SortBy(s, cmp) == Insert(s[|s| - 1], SortBy(s[..|s| - 1], cmp), cmp)
  {
  }

  lemma {:induction false} TiesSingle<T>(x: T, pivot: T, cmp: Comparator<T>)
    ensures Ties([x], pivot, cmp) == if cmp(x, pivot) == EQ then [x] else []
  {
    assert [x][1..] == [];
  }

  lemma {:induction false} SortSingle<T>(x: T, cmp: Comparator<T>)
    ensures SortBy([x], cmp) == [x]
  {
    assert [x][..0] == [];
  }

  lemma {:induction false} InsertPair<T>(x: T, y: T, cmp: Comparator<T>)
    ensures Insert(y, [x], cmp) == if cmp(x, y) == GT then [y, x] else [x, y]
  {
    assert [x][1..] == [];
  }

  /** Two elements are swapped exactly when the first compares greater. */
  lemma {:induction false} SortPair<T>(x: T, y: T, cmp: Comparator<T>)
    ensures SortBy([x, y], cmp) == if cmp(x, y) == GT then [y, x] else [x, y]
  {
    var s := [x, y];
    assert s[..1] == [x] && s[1] == y;
    SortSingle(x, cmp);
    InsertPair(x, y, cmp);
  }

  /** Sorting a list that is already in order changes nothing (a stable sort is idempotent). */
  lemma {:induction false} SortBySortedIsIdentity<T>(s: seq<T>, cmp: Comparator<T>)
    requires SortedBy(s, cmp)
    ensures SortBy(s, cmp) == s
  {
    if s != [] {
      var init, last := s[..|s| - 1], s[|s| - 1];
      assert SortedBy(init, cmp) by {
        forall i, j | 0 <= i < j < |init|
          ensures cmp(init[i], init[j]) != GT
        {
          assert init[i] == s[i] && init[j] == s[j];
        }
      }
      forall k | 0 <= k < |init|
        ensures cmp(init[k], last) != GT
      {
        assert init[k] == s[k];
      }
      SortBySortedIsIdentity(init, cmp);
      InsertAtEnd(last, init, cmp);
      assert SortBy(s, cmp) == Insert(last, init, cmp);
      Seqs.SnocSplit(s);
    }
  }

  lemma {:induction false} InsertAtEnd<T>(x: T, s: seq<T>, cmp: Comparator<T>)
    requires forall k :: 0 <= k < |s| ==> cmp(s[k], x) != GT
    ensures Insert(x, s, cmp) == s + [x]
  {
    if s != [] {
      InsertAtEnd(x, s[1..], cmp);
      assert s == [s[0]] + s[1..];
    }
  }

  /** Sorting permutes the list, so any projection of it keeps its multiset. */
  lemma {:induction false} SortByMapMultiset<T, U>(s: seq<T>, cmp: Comparator<T>, f: T -> U)
    ensures multiset(Map(SortBy(s, cmp), f)) == multiset(Map(s, f))
  {
    if s != [] {
      var init, last := s[..|s| - 1], s[|s| - 1];
      SortByMapMultiset(init, cmp, f);
      InsertMapMultiset(last, SortBy(init, cmp), cmp, f);
      SortByLast(s, cmp);
      MapLast(s, f);
    }
  }

  lemma {:induction false} MapLast<T, U>(s: seq<T>, f: T -> U)
    requires s != []
    ensures multiset(Map(s, f)) == multiset(Map(s[..|s| - 1], f)) + multiset{f(s[|s| - 1])}
  {
    SnocSplit(s);
    MapAppend(s[..|s| - 1], [s[|s| - 1]], f);
  }

  lemma {:induction false} InsertMapMultiset<T, U>(x: T, s: seq<T>, cmp: Comparator<T>, f: T -> U)
    ensures multiset(Map(Insert(x, s, cmp), f)) == multiset(Map(s, f)) + multiset{f(x)}
  {
    if s == [] {
    } else if cmp(s[0], x) == GT {
      var t := [x] + s;
      AppendTail([x], s);
      assert Map(t, f) == [f(x)] + Map(s, f);
    } else {
      var r := Insert(x, s[1..], cmp);
      var t := [s[0]] + r;
      assert Insert(x, s, cmp) == t;
      InsertMapMultiset(x, s[1..], cmp, f);
      AppendTail([s[0]], r);
      assert Map(t, f) == [f(s[0])] + Map(r, f);
    }
  }


}
