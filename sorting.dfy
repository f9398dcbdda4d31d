/** `Array.prototype.sort` with a comparator: a stable sort. A comparator
    `(a, b) => ...` is read here as the strict order `lt(a, b)` = "the
    comparator is negative", and values it cannot tell apart keep their
    order. */
module Sorting {

  /** What a comparator must be for the sorted order to be well defined:
      irreflexive, transitive, and incomparability is transitive too. */
  ghost predicate StrictWeakOrder<T(!new)>(lt: (T, T) -> bool)
  {
    (forall a :: !lt(a, a)) &&
    (forall a, b, c :: lt(a, b) && lt(b, c) ==> lt(a, c)) &&
    (forall a, b, c :: lt(a, c) ==> lt(a, b) || lt(b, c))
  }

  predicate SortedBy<T>(s: seq<T>, lt: (T, T) -> bool)
  {
    forall i, j :: 0 <= i < j < |s| ==> !lt(s[j], s[i])
  }

  /** Neither is ordered before the other. */
  predicate Tied<T>(a: T, b: T, lt: (T, T) -> bool)
  {
    !lt(a, b) && !lt(b, a)
  }

  /** Inserts `x` before the first element that is not ordered before it. */
  function Insert<T>(x: T, s: seq<T>, lt: (T, T) -> bool): (r: seq<T>)
    ensures multiset(r) == multiset(s) + multiset{x}
    ensures |r| == |s| + 1
  {
    if s == [] || !lt(s[0], x) then [x] + s
    else
      assert s == [s[0]] + s[1..];
      [s[0]] + Insert(x, s[1..], lt)
  }

  /** The sorted copy `[...s].sort(cmp)`. */
  function SortBy<T>(s: seq<T>, lt: (T, T) -> bool): (r: seq<T>)
    ensures multiset(r) == multiset(s)
    ensures |r| == |s|
  {
    if s == [] then []
    else
      assert s == [s[0]] + s[1..];
      Insert(s[0], SortBy(s[1..], lt), lt)
  }

  /** The elements of `s` tied with `e`, in their order in `s`. */
  function TiedWith<T>(s: seq<T>, e: T, lt: (T, T) -> bool): (r: seq<T>)
    ensures |r| <= |s|
  {
    if s == [] then []
    else (if Tied(s[0], e, lt) then [s[0]] else []) + TiedWith(s[1..], e, lt)
  }

  /** The comparator facts the proofs below use, one instance at a time. */
  lemma Asymmetric<T(!new)>(a: T, b: T, lt: (T, T) -> bool)
    requires StrictWeakOrder(lt) && lt(a, b)
    ensures !lt(b, a)
  {
  }

  lemma NegTransitive<T(!new)>(a: T, b: T, c: T, lt: (T, T) -> bool)
    requires StrictWeakOrder(lt) && !lt(a, b) && !lt(b, c)
    ensures !lt(a, c)
  {
  }

  lemma SortedCons<T>(a: T, s: seq<T>, lt: (T, T) -> bool)
    requires SortedBy(s, lt)
    requires forall k :: 0 <= k < |s| ==> !lt(s[k], a)
    ensures SortedBy([a] + s, lt)
  {
    var r := [a] + s;
    forall i, j | 0 <= i < j < |r| ensures !lt(r[j], r[i]) {
      assert r[j] == s[j - 1];
      if i > 0 {
        assert r[i] == s[i - 1];
      }
    }
  }

  lemma SortedTail<T>(s: seq<T>, lt: (T, T) -> bool)
    requires SortedBy(s, lt) && s != []
    ensures SortedBy(s[1..], lt)
    ensures forall k :: 0 <= k < |s[1..]| ==> !lt(s[1..][k], s[0])
  {
    var tail := s[1..];
    forall i, j | 0 <= i < j < |tail| ensures !lt(tail[j], tail[i]) {
      assert tail[j] == s[j + 1] && tail[i] == s[i + 1];
    }
    forall k | 0 <= k < |tail| ensures !lt(tail[k], s[0]) {
      assert tail[k] == s[k + 1];
    }
  }

  lemma {:induction false} InsertSorted<T(!new)>(x: T, s: seq<T>, lt: (T, T) -> bool)
    requires StrictWeakOrder(lt) && SortedBy(s, lt)
    ensures SortedBy(Insert(x, s, lt), lt)
    decreases |s|
  {
    if s != [] && lt(s[0], x) {
      var tail := s[1..];
      SortedTail(s, lt);
      InsertSorted(x, tail, lt);
      var rest := Insert(x, tail, lt);
      forall k | 0 <= k < |rest| ensures !lt(rest[k], s[0]) {
        var y := rest[k];
        assert y in multiset(rest);
        if y == x {
          Asymmetric(s[0], x, lt);
        } else {
          assert y in multiset(tail);
          var n :| 0 <= n < |tail| && tail[n] == y;
        }
      }
      SortedCons(s[0], rest, lt);
    } else if s != [] {
      SortedTail(s, lt);
      forall k | 0 <= k < |s| ensures !lt(s[k], x) {
        if k > 0 {
          assert s[k] == s[1..][k - 1];
          NegTransitive(s[k], s[0], x, lt);
        }
      }
      SortedCons(x, s, lt);
    }
  }

  /** The sorted copy is sorted. */
  lemma {:induction false} SortBySorted<T(!new)>(s: seq<T>, lt: (T, T) -> bool)
    requires StrictWeakOrder(lt)
    ensures SortedBy(SortBy(s, lt), lt)
    decreases |s|
  {
    if s != [] {
      SortBySorted(s[1..], lt);
      InsertSorted(s[0], SortBy(s[1..], lt), lt);
    }
  }

  lemma TiedWithCons<T>(a: T, s: seq<T>, e: T, lt: (T, T) -> bool)
    ensures TiedWith([a] + s, e, lt) == (if Tied(a, e, lt) then [a] else []) + TiedWith(s, e, lt)
  {
    assert ([a] + s)[0] == a && ([a] + s)[1..] == s;
  }

  lemma {:induction false} InsertTied<T(!new)>(x: T, s: seq<T>, e: T, lt: (T, T) -> bool)
    requires StrictWeakOrder(lt)
    ensures TiedWith(Insert(x, s, lt), e, lt)
            == (if Tied(x, e, lt) then [x] else []) + TiedWith(s, e, lt)
    decreases |s|
  {
    if s != [] && lt(s[0], x) {
      InsertTied(x, s[1..], e, lt);
      TiedWithCons(s[0], Insert(x, s[1..], lt), e, lt);
      TiedWithCons(s[0], s[1..], e, lt);
      assert [s[0]] + s[1..] == s;
      if Tied(x, e, lt) {
        // s[0] comes before x, which is tied with e, so s[0] comes before e.
        NegTransitive(e, x, s[0], lt);
      }
    } else {
      TiedWithCons(x, s, e, lt);
    }
  }

  /** Stability: the elements tied with any `e` keep their relative order. */
  lemma {:induction false} SortByStable<T(!new)>(s: seq<T>, e: T, lt: (T, T) -> bool)
    requires StrictWeakOrder(lt)
    ensures TiedWith(SortBy(s, lt), e, lt) == TiedWith(s, e, lt)
    decreases |s|
  {
    if s != [] {
      SortByStable(s[1..], e, lt);
      InsertTied(s[0], SortBy(s[1..], lt), e, lt);
    }
  }
}
