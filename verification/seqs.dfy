/** Sequence operations the table code is built from: element-wise mapping
    (a list comprehension), filtering (a boolean row mask) and sorting by a
    comparison (`sort_values`). The sort is an insertion sort; its contract
    promises an ordered permutation and nothing about the relative order of
    equal elements, which pandas' default sort does not promise either. */
module Seqs {

  function Map<A, B>(s: seq<A>, f: A -> B): (r: seq<B>)
    ensures |r| == |s|
    ensures forall i :: 0 <= i < |s| ==> r[i] == f(s[i])
  {
    seq(|s|, i requires 0 <= i < |s| => f(s[i]))
  }

  /** The elements of `s` that satisfy `p`, each as often as in `s`. */
  function Filter<T(!new)>(s: seq<T>, p: T -> bool): (r: seq<T>)
    ensures forall x :: multiset(r)[x] == if p(x) then multiset(s)[x] else 0
    ensures forall i :: 0 <= i < |r| ==> p(r[i])
  {
    if s == [] then []
    else
      assert s == [s[0]] + s[1..];
      if p(s[0]) then [s[0]] + Filter(s[1..], p) else Filter(s[1..], p)
  }

  /** Filtering a mapped sequence is mapping the sequence filtered by the
      composed condition. */
  lemma {:induction false} FilterMap<A(!new), B(!new)>(s: seq<A>, f: A -> B, p: B -> bool, q: A -> bool)
    requires forall x :: p(f(x)) == q(x)
    ensures Filter(Map(s, f), p) == Map(Filter(s, q), f)
  {
    if s != [] {
      var m := Map(s, f);
      assert m[1..] == Map(s[1..], f);
      FilterMap(s[1..], f, p, q);
      var rest := Filter(s[1..], q);
      if q(s[0]) {
        assert Filter(s, q) == [s[0]] + rest;
        assert Map([s[0]] + rest, f) == [f(s[0])] + Map(rest, f);
      } else {
        assert Filter(s, q) == rest;
      }
    }
  }

  predicate SortedBy<T>(s: seq<T>, le: (T, T) -> bool)
  {
    forall i, j :: 0 <= i < j < |s| ==> le(s[i], s[j])
  }

  /** `le` is total and transitive: a comparison a sort can order by. */
  ghost predicate TotalPreorder<T(!new)>(le: (T, T) -> bool)
  {
    && (forall a, b :: le(a, b) || le(b, a))
    && (forall a, b, c :: le(a, b) && le(b, c) ==> le(a, c))
  }

  /** Places `x` before the first element it is `le` to. */
  function Insert<T>(x: T, s: seq<T>, le: (T, T) -> bool): (r: seq<T>)
    ensures multiset(r) == multiset(s) + multiset{x}
    ensures |r| == |s| + 1
  {
    if s == [] then [x]
    else if le(x, s[0]) then [x] + s
    else
      assert s == [s[0]] + s[1..];
      [s[0]] + Insert(x, s[1..], le)
  }

  function Sort<T>(s: seq<T>, le: (T, T) -> bool): (r: seq<T>)
    ensures multiset(r) == multiset(s)
    ensures |r| == |s|
  {
    if s == [] then []
    else
      assert s == [s[0]] + s[1..];
      Insert(s[0], Sort(s[1..], le), le)
  }

  lemma {:induction false} InsertSorted<T(!new)>(x: T, s: seq<T>, le: (T, T) -> bool)
    requires TotalPreorder(le)
    requires SortedBy(s, le)
    ensures SortedBy(Insert(x, s, le), le)
  {
    if s != [] && !le(x, s[0]) {
      InsertSorted(x, s[1..], le);
      var r := Insert(x, s[1..], le);
      forall j | 0 <= j < |r| ensures le(s[0], r[j]) {
        assert r[j] in multiset(r);
        assert r[j] == x || r[j] in s[1..];
      }
    }
  }

  /** The sort orders its output by `le`. */
  lemma {:induction false} SortSorted<T(!new)>(s: seq<T>, le: (T, T) -> bool)
    requires TotalPreorder(le)
    ensures SortedBy(Sort(s, le), le)
  {
    if s != [] {
      SortSorted(s[1..], le);
      InsertSorted(s[0], Sort(s[1..], le), le);
    }
  }

  /** Sorting a sequence that is already ordered changes nothing. */
  lemma {:induction false} SortOfSorted<T>(s: seq<T>, le: (T, T) -> bool)
    requires SortedBy(s, le)
    ensures Sort(s, le) == s
  {
    if s != [] {
      assert SortedBy(s[1..], le);
      SortOfSorted(s[1..], le);
      assert [s[0]] + s[1..] == s;
    }
  }

  lemma {:induction false} InsertMap<A, B>(x: A, s: seq<A>, f: A -> B, la: (A, A) -> bool, lb: (B, B) -> bool)
    requires forall a, b :: lb(f(a), f(b)) == la(a, b)
    ensures Insert(f(x), Map(s, f), lb) == Map(Insert(x, s, la), f)
  {
    if s != [] {
      assert Map(s, f)[1..] == Map(s[1..], f);
      if la(x, s[0]) {
        assert Map([x] + s, f) == [f(x)] + Map(s, f);
      } else {
        InsertMap(x, s[1..], f, la, lb);
        assert Map([s[0]] + Insert(x, s[1..], la), f) == [f(s[0])] + Map(Insert(x, s[1..], la), f);
      }
    }
  }

  /** Sorting depends only on the comparison: sorting mapped elements by a
      comparison that agrees with `la` is mapping the `la`-sorted sequence. */
  lemma {:induction false} SortMap<A, B>(s: seq<A>, f: A -> B, la: (A, A) -> bool, lb: (B, B) -> bool)
    requires forall a, b :: lb(f(a), f(b)) == la(a, b)
    ensures Sort(Map(s, f), lb) == Map(Sort(s, la), f)
  {
    if s != [] {
      assert Map(s, f)[1..] == Map(s[1..], f);
      SortMap(s[1..], f, la, lb);
      InsertMap(s[0], Sort(s[1..], la), f, la, lb);
    }
  }

  /** A sequence with no repeated element has as many elements as its set. */
  lemma {:induction false} DistinctCard<T>(s: seq<T>)
    requires forall i, j :: 0 <= i < j < |s| ==> s[i] != s[j]
    ensures |set x | x in s| == |s|
  {
    if s != [] {
      DistinctCard(s[1..]);
      assert (set x | x in s) == (set x | x in s[1..]) + {s[0]};
      assert s[0] !in s[1..];
    }
  }
}
