// The ORM's `filter` and `order_by` on a query set. Filtering keeps the rows a
// predicate accepts, in storage order; ordering is a stable insertion sort
// under a caller-supplied "may come before" relation. The rows that compare
// equal under the ordering key keep their storage order; the database leaves
// that order unspecified, so the lemmas below promise only that the result is
// ordered and is a permutation of the input.
module Sorting {

  /** Every two elements are comparable. */
  ghost predicate Total<T(!new)>(le: (T, T) -> bool)
  {
    forall a, b :: le(a, b) || le(b, a)
  }

  ghost predicate Transitive<T(!new)>(le: (T, T) -> bool)
  {
    forall a, b, c :: le(a, b) && le(b, c) ==> le(a, c)
  }

  /** Each element may come before its successor. */
  ghost predicate Ordered<T>(s: seq<T>, le: (T, T) -> bool)
  {
    forall i :: 0 < i < |s| ==> le(s[i - 1], s[i])
  }

  /** Each element may come before every later one. */
  ghost predicate OrderedPairwise<T>(s: seq<T>, le: (T, T) -> bool)
  {
    forall i, j :: 0 <= i < j < |s| ==> le(s[i], s[j])
  }

  function Insert<T>(x: T, s: seq<T>, le: (T, T) -> bool): (r: seq<T>)
    ensures |r| == |s| + 1
    ensures r[0] == x || (s != [] && r[0] == s[0])
    ensures multiset(r) == multiset(s) + multiset{x}
  {
    if s == [] then [x]
    else if le(x, s[0]) then [x] + s
    else
      assert s == [s[0]] + s[1..];
      [s[0]] + Insert(x, s[1..], le)
  }

  function SortBy<T>(s: seq<T>, le: (T, T) -> bool): (r: seq<T>)
    ensures |r| == |s|
    ensures multiset(r) == multiset(s)
  {
    if s == [] then []
    else
      assert s == [s[0]] + s[1..];
      Insert(s[0], SortBy(s[1..], le), le)
  }

  lemma {:induction false} InsertOrdered<T(!new)>(x: T, s: seq<T>, le: (T, T) -> bool)
    requires Total(le)
    requires Ordered(s, le)
    ensures Ordered(Insert(x, s, le), le)
  {
    if s != [] && !le(x, s[0]) {
      assert le(s[0], x);
      InsertOrdered(x, s[1..], le);
      var t := Insert(x, s[1..], le);
      var r := [s[0]] + t;
      assert r == Insert(x, s, le);
      forall i | 0 < i < |r| ensures le(r[i - 1], r[i]) {
        if i == 1 {
          assert r[1] == t[0];
        } else {
          assert r[i - 1] == t[i - 2] && r[i] == t[i - 1];
        }
      }
    }
  }

  /** Sorting yields an ordered permutation of the rows. */
  lemma {:induction false} SortByOrdered<T(!new)>(s: seq<T>, le: (T, T) -> bool)
    requires Total(le)
    ensures Ordered(SortBy(s, le), le)
    ensures multiset(SortBy(s, le)) == multiset(s)
  {
    if s != [] {
      SortByOrdered(s[1..], le);
      InsertOrdered(s[0], SortBy(s[1..], le), le);
    }
  }

  /** For a transitive relation, neighbour order is order between any two. */
  lemma {:induction false} OrderedIsPairwise<T(!new)>(s: seq<T>, le: (T, T) -> bool)
    requires Transitive(le)
    requires Ordered(s, le)
    ensures OrderedPairwise(s, le)
  {
    forall i, j | 0 <= i < j < |s| ensures le(s[i], s[j]) {
      var k := i + 1;
      while k < j
        invariant i < k <= j
        invariant le(s[i], s[k])
      {
        assert le(s[k], s[k + 1]);
        k := k + 1;
      }
    }
  }

  /** `filter(...)`: the rows `keep` accepts, each as often as it is stored. */
  function Filter<T(!new)>(s: seq<T>, keep: T -> bool): (r: seq<T>)
    ensures |r| <= |s|
    ensures forall x :: x in r <==> x in s && keep(x)
    ensures forall x :: multiset(r)[x] == if keep(x) then multiset(s)[x] else 0
  {
    if s == [] then []
    else
      assert s == [s[0]] + s[1..];
      if keep(s[0]) then [s[0]] + Filter(s[1..], keep) else Filter(s[1..], keep)
  }

  /** Lexicographic order on strings, by character code: a prefix comes first. */
  predicate LexLe(a: string, b: string)
  {
    a == [] || (b != [] && (a[0] < b[0] || (a[0] == b[0] && LexLe(a[1..], b[1..]))))
  }

  lemma {:induction false} LexTotal(a: string, b: string)
    ensures LexLe(a, b) || LexLe(b, a)
  {
    if a != [] && b != [] && a[0] == b[0] {
      LexTotal(a[1..], b[1..]);
    }
  }

  lemma {:induction false} LexTransitive(a: string, b: string, c: string)
    requires LexLe(a, b) && LexLe(b, c)
    ensures LexLe(a, c)
  {
    if a != [] && b != [] && c != [] && a[0] == b[0] && b[0] == c[0] {
      LexTransitive(a[1..], b[1..], c[1..]);
    }
  }

  /** Only equal strings are ordered both ways. */
  lemma {:induction false} LexAntisymmetric(a: string, b: string)
    requires LexLe(a, b) && LexLe(b, a)
    ensures a == b
  {
    if a != [] && b != [] {
      LexAntisymmetric(a[1..], b[1..]);
      assert a == [a[0]] + a[1..] && b == [b[0]] + b[1..];
    }
  }
}
