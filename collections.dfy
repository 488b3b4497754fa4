/**
 Generic sequence and table operations that the dashboard's data frame
 expressions are built from: boolean-mask filtering (`df[mask]`), counting
 occurrences per key (`groupby(...).size()` and `value_counts()`), and the
 total of a count table.
 */
module Collections {

  datatype Option<T> = None | Some(value: T)

  /** `a` is obtained from `b` by deleting elements, keeping the order of the rest. */
  ghost predicate Subsequence<T>(a: seq<T>, b: seq<T>)
    decreases |b|
  {
    a == [] || (b != [] && ((a[0] == b[0] && Subsequence(a[1..], b[1..])) || Subsequence(a, b[1..])))
  }

  lemma {:induction false} SubsequenceLength<T>(a: seq<T>, b: seq<T>)
    requires Subsequence(a, b)
    ensures |a| <= |b|
    decreases |b|
  {
    if a != [] {
      if a[0] == b[0] && Subsequence(a[1..], b[1..]) {
        SubsequenceLength(a[1..], b[1..]);
      } else {
        SubsequenceLength(a, b[1..]);
      }
    }
  }

  /** A subsequence as long as the whole is the whole. */
  lemma {:induction false} SubsequenceOfSameLength<T>(a: seq<T>, b: seq<T>)
    requires Subsequence(a, b) && |a| == |b|
    ensures a == b
    decreases |b|
  {
    if a != [] {
      if a[0] == b[0] && Subsequence(a[1..], b[1..]) {
        SubsequenceOfSameLength(a[1..], b[1..]);
        assert a == [a[0]] + a[1..] && b == [b[0]] + b[1..];
      } else {
        SubsequenceLength(a, b[1..]);
      }
    }
  }

  /** The rows of `s` for which the mask `p` holds, in their original order. */
  function Filter<T(!new)>(s: seq<T>, p: T -> bool): (r: seq<T>)
    ensures |r| <= |s|
    ensures forall x :: multiset(r)[x] == if p(x) then multiset(s)[x] else 0
    ensures forall x :: x in r <==> x in s && p(x)
    ensures Subsequence(r, s)
  {
    if s == [] then []
    else
      assert s == [s[0]] + s[1..];
      if p(s[0]) then [s[0]] + Filter(s[1..], p) else Filter(s[1..], p)
  }

  /** Applying two masks one after the other is the same as applying their conjunction once. */
  lemma {:induction false} FilterTwice<T(!new)>(s: seq<T>, p: T -> bool, q: T -> bool, both: T -> bool)
    requires forall x :: both(x) == (p(x) && q(x))
    ensures Filter(Filter(s, p), q) == Filter(s, both)
  {
    if s != [] {
      FilterTwice(s[1..], p, q, both);
      if p(s[0]) {
        assert ([s[0]] + Filter(s[1..], p))[1..] == Filter(s[1..], p);
      }
    }
  }

  /** Occurrence count of each distinct element of `xs`; elements that do not occur get no entry. */
  function Tally<K(!new)>(xs: seq<K>): (m: map<K, nat>)
    ensures forall k :: k in m <==> k in xs
    ensures forall k :: k in m ==> m[k] == multiset(xs)[k] && m[k] >= 1
  {
    if xs == [] then map[]
    else
      assert xs == [xs[0]] + xs[1..];
      var m := Tally(xs[1..]);
      m[xs[0] := (if xs[0] in m then m[xs[0]] else 0) + 1]
  }

  /** Sum of all counts of a table. */
  ghost function Total<K>(m: map<K, nat>): nat
    decreases |m|
  {
    if m == map[] then 0
    else
      var k :| k in m;
      assert |m - {k}| < |m| by { assert (m - {k}).Keys == m.Keys - {k}; }
      m[k] + Total(m - {k})
  }

  /** The total does not depend on which key is taken out first. */
  lemma {:induction false} TotalRemove<K>(m: map<K, nat>, k: K)
    requires k in m
    ensures Total(m) == m[k] + Total(m - {k})
    decreases |m|
  {
    var j :| j in m && Total(m) == m[j] + Total(m - {j});
    if j != k {
      assert (m - {j}).Keys == m.Keys - {j};
      assert (m - {k}).Keys == m.Keys - {k};
      TotalRemove(m - {j}, k);
      TotalRemove(m - {k}, j);
      assert m - {j} - {k} == m - {k} - {j};
    }
  }

  /** The total of a table with at most the two keys `a` and `b`. */
  lemma TotalOfTwo<K>(m: map<K, nat>, a: K, b: K)
    requires a != b
    requires forall k :: k in m ==> k == a || k == b
    ensures Total(m) == (if a in m then m[a] else 0) + (if b in m then m[b] else 0)
  {
  }

  /** Every occurrence is counted exactly once. */
  lemma {:induction false} TallyTotal<K(!new)>(xs: seq<K>)
    ensures Total(Tally(xs)) == |xs|
  {
    if xs != [] {
      var m := Tally(xs[1..]);
      var k := xs[0];
      var m' := Tally(xs);
      TallyTotal(xs[1..]);
      TotalRemove(m', k);
      assert m' - {k} == m - {k};
      if k in m {
        TotalRemove(m, k);
      } else {
        assert m - {k} == m;
      }
    }
  }
}
