/** Order-preserving filtering of sequences: the model of the erase/remove_if
    idiom, which keeps, in their original order, the elements a predicate does
    not reject. */
module Sequences {

  /** The elements of `s` that satisfy `p`, in their original order. */
  function Filter<X>(s: seq<X>, p: X -> bool): (r: seq<X>)
    ensures |r| <= |s|
    ensures forall x :: x in r ==> x in s && p(x)
    ensures forall x :: x in s && p(x) ==> x in r
  {
    if s == [] then []
    else (if p(s[0]) then [s[0]] else []) + Filter(s[1..], p)
  }

  lemma {:induction false} FilterAppend<X>(s: seq<X>, t: seq<X>, p: X -> bool)
    ensures Filter(s + t, p) == Filter(s, p) + Filter(t, p)
  {
    if s == [] {
      assert s + t == t;
    } else {
      assert (s + t)[1..] == s[1..] + t;
      FilterAppend(s[1..], t, p);
    }
  }

  /** Appending one element adds it at the end of the filtered sequence exactly
      when it satisfies the predicate. */
  lemma FilterSnoc<X>(s: seq<X>, x: X, p: X -> bool)
    ensures Filter(s + [x], p) == Filter(s, p) + (if p(x) then [x] else [])
  {
    FilterAppend(s, [x], p);
    assert Filter([x], p) == (if p(x) then [x] else []) + Filter([x][1..], p);
  }

  lemma {:induction false} FilterAll<X>(s: seq<X>, p: X -> bool)
    requires forall x :: x in s ==> p(x)
    ensures Filter(s, p) == s
  {
    if s != [] {
      FilterAll(s[1..], p);
      assert s == [s[0]] + s[1..];
    }
  }

  lemma FilterNone<X>(s: seq<X>, p: X -> bool)
    requires forall x :: x in s ==> !p(x)
    ensures Filter(s, p) == []
  {
  }

  /** Filtering twice does not depend on the order of the two filters. */
  lemma {:induction false} FilterCommutes<X>(s: seq<X>, p: X -> bool, q: X -> bool)
    ensures Filter(Filter(s, p), q) == Filter(Filter(s, q), p)
  {
    if s != [] {
      FilterCommutes(s[1..], p, q);
      var h := [s[0]];
      var hp := if p(s[0]) then h else [];
      var hq := if q(s[0]) then h else [];
      FilterAppend(hp, Filter(s[1..], p), q);
      FilterAppend(hq, Filter(s[1..], q), p);
      assert Filter(hp, q) == Filter(hq, p);
    }
  }

  /** When `p` and `q` never hold together, the elements satisfying either are
      those satisfying `p` together with those satisfying `q`. */
  lemma {:induction false} FilterSplitCount<X>(s: seq<X>, p: X -> bool, q: X -> bool, pq: X -> bool)
    requires forall x :: pq(x) == (p(x) || q(x))
    requires forall x :: !(p(x) && q(x))
    ensures multiset(Filter(s, pq)) == multiset(Filter(s, p)) + multiset(Filter(s, q))
  {
    if s != [] {
      FilterSplitCount(s[1..], p, q, pq);
    }
  }

  /** The elements of s in the opposite order. */
  function Reversed<X>(s: seq<X>): (r: seq<X>)
    ensures |r| == |s|
  {
    if s == [] then [] else [s[|s| - 1]] + Reversed(s[..|s| - 1])
  }

  lemma {:induction false} ReversedIndex<X>(s: seq<X>, k: nat)
    requires k < |s|
    ensures Reversed(s)[k] == s[|s| - 1 - k]
  {
    if k > 0 {
      ReversedIndex(s[..|s| - 1], k - 1);
    }
  }

  /** Reversing s + [x] puts x first. */
  lemma ReversedSnoc<X>(s: seq<X>, x: X)
    ensures Reversed(s + [x]) == [x] + Reversed(s)
  {
    assert (s + [x])[..|s + [x]| - 1] == s;
  }

  /** No element occurs twice. */
  predicate Distinct<X(==)>(s: seq<X>)
  {
    forall i, j :: 0 <= i < j < |s| ==> s[i] != s[j]
  }

  /** Appending an element not yet present keeps a sequence distinct. */
  lemma DistinctSnoc<X>(s: seq<X>, x: X)
    requires Distinct(s) && x !in s
    ensures Distinct(s + [x])
  {
    forall i, j | 0 <= i < j < |s + [x]| ensures (s + [x])[i] != (s + [x])[j] {
      assert (s + [x])[i] == s[i];
    }
  }

  /** The elements of a prefix are elements of the whole. */
  lemma PrefixMembers<X>(a: seq<X>, b: seq<X>)
    requires |a| <= |b| && b[..|a|] == a
    ensures forall x :: x in a ==> x in b
  {
    forall x | x in a ensures x in b {
      var i :| 0 <= i < |a| && a[i] == x;
      assert b[i] == x;
    }
  }
}
