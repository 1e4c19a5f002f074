/** Sequence operations that mirror the JavaScript array methods the cart and
    the search use: `find` (through the index of the element it returns) and
    `filter`. */
module Seqs {
  import opened Options

  /** `a` is `b` with some elements dropped and the rest kept in order. */
  predicate IsSubseq<T(==)>(a: seq<T>, b: seq<T>)
    decreases |b|
  {
    if |b| == 0 then |a| == 0
    else IsSubseq(a, b[1..]) || (|a| > 0 && a[0] == b[0] && IsSubseq(a[1..], b[1..]))
  }

  /** Index of the first element satisfying `f`: the element `find` returns
      sits at this index, and `find` returns nothing exactly when this is `None`. */
  function FindIndex<T>(s: seq<T>, f: T -> bool): (r: Option<nat>)
    ensures r.Some? ==> r.value < |s| && f(s[r.value])
    ensures r.Some? ==> forall j :: 0 <= j < r.value ==> !f(s[j])
    ensures r.None? <==> forall j :: 0 <= j < |s| ==> !f(s[j])
    decreases |s|
  {
    if |s| == 0 then None
    else if f(s[0]) then Some(0)
    else
      match FindIndex(s[1..], f)
      case None => None
      case Some(k) => Some(k + 1)
  }

  /** The elements satisfying `f`, in their original order, as `filter` returns them. */
  function Filter<T(==,!new)>(s: seq<T>, f: T -> bool): (r: seq<T>)
    ensures |r| <= |s|
    ensures forall x :: x in r <==> x in s && f(x)
    ensures (forall j :: 0 <= j < |s| ==> f(s[j])) ==> r == s
    decreases |s|
  {
    if |s| == 0 then []
    else if f(s[0]) then [s[0]] + Filter(s[1..], f) else Filter(s[1..], f)
  }

  /** Filtering keeps each element satisfying `f` as often as it occurs and drops the rest. */
  lemma {:induction false} FilterCounts<T(!new)>(s: seq<T>, f: T -> bool)
    ensures forall x :: multiset(Filter(s, f))[x] == if f(x) then multiset(s)[x] else 0
    decreases |s|
  {
    if |s| > 0 {
      assert s == [s[0]] + s[1..];
      FilterCounts(s[1..], f);
    }
  }

  /** Filtering keeps the original order. */
  lemma {:induction false} FilterIsSubseq<T(!new)>(s: seq<T>, f: T -> bool)
    ensures IsSubseq(Filter(s, f), s)
    decreases |s|
  {
    if |s| > 0 {
      FilterIsSubseq(s[1..], f);
      if f(s[0]) {
        assert ([s[0]] + Filter(s[1..], f))[1..] == Filter(s[1..], f);
      }
    }
  }

}
