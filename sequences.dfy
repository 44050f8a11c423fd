/** `Array.prototype.filter` on sequences, and how filters combine. */
module Seqs {

  /** The elements of `s` that satisfy `p`, in their order in `s`. */
  function Filter<T(!new)>(s: seq<T>, p: T -> bool): seq<T> {
    if s == [] then [] else (if p(s[0]) then [s[0]] else []) + Filter(s[1..], p)
  }

  /** The filter keeps every element that passes, as often as it occurs, and
      nothing else. */
  lemma {:induction false} FilterContents<T(!new)>(s: seq<T>, p: T -> bool)
    ensures forall x :: multiset(Filter(s, p))[x] == if p(x) then multiset(s)[x] else 0
    ensures forall x :: x in Filter(s, p) <==> x in s && p(x)
  {
    if s != [] {
      FilterContents(s[1..], p);
      assert s == [s[0]] + s[1..];
    }
  }

  /** Filtering `[x] + s` tests `x` first and then filters `s`. */
  lemma FilterCons<T(!new)>(x: T, s: seq<T>, p: T -> bool)
    ensures Filter([x] + s, p) == if p(x) then [x] + Filter(s, p) else Filter(s, p)
  {
    assert ([x] + s)[1..] == s;
  }

  /** Two filters applied one after the other give the same result in either order. */
  lemma {:induction false} FilterCommutes<T(!new)>(s: seq<T>, p: T -> bool, q: T -> bool)
    ensures Filter(Filter(s, p), q) == Filter(Filter(s, q), p)
  {
    if s != [] {
      FilterCommutes(s[1..], p, q);
      var x, t := s[0], s[1..];
      assert s == [x] + t;
      FilterCons(x, t, p);
      FilterCons(x, t, q);
      if p(x) { FilterCons(x, Filter(t, p), q); }
      if q(x) { FilterCons(x, Filter(t, q), p); }
    }
  }
}
