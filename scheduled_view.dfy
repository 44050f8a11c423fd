/** The dashboard's scheduled view: the drafts whose status is `scheduled`,
    in ascending order of their sort key, as `drafts.filter(...).sort(...)`
    computes it. `Array.prototype.sort` is stable, so drafts with equal keys
    keep the order the filter gave them; `SortByKey` is that stable sort. */
module ScheduledView {
  import opened Drafts
  import opened Seqs

  /** No draft compares greater than a draft that comes after it. */
  predicate Sorted(s: seq<Draft>) {
    forall i, j :: 0 <= i < j < |s| ==> Compare(s[i], s[j]) <= 0
  }

  function HasKey(k: int): Draft -> bool {
    (d: Draft) => SortKey(d) == k
  }

  /** The drafts of `s` whose sort key is `k`, in their order in `s`. */
  function WithKey(s: seq<Draft>, k: int): seq<Draft> {
    Filter(s, HasKey(k))
  }

  /** `t` lists the drafts of each key in the order `s` lists them: what a
      stable sort keeps of its input. */
  ghost predicate KeepsTieOrder(t: seq<Draft>, s: seq<Draft>) {
    forall k :: WithKey(t, k) == WithKey(s, k)
  }

  lemma WithKeyCons(x: Draft, s: seq<Draft>)
    ensures forall k :: WithKey([x] + s, k) == (if SortKey(x) == k then [x] else []) + WithKey(s, k)
  {
    forall k ensures WithKey([x] + s, k) == (if SortKey(x) == k then [x] else []) + WithKey(s, k) {
      FilterCons(x, s, HasKey(k));
    }
  }

  lemma SortedCons(x: Draft, s: seq<Draft>)
    requires Sorted(s)
    requires forall y :: y in s ==> Compare(x, y) <= 0
    ensures Sorted([x] + s)
  {
    forall i, j | 0 <= i < j < |[x] + s| ensures Compare(([x] + s)[i], ([x] + s)[j]) <= 0 {
      assert ([x] + s)[j] == s[j - 1];
      if i > 0 {
        assert ([x] + s)[i] == s[i - 1];
      }
    }
  }

  /** One step of the stable sort: `x` goes in front of the first draft that
      does not compare smaller than it. */
  function Insert(x: Draft, r: seq<Draft>): (t: seq<Draft>)
    ensures multiset(t) == multiset(r) + multiset{x}
  {
    if r == [] || Compare(x, r[0]) <= 0 then [x] + r
    else
      assert r == [r[0]] + r[1..];
      [r[0]] + Insert(x, r[1..])
  }

  /** Inserting into a sorted sequence keeps it sorted. */
  lemma {:induction false} InsertSorted(x: Draft, r: seq<Draft>)
    requires Sorted(r)
    ensures Sorted(Insert(x, r))
  {
    if r == [] || Compare(x, r[0]) <= 0 {
      assert forall y :: y in r ==> Compare(r[0], y) <= 0;
      SortedCons(x, r);
    } else {
      var t' := Insert(x, r[1..]);
      InsertSorted(x, r[1..]);
      forall y | y in t' ensures Compare(r[0], y) <= 0 {
        assert multiset(t')[y] > 0;
      }
      SortedCons(r[0], t');
    }
  }

  /** Inserting `x` puts it in front of every draft with the same key: among
      drafts of its key it comes first, and the others keep their order. */
  lemma {:induction false} InsertTies(x: Draft, r: seq<Draft>, k: int)
    ensures WithKey(Insert(x, r), k) == (if SortKey(x) == k then [x] else []) + WithKey(r, k)
  {
    if r == [] || Compare(x, r[0]) <= 0 {
      FilterCons(x, r, HasKey(k));
    } else {
      var t' := Insert(x, r[1..]);
      assert Insert(x, r) == [r[0]] + t';
      InsertTies(x, r[1..], k);
      FilterCons(r[0], t', HasKey(k));
      assert SortKey(r[0]) < SortKey(x);
    }
  }

  lemma InsertKeepsTies(x: Draft, r: seq<Draft>)
    ensures forall k :: WithKey(Insert(x, r), k) == (if SortKey(x) == k then [x] else []) + WithKey(r, k)
  {
    forall k {
      InsertTies(x, r, k);
    }
  }

  /** `Array.prototype.sort` with `Compare` as the comparator. */
  function SortByKey(s: seq<Draft>): (t: seq<Draft>)
    ensures multiset(t) == multiset(s)
    ensures Sorted(t)
    ensures KeepsTieOrder(t, s)
  {
    if s == [] then []
    else
      assert s == [s[0]] + s[1..];
      WithKeyCons(s[0], s[1..]);
      InsertSorted(s[0], SortByKey(s[1..]));
      InsertKeepsTies(s[0], SortByKey(s[1..]));
      Insert(s[0], SortByKey(s[1..]))
  }

  /** The `scheduledCasts` projection of the draft list. */
  function ScheduledCasts(drafts: seq<Draft>): (r: seq<Draft>)
    ensures forall d :: d in r <==> d in drafts && IsScheduled(d)
    ensures forall d :: multiset(r)[d] == if IsScheduled(d) then multiset(drafts)[d] else 0
    ensures Sorted(r)
    ensures KeepsTieOrder(r, Filter(drafts, IsScheduled))
  {
    FilterContents(drafts, IsScheduled);
    SortByKey(Filter(drafts, IsScheduled))
  }

  /** A draft without a timestamp sorts as the epoch, so it comes before every
      draft timestamped after the epoch. */
  lemma PendingBeforeTimed(drafts: seq<Draft>, i: nat, j: nat)
    requires i < |ScheduledCasts(drafts)| && j < |ScheduledCasts(drafts)|
    requires !HasTime(ScheduledCasts(drafts)[i])
    requires HasTime(ScheduledCasts(drafts)[j]) && ScheduledCasts(drafts)[j].scheduledFor.value.millis > 0
    ensures i < j
  {
  }

  lemma WithKeyMembers(s: seq<Draft>, k: int)
    ensures forall x :: x in WithKey(s, k) ==> x in s && SortKey(x) == k
  {
    FilterContents(s, HasKey(k));
  }

  /** Splitting off the first draft of a non-empty sequence. */
  lemma WithKeyFirst(s: seq<Draft>)
    requires s != []
    ensures WithKey(s, SortKey(s[0])) == [s[0]] + WithKey(s[1..], SortKey(s[0]))
    ensures forall k :: k != SortKey(s[0]) ==> WithKey(s, k) == WithKey(s[1..], k)
  {
    assert s == [s[0]] + s[1..];
    WithKeyCons(s[0], s[1..]);
  }

  /** The first draft of a sorted sequence has the least key of all its drafts. */
  lemma SortedFirstLeast(t: seq<Draft>, k: int)
    requires Sorted(t) && t != []
    requires WithKey(t, k) != []
    ensures SortKey(t[0]) <= k
  {
    WithKeyMembers(t, k);
    var y := WithKey(t, k)[0];
    assert y in WithKey(t, k);
    var m :| 0 <= m < |t| && t[m] == y;
    if m > 0 {
      assert Compare(t[0], t[m]) <= 0;
    }
  }

  /** Two sorted sequences that keep each other's tie order start with the
      same draft, and what follows it keeps the tie order too. */
  lemma SameFirst(t: seq<Draft>, u: seq<Draft>)
    requires Sorted(t) && Sorted(u) && KeepsTieOrder(t, u)
    requires t != [] && u != []
    ensures t[0] == u[0]
    ensures KeepsTieOrder(t[1..], u[1..])
  {
    var a, b := t[0], u[0];
    WithKeyFirst(t);
    WithKeyFirst(u);
    SortedFirstLeast(t, SortKey(b));
    SortedFirstLeast(u, SortKey(a));
    var k0 := SortKey(a);
    var ta, ub := WithKey(t[1..], k0), WithKey(u[1..], k0);
    assert [a] + ta == [b] + ub;
    assert ([a] + ta)[0] == a && ([b] + ub)[0] == b;
    assert ([a] + ta)[1..] == ta && ([b] + ub)[1..] == ub;
  }

  /** A sorted arrangement that keeps the order of ties is unique: two sorted
      sequences that list the drafts of every key in the same order are equal. */
  lemma {:induction false} SortedUnique(t: seq<Draft>, u: seq<Draft>)
    requires Sorted(t) && Sorted(u) && KeepsTieOrder(t, u)
    ensures t == u
    decreases |t|
  {
    if t != [] {
      WithKeyFirst(t);
      assert WithKey(u, SortKey(t[0])) != [];
    }
    if u != [] {
      WithKeyFirst(u);
      assert WithKey(t, SortKey(u[0])) != [];
    }
    if t != [] && u != [] {
      SameFirst(t, u);
      SortedUnique(t[1..], u[1..]);
      assert t == [t[0]] + t[1..] && u == [u[0]] + u[1..];
    }
  }

  /** The scheduled view is the one sorted arrangement of the scheduled
      drafts that keeps drafts with equal keys in their order in the list. */
  lemma ScheduledCastsCharacterized(drafts: seq<Draft>, t: seq<Draft>)
    ensures t == ScheduledCasts(drafts) <==> Sorted(t) && KeepsTieOrder(t, Filter(drafts, IsScheduled))
  {
    if Sorted(t) && KeepsTieOrder(t, Filter(drafts, IsScheduled)) {
      SortedUnique(t, ScheduledCasts(drafts));
    }
  }

  /** Dropping drafts from a sorted sequence leaves it sorted. */
  lemma {:induction false} FilterSorted(t: seq<Draft>, p: Draft -> bool)
    requires Sorted(t)
    ensures Sorted(Filter(t, p))
  {
    if t != [] {
      FilterSorted(t[1..], p);
      var f := Filter(t[1..], p);
      FilterContents(t[1..], p);
      if p(t[0]) {
        forall y | y in f ensures Compare(t[0], y) <= 0 {
          var m :| 0 <= m < |t[1..]| && t[1..][m] == y;
          assert t[m + 1] == y;
        }
        SortedCons(t[0], f);
      }
    }
  }

  /** Computing the view of a shrunken draft list gives the old view with the
      same drafts dropped: no draft changes place relative to the others. */
  lemma ViewCommutesWithFilter(drafts: seq<Draft>, p: Draft -> bool)
    ensures ScheduledCasts(Filter(drafts, p)) == Filter(ScheduledCasts(drafts), p)
  {
    var v := ScheduledCasts(drafts);
    FilterSorted(v, p);
    forall k ensures WithKey(Filter(v, p), k) == WithKey(Filter(Filter(drafts, p), IsScheduled), k) {
      calc {
        WithKey(Filter(v, p), k);
        { FilterCommutes(v, p, HasKey(k)); }
        Filter(WithKey(v, k), p);
        Filter(WithKey(Filter(drafts, IsScheduled), k), p);
        { FilterCommutes(Filter(drafts, IsScheduled), HasKey(k), p); }
        WithKey(Filter(Filter(drafts, IsScheduled), p), k);
        { FilterCommutes(drafts, IsScheduled, p); }
        WithKey(Filter(Filter(drafts, p), IsScheduled), k);
      }
    }
    ScheduledCastsCharacterized(Filter(drafts, p), Filter(v, p));
  }

  /** After the store drops the draft with id `id`, the next view is the
      previous view without it, everything else in the same order. */
  function OtherThan(id: string): Draft -> bool {
    (d: Draft) => d.id != id
  }

  lemma ViewAfterRemoval(drafts: seq<Draft>, id: string, remaining: seq<Draft>)
    requires remaining == Filter(drafts, OtherThan(id))
    ensures ScheduledCasts(remaining) == Filter(ScheduledCasts(drafts), OtherThan(id))
    ensures forall d :: d in ScheduledCasts(remaining) ==> d.id != id
  {
    ViewCommutesWithFilter(drafts, OtherThan(id));
    FilterContents(ScheduledCasts(drafts), OtherThan(id));
  }

  /** Two drafts the comparator finds out of order are swapped. */
  lemma SwapsOutOfOrderPair(a: Draft, b: Draft)
    requires Compare(a, b) > 0
    ensures SortByKey([a, b]) == [b, a]
  {
    assert [a, b][1..] == [b] && [b][1..] == [];
    assert SortByKey([b]) == [b];
    assert Insert(a, [b]) == [b] + Insert(a, []);
  }

  /** Two scheduled drafts, the first due later than the second, and one
      draft that is not scheduled: the view holds the second, then the first. */
  lemma LaterListedEarlierShown(a: Draft, b: Draft, c: Draft)
    requires IsScheduled(a) && IsScheduled(b) && !IsScheduled(c)
    requires Compare(a, b) > 0
    ensures ScheduledCasts([a, b, c]) == [b, a]
  {
    assert Filter([a, b, c], IsScheduled) == [a, b] by {
      assert [a, b, c][1..] == [b, c] && [b, c][1..] == [c] && [c][1..] == [];
      assert Filter([c], IsScheduled) == [];
      assert Filter([b, c], IsScheduled) == [b];
    }
    SwapsOutOfOrderPair(a, b);
  }

  /** Drafts due at 2024-01-02T10:00Z and 2024-01-01T09:00Z, listed in that
      order, and an unscheduled draft: the earlier one is shown first. */
  lemma EarlierFirstExample()
    ensures
      var a := Draft("a", Scheduled, Some(ScheduledTime("2024-01-02T10:00:00Z", 1704189600000)));
      var b := Draft("b", Scheduled, Some(ScheduledTime("2024-01-01T09:00:00Z", 1704099600000)));
      ScheduledCasts([a, b, Draft("c", OtherStatus, None)]) == [b, a]
  {
    var a := Draft("a", Scheduled, Some(ScheduledTime("2024-01-02T10:00:00Z", 1704189600000)));
    var b := Draft("b", Scheduled, Some(ScheduledTime("2024-01-01T09:00:00Z", 1704099600000)));
    LaterListedEarlierShown(a, b, Draft("c", OtherStatus, None));
  }

  /** `filter` returns a new array and `sort` reorders only that one: the
      view is a fresh array and the draft list is left as it was. */
  method ScheduledCastsOf(drafts: array<Draft>) returns (view: array<Draft>)
    ensures fresh(view)
    ensures view[..] == ScheduledCasts(drafts[..])
    ensures drafts[..] == old(drafts[..])
  {
    var s := ScheduledCasts(drafts[..]);
    view := new Draft[|s|](i requires 0 <= i < |s| => s[i]);
    assert view[..] == s;
  }
}
