/**
  The maximum drawdown of portfolio_only_runtime.py, over reals.

  A snapshot's value is `None` when it is missing; the program drops those and every value
  that is not positive.  Creation times are integers in the order of the texts they stand for.
*/
module Drawdown {
  import opened Options

  datatype Snapshot = Snapshot(createdAt: int, nav: Option<real>)

  // ---------------------------------------------------------------- the series

  /** Stable insertion: after every snapshot that is not later. */
  function Insert(x: Snapshot, s: seq<Snapshot>): seq<Snapshot>
  {
    if s == [] then [x]
    else if s[|s| - 1].createdAt <= x.createdAt then s + [x]
    else Insert(x, s[..|s| - 1]) + [s[|s| - 1]]
  }

  function ByTime(s: seq<Snapshot>): seq<Snapshot>
  {
    if s == [] then [] else Insert(s[|s| - 1], ByTime(s[..|s| - 1]))
  }

  predicate Ordered(s: seq<Snapshot>) { forall i, j | 0 <= i < j < |s| :: s[i].createdAt <= s[j].createdAt }

  /** Snapshots created at the same time are the same snapshot. */
  predicate TimesIdentify(s: seq<Snapshot>) { forall x, y | x in s && y in s && x.createdAt == y.createdAt :: x == y }

  lemma SplitLast(s: seq<Snapshot>)
    requires s != []
    ensures multiset(s) == multiset(s[..|s| - 1]) + multiset{s[|s| - 1]}
  {
    assert s == s[..|s| - 1] + [s[|s| - 1]];
  }

  lemma {:induction false} InsertAdds(x: Snapshot, s: seq<Snapshot>)
    ensures multiset(Insert(x, s)) == multiset(s) + multiset{x}
  {
    if s != [] && x.createdAt < s[|s| - 1].createdAt {
      InsertAdds(x, s[..|s| - 1]);
      SplitLast(s);
    }
  }

  lemma {:induction false} InsertKeepsOrder(x: Snapshot, s: seq<Snapshot>)
    requires Ordered(s)
    ensures Ordered(Insert(x, s))
    ensures forall i | 0 <= i < |Insert(x, s)| :: Insert(x, s)[i] == x || Insert(x, s)[i] in s
  {
    if s != [] && x.createdAt < s[|s| - 1].createdAt {
      InsertKeepsOrder(x, s[..|s| - 1]);
    }
  }

  lemma {:induction false} ByTimeSorts(s: seq<Snapshot>)
    ensures Ordered(ByTime(s)) && multiset(ByTime(s)) == multiset(s)
  {
    if s != [] {
      var front := s[..|s| - 1];
      ByTimeSorts(front);
      InsertKeepsOrder(s[|s| - 1], ByTime(front));
      InsertAdds(s[|s| - 1], ByTime(front));
      SplitLast(s);
    }
  }

  lemma SameElements(s: seq<Snapshot>, t: seq<Snapshot>)
    requires multiset(s) == multiset(t)
    ensures |s| == |t| && forall x :: x in s <==> x in t
  {
    assert |multiset(s)| == |s| && |multiset(t)| == |t|;
    assert forall x :: x in s <==> x in multiset(s);
    assert forall x :: x in t <==> x in multiset(t);
  }

  lemma SameLast(s: seq<Snapshot>, t: seq<Snapshot>)
    requires Ordered(s) && Ordered(t) && multiset(s) == multiset(t) && TimesIdentify(s) && s != []
    ensures |t| == |s| && t[|s| - 1] == s[|s| - 1]
  {
    SameElements(s, t);
    assert s[|s| - 1] in t && t[|s| - 1] in s;
  }

  lemma SameFront(s: seq<Snapshot>, t: seq<Snapshot>)
    requires multiset(s) == multiset(t) && s != [] && |t| == |s| && t[|s| - 1] == s[|s| - 1]
    ensures multiset(s[..|s| - 1]) == multiset(t[..|s| - 1])
  {
    SplitLast(s);
    SplitLast(t);
    assert forall a: multiset<Snapshot>, x :: a + multiset{x} - multiset{x} == a;
  }

  lemma {:induction false} OrderedIsUnique(s: seq<Snapshot>, t: seq<Snapshot>)
    requires Ordered(s) && Ordered(t) && multiset(s) == multiset(t) && TimesIdentify(s)
    ensures s == t
  {
    if s == [] {
      SameElements(s, t);
    } else {
      var n := |s| - 1;
      SameLast(s, t);
      SameFront(s, t);
      OrderedIsUnique(s[..n], t[..n]);
      assert s == s[..n] + [s[n]] && t == t[..n] + [t[n]];
    }
  }

  /** Unless two different snapshots share a creation time, the series does not depend on the order of arrival. */
  lemma ArrivalOrderIsIrrelevant(a: seq<Snapshot>, b: seq<Snapshot>)
    requires multiset(a) == multiset(b) && TimesIdentify(a)
    ensures ByTime(a) == ByTime(b)
  {
    ByTimeSorts(a);
    ByTimeSorts(b);
    SameElements(a, ByTime(a));
    OrderedIsUnique(ByTime(a), ByTime(b));
  }

  ghost predicate AllPositive(navs: seq<real>) { forall i | 0 <= i < |navs| :: 0.0 < navs[i] }

  function Positive(snapshots: seq<Snapshot>): (navs: seq<real>)
    ensures AllPositive(navs)
  {
    if snapshots == [] then []
    else
      var n := |snapshots| - 1;
      Positive(snapshots[..n])
      + (if snapshots[n].nav.Some? && 0.0 < snapshots[n].nav.value then [snapshots[n].nav.value] else [])
  }

  /** The positive values are kept in the order of their snapshots: snapshot by snapshot. */
  lemma {:induction false} PositiveJoins(a: seq<Snapshot>, b: seq<Snapshot>)
    ensures Positive(a + b) == Positive(a) + Positive(b)
  {
    if b == [] {
      assert a + b == a;
    } else {
      var n := |b| - 1;
      PositiveJoins(a, b[..n]);
      assert (a + b)[..|a + b| - 1] == a + b[..n];
    }
  }

  /** What one snapshot contributes: its value, if there is one and it is positive. */
  lemma PositiveOfOne(x: Snapshot)
    ensures Positive([x]) == match x.nav
                             case Some(v) => (if v <= 0.0 then [] else [v])
                             case None => []
  {
    assert [x][..0] == [];
  }

  // ---------------------------------------------------------------- the measure

  /** The loss from the i-th to the j-th value. */
  function Loss(navs: seq<real>, i: nat, j: nat): real
    requires i <= j < |navs| && navs[i] > 0.0
  {
    navs[j] / navs[i] - 1.0
  }

  /** `d` is the least loss over all pairs i <= j, or zero of an empty series. */
  ghost predicate IsDrawdown(navs: seq<real>, d: real)
    requires AllPositive(navs)
  {
    if navs == [] then d == 0.0
    else
      && (forall i: nat, j: nat | i <= j < |navs| :: d <= Loss(navs, i, j))
      && (exists i: nat, j: nat :: i <= j < |navs| && d == Loss(navs, i, j))
  }

  lemma DivideByLarger(v: real, small: real, large: real)
    requires 0.0 < v && 0.0 < small <= large
    ensures v / large <= v / small
  {
  }

  lemma QuotientIsPositive(a: real, b: real)
    requires 0.0 < a && 0.0 < b
    ensures 0.0 < a / b && a / a == 1.0
  {
  }

  /** The one pass: a running peak and the worst loss against it. */
  method MaximumDrawdown(snapshots: seq<Snapshot>) returns (worst: real)
    ensures IsDrawdown(Positive(ByTime(snapshots)), worst)
    ensures -1.0 < worst <= 0.0
  {
    var navs := Positive(ByTime(snapshots));
    if navs == [] {
      return 0.0;
    }
    var peak := navs[0];
    worst := 0.0;
    ghost var top: nat, from: nat, to: nat := 0, 0, 0;
    QuotientIsPositive(navs[0], navs[0]);
    for n := 0 to |navs|
      invariant top < |navs| && top <= n && (n == 0 || top < n) && navs[top] == peak
      invariant forall i: nat | i < n :: navs[i] <= peak
      invariant -1.0 < worst <= 0.0
      invariant forall i: nat, j: nat | i <= j < n :: worst <= Loss(navs, i, j)
      invariant from <= to < |navs| && to <= n && (n == 0 || to < n) && worst == Loss(navs, from, to)
    {
      var nav := navs[n];
      if peak < nav {
        peak := nav;
        top := n;
      }
      var loss := nav / peak - 1.0;
      QuotientIsPositive(nav, peak);
      forall i: nat | i <= n
        ensures loss <= Loss(navs, i, n)
      {
        DivideByLarger(nav, navs[i], peak);
      }
      if loss < worst {
        worst := loss;
        from, to := top, n;
      }
    }
    assert worst == Loss(navs, from, to);
  }

  // ---------------------------------------------------------------- properties of the measure

  lemma DrawdownIsUnique(navs: seq<real>, d: real, e: real)
    requires AllPositive(navs) && IsDrawdown(navs, d) && IsDrawdown(navs, e)
    ensures d == e
  {
  }

  /** The drawdown is zero exactly when the series never falls. */
  lemma ZeroIffNeverFalls(navs: seq<real>, d: real)
    requires AllPositive(navs) && IsDrawdown(navs, d)
    ensures d == 0.0 <==> forall i: nat, j: nat | i <= j < |navs| :: navs[i] <= navs[j]
  {
    if navs != [] {
      assert Loss(navs, 0, 0) == 0.0;
      if d == 0.0 {
        forall i: nat, j: nat | i <= j < |navs|
          ensures navs[i] <= navs[j]
        {
          assert 0.0 <= Loss(navs, i, j);
          RatioAtLeastOne(navs[j], navs[i]);
        }
      } else if forall i: nat, j: nat | i <= j < |navs| :: navs[i] <= navs[j] {
        var i: nat, j: nat :| i <= j < |navs| && d == Loss(navs, i, j);
        RatioAtLeastOne(navs[j], navs[i]);
      }
    }
  }

  lemma RatioAtLeastOne(a: real, b: real)
    requires 0.0 < b
    ensures 1.0 <= a / b <==> b <= a
  {
  }

  function Scaled(navs: seq<real>, k: real): (r: seq<real>)
    ensures |r| == |navs| && forall i | 0 <= i < |navs| :: r[i] == k * navs[i]
  {
    seq(|navs|, i requires 0 <= i < |navs| => k * navs[i])
  }

  lemma RatioOfScaled(a: real, b: real, k: real)
    requires 0.0 < k && 0.0 < b
    ensures 0.0 < k * b && (k * a) / (k * b) == a / b
  {
  }

  /** Changing the currency unit does not change the drawdown. */
  lemma ScaleInvariant(navs: seq<real>, k: real, d: real)
    requires 0.0 < k && AllPositive(navs) && IsDrawdown(navs, d)
    ensures AllPositive(Scaled(navs, k)) && IsDrawdown(Scaled(navs, k), d)
  {
    var s := Scaled(navs, k);
    forall i | 0 <= i < |s|
      ensures 0.0 < s[i]
    {
      RatioOfScaled(navs[i], navs[i], k);
    }
    forall i: nat, j: nat | i <= j < |navs|
      ensures Loss(s, i, j) == Loss(navs, i, j)
    {
      RatioOfScaled(navs[j], navs[i], k);
    }
    if navs != [] {
      var i: nat, j: nat :| i <= j < |navs| && d == Loss(navs, i, j);
      assert d == Loss(s, i, j);
    }
  }

  /** Later observations can only deepen the drawdown. */
  lemma MoreHistoryNeverImproves(navs: seq<real>, more: seq<real>, d: real, e: real)
    requires AllPositive(navs) && AllPositive(more) && AllPositive(navs + more)
    requires IsDrawdown(navs, d) && IsDrawdown(navs + more, e)
    ensures e <= d
  {
    if navs != [] {
      var i: nat, j: nat :| i <= j < |navs| && d == Loss(navs, i, j);
      assert (navs + more)[i] == navs[i] && (navs + more)[j] == navs[j];
      assert Loss(navs + more, i, j) == Loss(navs, i, j);
    } else if more != [] {
      QuotientIsPositive(more[0], more[0]);
      assert (navs + more)[0] == more[0];
      assert Loss(navs + more, 0, 0) == 0.0;
    }
  }
}
