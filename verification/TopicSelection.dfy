/**
  The diversity selection of educational_market_briefing_ui.py: from candidates in ranking
  order, first at most one per provider and topic, then further topics of providers already
  shown, up to a limit.
*/
module TopicSelection {
  import Sets

  /** A ranked candidate with its topic key ("" when it has none) and provider. */
  datatype Item = Item(record: int, topic: string, provider: string)

  datatype Pass = Pass(chosen: seq<Item>, deferred: seq<Item>)

  function Topics(items: seq<Item>): set<string> { set x | x in items && x.topic != "" :: x.topic }
  function Providers(items: seq<Item>): set<string> { set x | x in items :: x.provider }

  /** The limit is tested only after an item was added. */
  predicate Full(chosen: seq<Item>, limit: int) { chosen != [] && limit <= |chosen| }

  function Consider(p: Pass, c: Item, limit: int): Pass
  {
    if Full(p.chosen, limit) || c.topic == "" || c.topic in Topics(p.chosen) then p
    else if c.provider in Providers(p.chosen) then p.(deferred := p.deferred + [c])
    else p.(chosen := p.chosen + [c])
  }

  function FirstPass(candidates: seq<Item>, limit: int): Pass
  {
    if candidates == [] then Pass([], [])
    else Consider(FirstPass(candidates[..|candidates| - 1], limit), candidates[|candidates| - 1], limit)
  }

  function SecondPass(chosen: seq<Item>, deferred: seq<Item>, limit: int): seq<Item>
  {
    if deferred == [] then chosen
    else
      var sofar := SecondPass(chosen, deferred[..|deferred| - 1], limit);
      var c := deferred[|deferred| - 1];
      if Full(sofar, limit) || c.topic == "" || c.topic in Topics(sofar) then sofar else sofar + [c]
  }

  function Selection(candidates: seq<Item>, limit: int): seq<Item>
  {
    var first := FirstPass(candidates, limit);
    SecondPass(first.chosen, first.deferred, limit)
  }

  function Count(counts: map<string, int>, provider: string): int
  {
    if provider in counts then counts[provider] else 0
  }

  method SelectRecords(candidates: seq<Item>, limit: int) returns (selected: seq<Item>)
    ensures selected == Selection(candidates, limit)
  {
    selected := [];
    var seenTopics: set<string> := {};
    var providerCounts: map<string, int> := map[];
    var deferred: seq<Item> := [];
    for i := 0 to |candidates|
      invariant FirstPass(candidates[..i], limit) == Pass(selected, deferred)
      invariant seenTopics == Topics(selected)
      invariant providerCounts.Keys == Providers(selected) && forall p | p in providerCounts :: 1 <= providerCounts[p]
      invariant !Full(selected, limit)
    {
      var c := candidates[i];
      assert candidates[..i + 1][..i] == candidates[..i];
      if c.topic == "" || c.topic in seenTopics {
        continue;
      }
      if 1 <= Count(providerCounts, c.provider) {
        deferred := deferred + [c];
        continue;
      }
      TopicsOfExtended(selected, c);
      selected := selected + [c];
      seenTopics := seenTopics + {c.topic};
      providerCounts := providerCounts[c.provider := Count(providerCounts, c.provider) + 1];
      if limit <= |selected| {
        FullFirstPassIsFinal(candidates, i + 1, limit);
        FullSecondPassIsFinal(selected, FirstPass(candidates, limit).deferred, limit);
        return selected;
      }
    }
    assert candidates[..|candidates|] == candidates;
    ghost var first := selected;
    for i := 0 to |deferred|
      invariant SecondPass(first, deferred[..i], limit) == selected
      invariant seenTopics == Topics(selected)
      invariant !Full(selected, limit)
    {
      var c := deferred[i];
      assert deferred[..i + 1][..i] == deferred[..i];
      if c.topic == "" || c.topic in seenTopics {
        continue;
      }
      TopicsOfExtended(selected, c);
      selected := selected + [c];
      seenTopics := seenTopics + {c.topic};
      if limit <= |selected| {
        FullSecondPassStops(first, deferred, i + 1, limit);
        return selected;
      }
    }
    assert deferred[..|deferred|] == deferred;
  }

  lemma TopicsOfExtended(items: seq<Item>, c: Item)
    ensures Topics(items + [c]) == Topics(items) + (if c.topic == "" then {} else {c.topic})
    ensures Providers(items + [c]) == Providers(items) + {c.provider}
  {
  }

  lemma {:induction false} FullFirstPassIsFinal(candidates: seq<Item>, n: nat, limit: int)
    requires n <= |candidates| && Full(FirstPass(candidates[..n], limit).chosen, limit)
    ensures FirstPass(candidates, limit) == FirstPass(candidates[..n], limit)
  {
    if n < |candidates| {
      var m := |candidates| - 1;
      assert candidates[..m][..n] == candidates[..n];
      FullFirstPassIsFinal(candidates[..m], n, limit);
    } else {
      assert candidates[..n] == candidates;
    }
  }

  lemma {:induction false} FullSecondPassIsFinal(chosen: seq<Item>, deferred: seq<Item>, limit: int)
    requires Full(chosen, limit)
    ensures SecondPass(chosen, deferred, limit) == chosen
  {
    if deferred != [] {
      FullSecondPassIsFinal(chosen, deferred[..|deferred| - 1], limit);
    }
  }

  lemma {:induction false} FullSecondPassStops(chosen: seq<Item>, deferred: seq<Item>, n: nat, limit: int)
    requires n <= |deferred| && Full(SecondPass(chosen, deferred[..n], limit), limit)
    ensures SecondPass(chosen, deferred, limit) == SecondPass(chosen, deferred[..n], limit)
  {
    if n < |deferred| {
      var m := |deferred| - 1;
      assert deferred[..m][..n] == deferred[..n];
      FullSecondPassStops(chosen, deferred[..m], n, limit);
    } else {
      assert deferred[..n] == deferred;
    }
  }

  // ---------------------------------------------------------------- what is selected

  predicate DistinctTopics(items: seq<Item>)
  {
    && (forall x | x in items :: x.topic != "")
    && (forall i, j | 0 <= i < j < |items| :: items[i].topic != items[j].topic)
  }

  predicate DistinctProviders(items: seq<Item>)
  {
    forall i, j | 0 <= i < j < |items| :: items[i].provider != items[j].provider
  }

  function Cap(limit: int): nat { if limit < 1 then 1 else limit }

  lemma {:induction false} DistinctTopicsCount(items: seq<Item>)
    requires DistinctTopics(items)
    ensures |Topics(items)| == |items|
  {
    if items != [] {
      var front, last := items[..|items| - 1], items[|items| - 1];
      assert items == front + [last];
      assert DistinctTopics(front) by {
        assert forall x | x in front :: x in items;
      }
      DistinctTopicsCount(front);
      TopicsOfExtended(front, last);
      assert last.topic !in Topics(front);
      assert last in items;
    }
  }

  lemma ChosenIsDistinct(chosen: seq<Item>, c: Item)
    requires DistinctTopics(chosen) && c.topic != "" && c.topic !in Topics(chosen)
    ensures DistinctTopics(chosen + [c])
    ensures DistinctProviders(chosen) && c.provider !in Providers(chosen) ==> DistinctProviders(chosen + [c])
  {
  }

  /** The first pass picks one item per topic and provider. */
  lemma {:induction false} FirstPassDiversifies(candidates: seq<Item>, limit: int)
    ensures
      var p := FirstPass(candidates, limit);
      DistinctTopics(p.chosen) && DistinctProviders(p.chosen) && |p.chosen| <= Cap(limit)
  {
    if candidates != [] {
      var p := FirstPass(candidates[..|candidates| - 1], limit);
      var c := candidates[|candidates| - 1];
      FirstPassDiversifies(candidates[..|candidates| - 1], limit);
      if Consider(p, c, limit).chosen != p.chosen {
        ChosenIsDistinct(p.chosen, c);
      }
    }
  }

  /** What it picks or defers are candidates with topics, and it defers only for a provider
      already shown.  Unless the limit was reached, every candidate with a topic is either
      covered by a chosen topic or deferred. */
  lemma {:induction false} FirstPassCovers(candidates: seq<Item>, limit: int)
    ensures
      var p := FirstPass(candidates, limit);
      && (forall x | x in p.chosen || x in p.deferred :: x in candidates && x.topic != "")
      && (forall x | x in p.deferred :: x.provider in Providers(p.chosen))
      && (!Full(p.chosen, limit) ==>
            forall c | c in candidates && c.topic != "" :: c.topic in Topics(p.chosen) || c in p.deferred)
  {
    if candidates != [] {
      var n := |candidates| - 1;
      assert candidates == candidates[..n] + [candidates[n]];
      FirstPassCovers(candidates[..n], limit);
      TopicsOfExtended(FirstPass(candidates[..n], limit).chosen, candidates[n]);
    }
  }

  lemma {:induction false} SecondPassCovers(chosen: seq<Item>, deferred: seq<Item>, limit: int)
    requires DistinctTopics(chosen) && |chosen| <= Cap(limit)
    ensures
      var s := SecondPass(chosen, deferred, limit);
      && DistinctTopics(s) && |s| <= Cap(limit) && chosen <= s
      && (forall x | x in s :: x in chosen || x in deferred)
      && (forall k | |chosen| <= k < |s| :: s[k] in deferred)
      && (!Full(s, limit) ==> forall d | d in deferred && d.topic != "" :: d.topic in Topics(s))
  {
    if deferred != [] {
      var n := |deferred| - 1;
      var c := deferred[n];
      assert deferred == deferred[..n] + [c];
      SecondPassCovers(chosen, deferred[..n], limit);
      var s := SecondPass(chosen, deferred[..n], limit);
      TopicsOfExtended(s, c);
      if SecondPass(chosen, deferred, limit) != s {
        ChosenIsDistinct(s, c);
      }
    }
  }

  // ---------------------------------------------------------------- which candidates, in ranking order

  predicate Positions(at: seq<nat>, n: nat)
  {
    && (forall k | 0 <= k < |at| :: at[k] < n)
    && forall k, l | 0 <= k < l < |at| :: at[k] < at[l]
  }

  function At(candidates: seq<Item>, at: seq<nat>): (items: seq<Item>)
    requires Positions(at, |candidates|)
    ensures |items| == |at|
  {
    seq(|at|, k requires 0 <= k < |at| => candidates[at[k]])
  }

  /** Some earlier pick has the same topic. */
  predicate Repeats(candidates: seq<Item>, picks: seq<nat>, i: nat)
    requires i < |candidates|
  {
    exists j | 0 <= j < i :: j in picks && candidates[j].topic == candidates[i].topic
  }

  /** Some earlier pick has the same provider. */
  predicate SharesProvider(candidates: seq<Item>, picks: seq<nat>, i: nat)
    requires i < |candidates|
  {
    exists j | 0 <= j < i :: j in picks && candidates[j].provider == candidates[i].provider
  }

  /** The first picks among the first `n` candidates: in ranking order, whatever has a topic
      and neither topic nor provider of an earlier pick, until the limit is reached. */
  ghost predicate FirstPicks(candidates: seq<Item>, limit: int, picks: seq<nat>, n: nat)
    requires n <= |candidates|
  {
    && Positions(picks, n) && |picks| <= Cap(limit)
    && (forall i: nat | i < n && i in picks ::
          candidates[i].topic != "" && !Repeats(candidates, picks, i) && !SharesProvider(candidates, picks, i))
    && (forall i: nat | i < n && i !in picks && (|picks| < Cap(limit) || i < picks[|picks| - 1]) ::
          candidates[i].topic == "" || Repeats(candidates, picks, i) || SharesProvider(candidates, picks, i))
  }

  /** What is put aside: before the limit is reached, a new topic of a provider already shown. */
  ghost predicate PutAside(candidates: seq<Item>, limit: int, picks: seq<nat>, aside: seq<nat>, n: nat)
    requires n <= |candidates|
  {
    && Positions(aside, n)
    && forall i: nat | i < n ::
         i in aside <==>
           && i !in picks && candidates[i].topic != "" && !Repeats(candidates, picks, i)
           && (|picks| < Cap(limit) || i < picks[|picks| - 1])
  }

  lemma PicksExtended(candidates: seq<Item>, picks: seq<nat>, n: nat, i: nat)
    requires Positions(picks, n) && i <= n < |candidates|
    ensures Repeats(candidates, picks + [n], i) == Repeats(candidates, picks, i)
    ensures SharesProvider(candidates, picks + [n], i) == SharesProvider(candidates, picks, i)
  {
    assert forall j | 0 <= j < n :: j in picks + [n] <==> j in picks;
  }

  lemma PicksShow(candidates: seq<Item>, picks: seq<nat>, n: nat, i: nat)
    requires n <= i < |candidates| && Positions(picks, n) && candidates[i].topic != ""
    ensures Repeats(candidates, picks, i) <==> candidates[i].topic in Topics(At(candidates, picks))
    ensures SharesProvider(candidates, picks, i) <==> candidates[i].provider in Providers(At(candidates, picks))
  {
    var shown := At(candidates, picks);
    assert forall k | 0 <= k < |picks| :: shown[k] == candidates[picks[k]] && picks[k] in picks && shown[k] in shown;
  }

  lemma FullIff(chosen: seq<Item>, limit: int)
    requires |chosen| <= Cap(limit)
    ensures Full(chosen, limit) <==> |chosen| == Cap(limit)
  {
  }

  lemma AtExtended(candidates: seq<Item>, at: seq<nat>, n: nat)
    requires Positions(at, n) && n < |candidates|
    ensures Positions(at + [n], n + 1) && At(candidates, at + [n]) == At(candidates, at) + [candidates[n]]
  {
  }

  /** One more pick of the first pass. */
  lemma PickKeeps(candidates: seq<Item>, limit: int, picks: seq<nat>, aside: seq<nat>, n: nat)
    requires n < |candidates| && |picks| < Cap(limit) && candidates[n].topic != ""
    requires FirstPicks(candidates, limit, picks, n) && PutAside(candidates, limit, picks, aside, n)
    requires !Repeats(candidates, picks, n) && !SharesProvider(candidates, picks, n)
    ensures FirstPicks(candidates, limit, picks + [n], n + 1) && PutAside(candidates, limit, picks + [n], aside, n + 1)
  {
    var more := picks + [n];
    forall i: nat | i <= n
      ensures Repeats(candidates, more, i) == Repeats(candidates, picks, i)
      ensures SharesProvider(candidates, more, i) == SharesProvider(candidates, picks, i)
      ensures i in more <==> i in picks || i == n
    {
      PicksExtended(candidates, picks, n, i);
    }
  }

  /** One more candidate put aside. */
  lemma AsideKeeps(candidates: seq<Item>, limit: int, picks: seq<nat>, aside: seq<nat>, n: nat)
    requires n < |candidates| && |picks| < Cap(limit) && candidates[n].topic != ""
    requires FirstPicks(candidates, limit, picks, n) && PutAside(candidates, limit, picks, aside, n)
    requires !Repeats(candidates, picks, n) && SharesProvider(candidates, picks, n)
    ensures FirstPicks(candidates, limit, picks, n + 1) && PutAside(candidates, limit, picks, aside + [n], n + 1)
  {
    assert forall i: nat | i <= n :: i in aside + [n] <==> i in aside || i == n;
  }

  /** One more candidate passed over. */
  lemma SkipKeeps(candidates: seq<Item>, limit: int, picks: seq<nat>, aside: seq<nat>, n: nat)
    requires n < |candidates|
    requires FirstPicks(candidates, limit, picks, n) && PutAside(candidates, limit, picks, aside, n)
    requires |picks| == Cap(limit) || candidates[n].topic == "" || Repeats(candidates, picks, n)
    ensures FirstPicks(candidates, limit, picks, n + 1) && PutAside(candidates, limit, picks, aside, n + 1)
  {
  }

  lemma FirstPassStep(candidates: seq<Item>, limit: int, picks: seq<nat>, aside: seq<nat>, n: nat)
    returns (picks': seq<nat>, aside': seq<nat>)
    requires n < |candidates|
    requires FirstPicks(candidates, limit, picks, n) && PutAside(candidates, limit, picks, aside, n)
    ensures FirstPicks(candidates, limit, picks', n + 1) && PutAside(candidates, limit, picks', aside', n + 1)
    ensures Consider(Pass(At(candidates, picks), At(candidates, aside)), candidates[n], limit)
         == Pass(At(candidates, picks'), At(candidates, aside'))
  {
    var c := candidates[n];
    picks', aside' := picks, aside;
    FullIff(At(candidates, picks), limit);
    if c.topic != "" {
      PicksShow(candidates, picks, n, n);
    }
    if |picks| == Cap(limit) || c.topic == "" || Repeats(candidates, picks, n) {
      SkipKeeps(candidates, limit, picks, aside, n);
    } else if SharesProvider(candidates, picks, n) {
      AsideKeeps(candidates, limit, picks, aside, n);
      AtExtended(candidates, aside, n);
      aside' := aside + [n];
    } else {
      PickKeeps(candidates, limit, picks, aside, n);
      AtExtended(candidates, picks, n);
      picks' := picks + [n];
    }
  }

  lemma {:induction false} FirstPassFollowsRanking(candidates: seq<Item>, limit: int, n: nat)
    returns (picks: seq<nat>, aside: seq<nat>)
    requires n <= |candidates|
    ensures FirstPicks(candidates, limit, picks, n) && PutAside(candidates, limit, picks, aside, n)
    ensures FirstPass(candidates[..n], limit) == Pass(At(candidates, picks), At(candidates, aside))
  {
    if n == 0 {
      picks, aside := [], [];
    } else {
      picks, aside := FirstPassFollowsRanking(candidates, limit, n - 1);
      assert candidates[..n][..n - 1] == candidates[..n - 1];
      picks, aside := FirstPassStep(candidates, limit, picks, aside, n - 1);
    }
  }

  /** A first pick has the topic. */
  predicate Shown(candidates: seq<Item>, picks: seq<nat>, topic: string)
    requires Positions(picks, |candidates|)
  {
    exists k | 0 <= k < |picks| :: candidates[picks[k]].topic == topic
  }

  /** The second picks among those put aside before position `n`: in ranking order, whatever
      topic neither a first pick nor an earlier second pick has, until the limit is reached. */
  ghost predicate SecondPicks(candidates: seq<Item>, limit: int, picks: seq<nat>, aside: seq<nat>, more: seq<nat>, n: nat)
    requires n <= |candidates| && Positions(picks, |candidates|) && Positions(aside, |candidates|)
  {
    && Positions(more, n) && |picks| + |more| <= Cap(limit)
    && (forall i: nat | i < n && i in more ::
          i in aside && !Shown(candidates, picks, candidates[i].topic) && !Repeats(candidates, more, i))
    && (forall i: nat | i < n && i in aside && i !in more
                        && (|picks| + |more| < Cap(limit) || (more != [] && i < more[|more| - 1])) ::
          Shown(candidates, picks, candidates[i].topic) || Repeats(candidates, more, i))
  }

  lemma SecondPickKeeps(candidates: seq<Item>, limit: int, picks: seq<nat>, aside: seq<nat>, more: seq<nat>, n: nat)
    requires n < |candidates| && Positions(picks, |candidates|) && Positions(aside, |candidates|) && n in aside
    requires SecondPicks(candidates, limit, picks, aside, more, n) && |picks| + |more| < Cap(limit)
    requires !Shown(candidates, picks, candidates[n].topic) && !Repeats(candidates, more, n)
    ensures SecondPicks(candidates, limit, picks, aside, more + [n], n + 1)
  {
    forall i: nat | i <= n
      ensures Repeats(candidates, more + [n], i) == Repeats(candidates, more, i)
      ensures i in more + [n] <==> i in more || i == n
    {
      PicksExtended(candidates, more, n, i);
    }
  }

  lemma TopicsAre(candidates: seq<Item>, picks: seq<nat>, more: seq<nat>, n: nat)
    requires n < |candidates| && Positions(picks, |candidates|) && Positions(more, n) && candidates[n].topic != ""
    ensures candidates[n].topic in Topics(At(candidates, picks) + At(candidates, more))
       <==> Shown(candidates, picks, candidates[n].topic) || Repeats(candidates, more, n)
  {
    PicksShow(candidates, more, n, n);
    var first, second := At(candidates, picks), At(candidates, more);
    assert forall x :: x in first + second <==> x in first || x in second;
    assert forall k | 0 <= k < |picks| :: first[k] == candidates[picks[k]] && first[k] in first;
  }

  lemma SecondSkipKeeps(candidates: seq<Item>, limit: int, picks: seq<nat>, aside: seq<nat>, more: seq<nat>, n: nat)
    requires n < |candidates| && Positions(picks, |candidates|) && Positions(aside, |candidates|)
    requires SecondPicks(candidates, limit, picks, aside, more, n)
    requires |picks| + |more| == Cap(limit) || Shown(candidates, picks, candidates[n].topic) || Repeats(candidates, more, n)
    ensures SecondPicks(candidates, limit, picks, aside, more, n + 1)
  {
  }

  /** Positions that were not put aside do not matter. */
  lemma SecondPicksUpTo(candidates: seq<Item>, limit: int, picks: seq<nat>, aside: seq<nat>, more: seq<nat>, n: nat, end: nat)
    requires n <= end <= |candidates| && Positions(picks, |candidates|) && Positions(aside, |candidates|)
    requires SecondPicks(candidates, limit, picks, aside, more, n)
    requires forall i: nat | n <= i < end :: i !in aside
    ensures SecondPicks(candidates, limit, picks, aside, more, end)
  {
  }

  lemma SecondPassStep(candidates: seq<Item>, limit: int, picks: seq<nat>, aside: seq<nat>, more: seq<nat>, n: nat)
    returns (more': seq<nat>)
    requires n < |candidates| && Positions(picks, |candidates|) && Positions(aside, |candidates|) && n in aside
    requires SecondPicks(candidates, limit, picks, aside, more, n) && candidates[n].topic != ""
    ensures SecondPicks(candidates, limit, picks, aside, more', n + 1)
    ensures
      var sofar := At(candidates, picks) + At(candidates, more);
      At(candidates, picks) + At(candidates, more')
        == if Full(sofar, limit) || candidates[n].topic in Topics(sofar) then sofar else sofar + [candidates[n]]
  {
    var sofar := At(candidates, picks) + At(candidates, more);
    more' := more;
    FullIff(sofar, limit);
    TopicsAre(candidates, picks, more, n);
    if Full(sofar, limit) || candidates[n].topic in Topics(sofar) {
      SecondSkipKeeps(candidates, limit, picks, aside, more, n);
    } else {
      SecondPickKeeps(candidates, limit, picks, aside, more, n);
      AtExtended(candidates, more, n);
      more' := more + [n];
      assert At(candidates, picks) + (At(candidates, more) + [candidates[n]]) == sofar + [candidates[n]];
    }
  }

  lemma SecondPassUnfolds(chosen: seq<Item>, deferred: seq<Item>, m: nat, limit: int)
    requires 0 < m <= |deferred|
    ensures
      var sofar, c := SecondPass(chosen, deferred[..m - 1], limit), deferred[m - 1];
      SecondPass(chosen, deferred[..m], limit)
        == if Full(sofar, limit) || c.topic == "" || c.topic in Topics(sofar) then sofar else sofar + [c]
  {
    assert deferred[..m][..m - 1] == deferred[..m - 1];
  }

  /** The first `m` deferred items are those put aside before the next position put aside. */
  lemma {:induction false} SecondPassFollowsRanking(candidates: seq<Item>, limit: int, picks: seq<nat>, aside: seq<nat>, m: nat)
    returns (more: seq<nat>)
    requires Positions(picks, |candidates|) && |picks| <= Cap(limit) && PutAside(candidates, limit, picks, aside, |candidates|)
    requires m <= |aside|
    ensures SecondPicks(candidates, limit, picks, aside, more, NextAside(aside, m, |candidates|))
    ensures SecondPass(At(candidates, picks), At(candidates, aside)[..m], limit) == At(candidates, picks) + At(candidates, more)
  {
    if m == 0 {
      more := [];
      assert At(candidates, picks) + At(candidates, more) == At(candidates, picks);
      NoneBefore(aside, |candidates|);
    } else {
      var before := SecondPassFollowsRanking(candidates, limit, picks, aside, m - 1);
      assert aside[m - 1] in aside;
      more := SecondPassStep(candidates, limit, picks, aside, before, aside[m - 1]);
      SecondPassUnfolds(At(candidates, picks), At(candidates, aside), m, limit);
      NothingBetween(aside, m, |candidates|);
      SecondPicksUpTo(candidates, limit, picks, aside, more, aside[m - 1] + 1, NextAside(aside, m, |candidates|));
    }
  }

  function NextAside(aside: seq<nat>, m: nat, end: nat): nat { if m < |aside| then aside[m] else end }

  lemma NoneBefore(aside: seq<nat>, end: nat)
    requires Positions(aside, end)
    ensures forall i: nat | i < NextAside(aside, 0, end) :: i !in aside
  {
  }

  lemma NothingBetween(aside: seq<nat>, m: nat, end: nat)
    requires Positions(aside, end) && 0 < m <= |aside|
    ensures aside[m - 1] < NextAside(aside, m, end) <= end
    ensures forall i: nat | aside[m - 1] < i < NextAside(aside, m, end) :: i !in aside
  {
  }

  /** The selection, from positions in the ranking: the first picks, then the second picks.
      The conditions leave no choice, so they say exactly which candidates are selected, and
      in which order. */
  lemma SelectionFollowsRanking(candidates: seq<Item>, limit: int) returns (picks: seq<nat>, aside: seq<nat>, more: seq<nat>)
    ensures FirstPicks(candidates, limit, picks, |candidates|) && PutAside(candidates, limit, picks, aside, |candidates|)
    ensures SecondPicks(candidates, limit, picks, aside, more, |candidates|)
    ensures Selection(candidates, limit) == At(candidates, picks) + At(candidates, more)
  {
    picks, aside := FirstPassFollowsRanking(candidates, limit, |candidates|);
    more := SecondPassFollowsRanking(candidates, limit, picks, aside, |aside|);
    assert candidates[..|candidates|] == candidates;
    assert At(candidates, aside)[..|aside|] == At(candidates, aside);
  }

  lemma TopicsMonotone(some: seq<Item>, all: seq<Item>)
    requires forall x | x in some :: x in all
    ensures Topics(some) <= Topics(all)
  {
  }

  /** For every limit, the selection holds exactly min(max(limit, 1), number of distinct
      topics) candidates with pairwise distinct topics.  It starts with picks of pairwise
      distinct providers, and a provider is repeated only once every topic left belongs to a
      provider already shown. */
  lemma SelectionIsDiverseAndComplete(candidates: seq<Item>, limit: int)
    ensures
      var first := FirstPass(candidates, limit).chosen;
      var s := Selection(candidates, limit);
      && |s| == (if |Topics(candidates)| < Cap(limit) then |Topics(candidates)| else Cap(limit))
      && DistinctTopics(s) && (forall x | x in s :: x in candidates)
      && first <= s && DistinctProviders(first)
      && (forall k | |first| <= k < |s| :: s[k].provider in Providers(first))
      && (|first| < |s| ==>
            forall c | c in candidates && c.topic != "" && c.topic !in Topics(first) :: c.provider in Providers(first))
  {
    var p := FirstPass(candidates, limit);
    var s := Selection(candidates, limit);
    FirstPassDiversifies(candidates, limit);
    FirstPassCovers(candidates, limit);
    SecondPassCovers(p.chosen, p.deferred, limit);
    TopicsMonotone(s, candidates);
    DistinctTopicsCount(s);
    Sets.SubsetCount(Topics(s), Topics(candidates));
    if Full(p.chosen, limit) {
      FullSecondPassIsFinal(p.chosen, p.deferred, limit);
    }
    if !Full(s, limit) {
      forall t | t in Topics(candidates)
        ensures t in Topics(s)
      {
        var c :| c in candidates && c.topic == t && t != "";
        if c !in p.deferred {
          var x :| x in p.chosen && x.topic == t;
          assert x in s;
        }
      }
      assert Topics(s) == Topics(candidates);
    }
  }
}
