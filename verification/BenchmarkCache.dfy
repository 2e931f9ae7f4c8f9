/**
  The single-flight comparison cache of benchmark_portfolio_comparison.py: readers never
  wait, and at most one background refresher loads and stores a comparison.

  Each section under the cache lock is one atomic step.  A reader's clock is read before it
  takes the lock, so it may be older than the stored time.  Starting a thread may fail.
*/
module BenchmarkCache {
  import opened Options

  const TTL := 30_000_000

  /** A comparison, the "refreshing in the background" placeholder, or a start-up error. */
  datatype Answer<V> = Shown(comparison: V) | Placeholder | StartFailed

  datatype Cache<V> = Cache(value: Option<V>, updatedAt: int, refreshing: bool)

  predicate IsFresh<V>(c: Cache<V>, now: int) { c.value.Some? && now - c.updatedAt <= TTL }

  function Read<V>(c: Cache<V>, now: int, starts: bool): (Answer<V>, Cache<V>)
  {
    if IsFresh(c, now) then (Shown(c.value.value), c)
    else if !c.refreshing && !starts then (StartFailed, c.(refreshing := true))
    else (if c.value.Some? then Shown(c.value.value) else Placeholder, c.(refreshing := true))
  }

  function Stored<V>(c: Cache<V>, v: V, now: int): Cache<V> { Cache(Some(v), now, c.refreshing) }

  function Lowered<V>(c: Cache<V>): Cache<V> { c.(refreshing := false) }

  class ComparisonCache<V> {
    var value: Option<V>
    var updatedAt: int
    var refreshing: bool

    constructor ()
      ensures Current() == Cache(None, 0, false)
    {
      value, updatedAt, refreshing := None, 0, false;
    }

    function Current(): Cache<V>
      reads this
    {
      Cache(value, updatedAt, refreshing)
    }

    /** The nonblocking reader; `starts` tells whether a thread could be started. */
    method Nonblocking(now: int, starts: bool) returns (answer: Answer<V>, started: bool)
      modifies this
      ensures (answer, Current()) == Read(old(Current()), now, starts)
      ensures started <==> !IsFresh(old(Current()), now) && !old(refreshing) && starts
      // A value at most thirty seconds old is shown and nothing happens; otherwise the flag is
      // up afterwards, and the stored value is shown all the same, unless a start fails.
      ensures
        var recent := old(value).Some? && now <= old(updatedAt) + 30_000_000;
        && value == old(value) && updatedAt == old(updatedAt)
        && (recent ==> answer == Shown(old(value).value) && !started && refreshing == old(refreshing))
        && (!recent ==>
              && refreshing && (started <==> !old(refreshing) && starts)
              && answer == if !old(refreshing) && !starts then StartFailed
                           else if old(value).Some? then Shown(old(value).value) else Placeholder)
    {
      if value.Some? && now - updatedAt <= TTL {
        return Shown(value.value), false;
      }
      var stale := value;
      started := false;
      if !refreshing {
        refreshing := true;
        if !starts {
          return StartFailed, false;
        }
        started := true;
      }
      if stale.Some? {
        return Shown(stale.value), started;
      }
      return Placeholder, started;
    }

    method Store(v: V, now: int)
      modifies this
      ensures Current() == Stored(old(Current()), v, now)
      ensures value == Some(v) && updatedAt == now && refreshing == old(refreshing)
    {
      value, updatedAt := Some(v), now;
    }

    method Done()
      modifies this
      ensures Current() == Lowered(old(Current()))
      ensures !refreshing && value == old(value) && updatedAt == old(updatedAt)
    {
      refreshing := false;
    }
  }

  // ---------------------------------------------------------------- readers and refreshers

  datatype Move<V> =
    | AReader(now: int, starts: bool)
    | Stores(refresher: nat, comparison: V, now: int)
    | Ends(refresher: nat)

  /** The cache, the refreshers alive (true once they stored), how many were ever started, how
      many could not be, everything ever stored, and what each reader was answered. */
  datatype System<V> = System(
    cache: Cache<V>,
    live: map<nat, bool>,
    startedCount: nat,
    failedStarts: nat,
    stored: seq<V>,
    answers: seq<Answer<V>>)

  function Start<V>(): System<V> { System(Cache(None, 0, false), map[], 0, 0, [], []) }

  function Next<V>(s: System<V>, m: Move<V>): System<V>
  {
    match m
    case AReader(now, starts) =>
      var (answer, cache) := Read(s.cache, now, starts);
      var wants := !IsFresh(s.cache, now) && !s.cache.refreshing;
      s.(cache := cache,
         live := if wants && starts then s.live[s.startedCount := false] else s.live,
         startedCount := if wants && starts then s.startedCount + 1 else s.startedCount,
         failedStarts := if wants && !starts then s.failedStarts + 1 else s.failedStarts,
         answers := s.answers + [answer])
    case Stores(r, v, now) =>
      if r !in s.live || s.live[r] then s
      else s.(cache := Stored(s.cache, v, now), live := s.live[r := true], stored := s.stored + [v])
    case Ends(r) =>
      if r !in s.live then s
      else s.(cache := Lowered(s.cache), live := s.live - {r})
  }

  function Run<V>(s: System<V>, moves: seq<Move<V>>): System<V>
    decreases |moves|
  {
    if moves == [] then s else Run(Next(s, moves[0]), moves[1..])
  }

  function Newest<V>(stored: seq<V>): Option<V>
  {
    if stored == [] then None else Some(stored[|stored| - 1])
  }

  /** The flag is up for exactly one reason: one live refresher, or one start that failed. */
  ghost predicate Invariant<V>(s: System<V>)
  {
    && s.cache.value == Newest(s.stored)
    && (forall r | r in s.live :: r < s.startedCount)
    && |s.live| + s.failedStarts <= 1
    && (s.cache.refreshing <==> |s.live| + s.failedStarts == 1)
  }

  lemma NextKeepsInvariant<V>(s: System<V>, m: Move<V>)
    requires Invariant(s)
    ensures Invariant(Next(s, m))
  {
  }

  lemma {:induction false} RunKeepsInvariant<V>(s: System<V>, moves: seq<Move<V>>)
    requires Invariant(s)
    ensures Invariant(Run(s, moves))
    decreases |moves|
  {
    if moves != [] {
      NextKeepsInvariant(s, moves[0]);
      RunKeepsInvariant(Next(s, moves[0]), moves[1..]);
    }
  }

  /** In every interleaving at most one refresher is alive; and the refreshing flag means
      exactly "one refresher is alive" if and only if no thread start has failed. */
  lemma SingleFlight<V>(moves: seq<Move<V>>)
    ensures
      var s := Run(Start(), moves);
      && |s.live| <= 1
      && ((s.cache.refreshing <==> |s.live| == 1) <==> s.failedStarts == 0)
  {
    RunKeepsInvariant<V>(Start(), moves);
  }

  /** A reader is shown the newest comparison any refresher stored, however old it is; it is
      shown the placeholder only if nothing was ever stored. */
  lemma ReaderSeesNewest<V>(moves: seq<Move<V>>, now: int, starts: bool)
    ensures
      var s := Run(Start(), moves);
      var answer := Read(s.cache, now, starts).0;
      && (answer.Shown? ==> Newest(s.stored) == Some(answer.comparison))
      && (answer.Placeholder? ==> s.stored == [])
      && (answer.StartFailed? ==> !starts && s.live == map[])
  {
    RunKeepsInvariant<V>(Start(), moves);
  }

  /** One failed start wedges the cache: no refresher ever runs again and what is shown never
      changes, because nothing lowers the flag. */
  lemma {:induction false} FailedStartWedges<V>(s: System<V>, moves: seq<Move<V>>)
    requires Invariant(s) && s.failedStarts == 1
    ensures
      var t := Run(s, moves);
      t.live == map[] && t.stored == s.stored && t.cache == s.cache && t.startedCount == s.startedCount
    decreases |moves|
  {
    if moves != [] {
      assert s.live == map[];
      NextKeepsInvariant(s, moves[0]);
      FailedStartWedges(Next(s, moves[0]), moves[1..]);
    }
  }
}
