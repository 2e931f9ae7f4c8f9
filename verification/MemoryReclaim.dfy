/**
  The memory guard before screening (production_context_screening_resource_guard.py): a
  bounded reclaim loop over an environment that may answer anything, then a re-measurement
  that fails closed.  Counters are the bytes read from the cgroup files.
*/
module MemoryReclaim {
  import opened Options

  // 640, 64, 32 and 256 MiB.
  const DEFAULT_RESERVE := 671_088_640
  const DEFAULT_MINIMUM := 67_108_864
  const MARGIN := 33_554_432
  const MAX_REQUEST := 268_435_456
  const MAX_ATTEMPTS := 3
  const LEGACY_UNLIMITED := 0x1000_0000_0000_0000

  /** What the four counter files hold; unreadable, "max" and malformed files are `None`. */
  datatype Reading = Reading(current: Option<nat>, limit: Option<nat>, legacyCurrent: Option<nat>, legacyLimit: Option<nat>)

  datatype Usage = Usage(current: nat, limit: nat)

  /** The current counters, or the legacy ones if those say nothing usable. */
  function UsageOf(r: Reading): (u: Option<Usage>)
    ensures u.Some? ==> 0 < u.value.limit
    ensures r.current.Some? && r.limit.Some? && r.limit.value != 0 ==> u == Some(Usage(r.current.value, r.limit.value))
    ensures r.current.None? || r.limit.None? || r.limit.value == 0 ==>
              if r.legacyCurrent.Some? && r.legacyLimit.Some? && r.legacyLimit.value != 0 && r.legacyLimit.value < 1_152_921_504_606_846_976
              then u == Some(Usage(r.legacyCurrent.value, r.legacyLimit.value)) else u == None
  {
    if r.current.Some? && r.limit.Some? && 0 < r.limit.value
    then Some(Usage(r.current.value, r.limit.value))
    else if r.legacyCurrent.Some? && r.legacyLimit.Some? && 0 < r.legacyLimit.value < LEGACY_UNLIMITED
    then Some(Usage(r.legacyCurrent.value, r.legacyLimit.value))
    else None
  }

  /** A configured threshold: positive, or the default. */
  function Positive(raw: Option<int>, default: int): (v: int)
    requires 0 < default
    ensures 0 < v
    ensures v == default || raw == Some(v)
    ensures raw.Some? && 0 < raw.value ==> raw == Some(v)
  {
    if raw.Some? && 0 < raw.value then raw.value else default
  }

  function Max(a: int, b: int): int { if a < b then b else a }
  function Min(a: int, b: int): int { if a < b then a else b }

  datatype Policy = Policy(reserve: int, minimum: int)

  function PolicyOf(reserve: Option<int>, minimum: Option<int>): (p: Policy)
    ensures 0 < p.reserve && 0 < p.minimum
    ensures p.reserve == (if reserve.Some? && reserve.value > 0 then reserve.value else 671_088_640)
    ensures p.minimum == (if minimum.Some? && minimum.value > 0 then minimum.value else 67_108_864)
  {
    Policy(Positive(reserve, DEFAULT_RESERVE), Positive(minimum, DEFAULT_MINIMUM))
  }

  function Target(limit: int, p: Policy): int { Max(0, limit - p.reserve - p.minimum) }

  function Headroom(u: Usage, p: Policy): int { Max(0, u.limit - u.current - p.reserve) }

  predicate Unsafe(u: Option<Usage>, p: Policy)
  {
    u.Some? && Headroom(u.value, p) < p.minimum
  }

  // ---------------------------------------------------------------- the reclaim loop

  /** One turn of the environment: inactive file bytes, whether the write is accepted, and
      what the counters hold afterwards. */
  datatype Turn = Turn(inactive: nat, accepted: bool, after: Reading)

  /** One write of the loop: what was asked, and what was known when it was asked. */
  datatype Request = Request(bytes: int, inactive: int, overage: int)

  /** The least of the three bounds, at least one byte. */
  predicate Bounded(q: Request)
  {
    && 1 <= q.bytes <= 268_435_456
    && q.bytes <= q.inactive
    && q.bytes <= q.overage + 33_554_432
    && (q.bytes == 268_435_456 || q.bytes == q.inactive || q.bytes == q.overage + 33_554_432)
  }

  /** The write of a turn was accepted and its effect could be measured. */
  predicate Measured(turn: Turn) { turn.accepted && UsageOf(turn.after).Some? }

  /** The usage the loop knows before its i-th write: what it measured after the one before. */
  function Before(env: nat -> Turn, current: nat, i: nat): nat
  {
    if i == 0 || UsageOf(env(i - 1).after).None? then current else UsageOf(env(i - 1).after).value.current
  }

  /** The i-th write follows i measured ones, starts above the target, and is the least of its
      limits: 256 MiB, the inactive file bytes, and what is over the target plus 32 MiB. */
  predicate WriteFollows(q: Request, env: nat -> Turn, current: nat, target: nat, i: nat)
  {
    && Bounded(q) && q.inactive == env(i).inactive
    && q.overage == Before(env, current, i) - target && 0 < q.overage
    && (0 < i ==> Measured(env(i - 1)))
  }

  predicate Follows(log: seq<Request>, env: nat -> Turn, current: nat, target: nat)
  {
    forall i | 0 <= i < |log| :: WriteFollows(log[i], env, current, target, i)
  }

  function NextRequest(inactive: int, overage: int): (q: Request)
    requires 0 < inactive && 0 < overage
    ensures Bounded(q)
  {
    Request(Min(Min(MAX_REQUEST, inactive), overage + MARGIN), inactive, overage)
  }

  lemma FollowsExtended(log: seq<Request>, env: nat -> Turn, current: nat, target: nat, after: nat)
    requires Follows(log, env, current, target) && (log != [] ==> Measured(env(|log| - 1)))
    requires after == Before(env, current, |log|) && target < after && 0 < env(|log|).inactive
    ensures Follows(log + [NextRequest(env(|log|).inactive, after - target)], env, current, target)
  {
    assert WriteFollows(NextRequest(env(|log|).inactive, after - target), env, current, target, |log|);
  }

  lemma TotalOfExtended(log: seq<Request>, q: Request)
    ensures Total(log + [q]) == Total(log) + q.bytes
  {
  }

  function Total(requests: seq<Request>): int
  {
    if requests == [] then 0 else Total(requests[..|requests| - 1]) + requests[|requests| - 1].bytes
  }

  datatype Reclaim = Reclaim(attempts: nat, requested: int, before: int, after: int, target: int, effective: bool, failedWrite: bool)

  /** Why a loop that is still above its target stopped before its last attempt. */
  predicate GaveUp(env: nat -> Turn, attempts: nat)
  {
    || env(attempts).inactive == 0
    || (0 < attempts && (!env(attempts - 1).accepted || UsageOf(env(attempts - 1).after).None?))
  }

  /** The loop proper, entered above the target.  `log` is the sequence of its writes. */
  method ReclaimLoop(current: nat, target: nat, env: nat -> Turn) returns (r: Reclaim, ghost log: seq<Request>)
    requires target < current
    ensures r.attempts == |log| <= 3
    ensures Follows(log, env, current, target)
    ensures r.requested == Total(log)
    ensures r.before == current && r.target == target
    ensures r.effective <==> r.after <= target
    ensures !r.effective && r.attempts < 3 ==> GaveUp(env, r.attempts)
    ensures r.failedWrite <==> 0 < r.attempts && !env(r.attempts - 1).accepted
    // The last usage that could be measured.
    ensures r.after == Before(env, current,
                              if 0 < r.attempts && !Measured(env(r.attempts - 1)) then r.attempts - 1 else r.attempts)
  {
    var after, attempts, requestedTotal := current, 0, 0;
    var failed := false;
    log := [];
    while target < after && attempts < MAX_ATTEMPTS
      invariant attempts == |log| <= MAX_ATTEMPTS && !failed
      invariant requestedTotal == Total(log)
      invariant Follows(log, env, current, target)
      invariant 0 < attempts ==> Measured(env(attempts - 1))
      invariant after == Before(env, current, attempts)
      decreases MAX_ATTEMPTS - attempts
    {
      var turn := env(attempts);
      if turn.inactive <= 0 {
        break;
      }
      var overage := Max(1, after - target);
      var requested := Min(Min(MAX_REQUEST, turn.inactive), overage + MARGIN);
      if requested <= 0 {
        break;
      }
      ghost var q := NextRequest(turn.inactive, overage);
      FollowsExtended(log, env, current, target, after);
      TotalOfExtended(log, q);
      log := log + [q];
      attempts := attempts + 1;
      requestedTotal := requestedTotal + requested;
      if !turn.accepted {
        failed := true;
        break;
      }
      var measured := UsageOf(turn.after);
      if measured.None? {
        break;
      }
      after := measured.value.current;
    }
    r := Reclaim(attempts, requestedTotal, current, after, target, after <= target, failed);
  }

  /** Reclaims when the first reading is above the target, the files exist, and some file
      cache is inactive; otherwise answers without writing. */
  method ReclaimForScreening(p: Policy, first: Reading, supported: bool, inactive: Option<nat>, env: nat -> Turn)
    returns (r: Option<Reclaim>, ghost log: seq<Request>)
    ensures r.None? <==> UsageOf(first).None?
    ensures |log| <= 3
    ensures UsageOf(first).Some? ==>
              Follows(log, env, UsageOf(first).value.current, Target(UsageOf(first).value.limit, p))
    ensures log != [] ==> supported && inactive.Some? && 0 < inactive.value && UsageOf(first).Some?
                          && Target(UsageOf(first).value.limit, p) < UsageOf(first).value.current
    ensures r.Some? ==> r.value.attempts == |log| && r.value.requested == Total(log)
    ensures r.Some? && UsageOf(first).Some? ==>
              (r.value.effective <==> r.value.after <= Target(UsageOf(first).value.limit, p))
    // Usage is reclaimed down to what leaves reserve and minimum under the limit.
    ensures
      UsageOf(first).Some? ==>
        var u := UsageOf(first).value;
        var target := if p.reserve + p.minimum <= u.limit then u.limit - p.reserve - p.minimum else 0;
        && r.value.before == u.current && r.value.target == target
        && (u.current <= target ==> r == Some(Reclaim(0, 0, u.current, u.current, target, true, false)))
        && (target < u.current && !(supported && inactive.Some? && inactive.value != 0) ==>
              r == Some(Reclaim(0, 0, u.current, u.current, target, false, false)))
  {
    log := [];
    var usage := UsageOf(first);
    if usage.None? {
      return None, log;
    }
    var current := usage.value.current;
    var target := Target(usage.value.limit, p);
    if current <= target {
      return Some(Reclaim(0, 0, current, current, target, true, false)), log;
    }
    if !supported || inactive.None? || inactive.value <= 0 {
      return Some(Reclaim(0, 0, current, current, target, false, false)), log;
    }
    var result, requests := ReclaimLoop(current, target, env);
    return Some(result), requests;
  }

  /** The guard: reclaim, measure again, and raise unless the measured usage leaves the
      minimum.  What the reclaim reported does not matter, only the last reading. */
  method EnsureHeadroom(p: Policy, first: Reading, supported: bool, inactive: Option<nat>, env: nat -> Turn, last: Reading)
    returns (admitted: bool)
    requires 0 < p.reserve && 0 < p.minimum
    ensures admitted <==>
      UsageOf(last).None? || UsageOf(last).value.current + p.reserve + p.minimum <= UsageOf(last).value.limit
    // By the counters read: the current ones if usable, else the legacy ones if usable.
    ensures last.current.Some? && last.limit.Some? && last.limit.value != 0 ==>
              (admitted <==> last.current.value + p.reserve + p.minimum <= last.limit.value)
    ensures
      var legacy := && last.legacyCurrent.Some? && last.legacyLimit.Some?
                    && 1 <= last.legacyLimit.value < 1_152_921_504_606_846_976;
      last.current.None? || last.limit.None? || last.limit.value == 0 ==>
        (admitted <==> !legacy || last.legacyCurrent.value + p.reserve + p.minimum <= last.legacyLimit.value)
  {
    var _, _ := ReclaimForScreening(p, first, supported, inactive, env);
    var usage := UsageOf(last);
    if usage.Some? {
      var headroom := Max(0, usage.value.limit - usage.value.current - p.reserve);
      if headroom < p.minimum {
        return false;
      }
    }
    return true;
  }

  // ---------------------------------------------------------------- the two boundaries agree

  /** For one reading, "at or below the reclaim target" and "enough headroom" are the same
      judgment, except when the limit cannot hold the thresholds and nothing is used at all:
      there the reclaim calls itself effective and the guard raises. */
  lemma TargetMatchesHeadroomIff(u: Usage, p: Policy)
    requires 0 < p.reserve && 0 < p.minimum
    ensures (u.current <= Target(u.limit, p) <==> p.minimum <= Headroom(u, p))
            <==> !(u.limit < p.reserve + p.minimum && u.current == 0)
    ensures p.reserve + p.minimum <= u.limit ==>
              (u.current <= Target(u.limit, p) <==> p.minimum <= Headroom(u, p))
  {
  }

  /** Some usage is admitted under a limit exactly when the limit holds both thresholds. */
  lemma AdmissibleIffLimitHoldsThresholds(limit: nat, p: Policy)
    requires 0 < p.reserve && 0 < p.minimum
    ensures (exists current: nat :: !Unsafe(Some(Usage(current, limit)), p)) <==> p.reserve + p.minimum <= limit
  {
    if p.reserve + p.minimum <= limit {
      assert !Unsafe(Some(Usage(0, limit)), p);
    }
  }
}
