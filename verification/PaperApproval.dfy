/**
  The append-only approval log of governance/paper_decision_approval.py, the automatic
  authorization of paper_execution_runtime.py, and the consent check of
  run_approved_paper_execution.py.

  A construction is identified with its canonical SHA-256 (the hash is taken to be
  injective), an event identifier with the tuple of the parts it is joined from.
*/
module PaperApproval {
  import opened Options
  import opened PaperLease

  datatype State = Approved | Declined | Revoked | Executed

  datatype Identifier = Identifier(kind: State, decision: string, construction: string, at: int, actor: string)

  datatype Event = Event(
    id: Identifier,
    decision: string,
    construction: string,
    sha: Digest,
    state: State,
    actor: string,
    at: int,
    expires: Option<int>,
    execution: Option<string>)

  type Log = seq<Event>

  const SYSTEM := "system:autonomous-paper-policy"
  const EXECUTOR := "system:paper-execution"

  predicate Concerns(e: Event, decision: string, construction: string)
  {
    e.decision == decision && e.construction == construction
  }

  predicate ActiveAt(e: Event, now: int)
  {
    e.state.Approved? && e.at <= now && e.expires.Some? && now < e.expires.value
  }

  function Latest(log: Log, decision: string, construction: string): (r: Option<Event>)
    ensures r.Some? ==> r.value in log && Concerns(r.value, decision, construction)
    ensures r.None? ==> forall e | e in log :: !Concerns(e, decision, construction)
  {
    if log == [] then None
    else if Concerns(log[|log| - 1], decision, construction) then Some(log[|log| - 1])
    else Latest(log[..|log| - 1], decision, construction)
  }

  function Stored(log: Log, id: Identifier): (r: Option<Event>)
    ensures r.Some? ==> r.value in log && r.value.id == id
    ensures r.None? ==> forall e | e in log :: e.id != id
  {
    if log == [] then None
    else if log[0].id == id then Some(log[0])
    else Stored(log[1..], id)
  }

  /** `append`: a new identifier is added at the end, the same event again changes nothing,
      and the same identifier with other content is refused. */
  predicate Conflicts(log: Log, e: Event)
  {
    Stored(log, e.id).Some? && Stored(log, e.id).value != e
  }

  function Append(log: Log, e: Event): (r: Log)
    ensures log <= r
    ensures !Conflicts(log, e) ==> e in r
    ensures forall x | x in r :: x in log || x == e
  {
    if Stored(log, e.id).Some? then log else log + [e]
  }

  predicate DistinctIds(log: Log) { forall i, j | 0 <= i < j < |log| :: log[i].id != log[j].id }

  /** Appending keeps identifiers distinct.  A new identifier is added at the end; one that is
      taken changes nothing, and is a conflict exactly when the event it names is another. */
  lemma AppendIsIdempotentById(log: Log, e: Event)
    requires DistinctIds(log)
    ensures DistinctIds(Append(log, e)) && Append(Append(log, e), e) == Append(log, e)
    ensures
      if exists x :: x in log && x.id == e.id then
        && Append(log, e) == log
        && (Conflicts(log, e) <==> e !in log)
      else
        Append(log, e) == log + [e] && !Conflicts(log, e)
  {
    if x :| x in log && x.id == e.id {
      assert Stored(log, e.id).Some?;
    }
  }

  function AppendAll(log: Log, events: seq<Event>): (r: Log)
    ensures log <= r
    decreases |events|
  {
    if events == [] then log else AppendAll(Append(log, events[0]), events[1..])
  }

  class ApprovalStore {
    var log: Log

    constructor (existing: Log)
      ensures log == existing
    {
      log := existing;
    }

    method AppendEvent(e: Event) returns (ok: bool)
      modifies this
      ensures ok <==> !Conflicts(old(log), e)
      ensures log == Append(old(log), e)
      ensures (forall x | x in old(log) :: x.id != e.id) ==> ok && log == old(log) + [e]
      ensures (exists x :: x in old(log) && x.id == e.id) ==> log == old(log)
      ensures DistinctIds(old(log)) ==> (ok <==> forall x | x in old(log) && x.id == e.id :: x == e)
    {
      var existing := Stored(log, e.id);
      if existing.Some? {
        return existing.value == e;
      }
      log := log + [e];
      return true;
    }

    /** The consent check of the runner. */
    method RequireApproved(decision: string, construction: string, sha: Digest, asOf: int) returns (r: Option<Event>)
      ensures r == Consent(log, decision, construction, sha, asOf)
      ensures
        var latest := Latest(log, decision, construction);
        if latest.Some? && latest.value.sha == sha && latest.value.state == Approved
           && latest.value.at <= asOf && latest.value.expires.Some? && asOf < latest.value.expires.value
        then r == latest else r == None
    {
      var latest := Latest(log, decision, construction);
      if latest.None? {
        return None;
      }
      if latest.value.sha != sha {
        return None;
      }
      if !ActiveAt(latest.value, asOf) {
        return None;
      }
      return latest;
    }

    /** Recording an execution after the executor returned 0: exit code 0, or 5 when the
        identifier is taken by another event. */
    method Conclude(approval: Event, asOf: int) returns (code: int)
      modifies this
      ensures log == Append(old(log), ExecutedEvent(approval, asOf))
      // The record names the approved pair and hash, and is the executor's own.
      ensures
        var id := Identifier(Executed, approval.decision, approval.construction, asOf, "system:paper-execution");
        (forall x | x in old(log) :: x.id != id) ==>
          && code == 0
          && log == old(log) + [Event(id, approval.decision, approval.construction, approval.sha, Executed,
                                      "system:paper-execution", asOf, None,
                                      Some("multi-asset-execution:" + approval.construction))]
      ensures code == if Conflicts(old(log), ExecutedEvent(approval, asOf)) then 5 else 0
    {
      var ok := AppendEvent(ExecutedEvent(approval, asOf));
      return if ok then 0 else 5;
    }

    /** Creates or reuses an autonomous authorization without overriding a human stop. */
    method AutomaticAuthorization(decision: string, construction: string, sha: Digest, now: int, ttl: Option<int>)
      returns (r: Authorization)
      modifies this
      ensures r == Authorize(old(log), decision, construction, sha, now, ttl).0
      ensures log == Authorize(old(log), decision, construction, sha, now, ttl).1
      // A latest event of the pair answers: a mismatched hash, an execution, a stop, or an
      // approval that still lasts.  Nothing is appended then.
      ensures
        var latest := Latest(old(log), decision, construction);
        latest.Some? ==>
          && (latest.value.sha != sha ==> r == Refused && log == old(log))
          && (latest.value.sha == sha && latest.value.state == Executed ==> r == Authorized(latest.value) && log == old(log))
          && (latest.value.sha == sha && (latest.value.state == Declined || latest.value.state == Revoked) ==>
                r == Paused && log == old(log))
          && (latest.value.sha == sha && ActiveAt(latest.value, now) ==> r == Authorized(latest.value) && log == old(log))
      // Otherwise the system approves for exactly the configured lifetime.
      ensures
        var latest := Latest(old(log), decision, construction);
        var id := Identifier(Approved, decision, construction, now, "system:autonomous-paper-policy");
        latest.None? || (latest.value.sha == sha && latest.value.state == Approved && !ActiveAt(latest.value, now)) ==>
          && (ttl.None? ==> r == Refused && log == old(log))
          && (ttl.Some? && (forall x | x in old(log) :: x.id != id) ==>
                && r == Authorized(Event(id, decision, construction, sha, Approved, "system:autonomous-paper-policy",
                                         now, Some(now + ttl.value), None))
                && log == old(log) + [r.event])
          && (ttl.Some? && Conflicts(old(log), SystemApproval(decision, construction, sha, now, ttl.value)) ==>
                r == Refused && log == old(log))
    {
      var latest := Latest(log, decision, construction);
      if latest.Some? {
        if latest.value.sha != sha {
          return Refused;
        }
        if latest.value.state.Executed? {
          return Authorized(latest.value);
        }
        if latest.value.state.Declined? || latest.value.state.Revoked? {
          return Paused;
        }
        if ActiveAt(latest.value, now) {
          return Authorized(latest.value);
        }
      }
      if ttl.None? {
        return Refused;
      }
      var event := SystemApproval(decision, construction, sha, now, ttl.value);
      var ok := AppendEvent(event);
      return if ok then Authorized(event) else Refused;
    }
  }

  // ---------------------------------------------------------------- automatic authorization

  /** `Refused` is a raised error; an unparsable or out-of-range lifetime is `None`. */
  datatype Authorization = Refused | Paused | Authorized(event: Event)

  function SystemApproval(decision: string, construction: string, sha: Digest, now: int, ttl: int): Event
  {
    Event(Identifier(Approved, decision, construction, now, SYSTEM),
          decision, construction, sha, Approved, SYSTEM, now, Some(now + ttl), None)
  }

  function Authorize(log: Log, decision: string, construction: string, sha: Digest, now: int, ttl: Option<int>)
    : (Authorization, Log)
  {
    var latest := Latest(log, decision, construction);
    if latest.Some? && latest.value.sha != sha then (Refused, log)
    else if latest.Some? && latest.value.state.Executed? then (Authorized(latest.value), log)
    else if latest.Some? && (latest.value.state.Declined? || latest.value.state.Revoked?) then (Paused, log)
    else if latest.Some? && ActiveAt(latest.value, now) then (Authorized(latest.value), log)
    else if ttl.None? then (Refused, log)
    else
      var event := SystemApproval(decision, construction, sha, now, ttl.value);
      if Conflicts(log, event) then (Refused, log) else (Authorized(event), Append(log, event))
  }

  /** What the policy decides on reading the log: to approve, unless somebody else's event or
      an approval that still lasts is in the way.  The approval is appended in a second step. */
  predicate NeedsApproval(log: Log, decision: string, construction: string, sha: Digest, now: int, ttl: Option<int>)
  {
    var latest := Latest(log, decision, construction);
    && (latest.None? || (latest.value.sha == sha && latest.value.state.Approved? && !ActiveAt(latest.value, now)))
    && ttl.Some?
  }

  /** Nobody may act on the pair: its latest event is a decline, a revocation or an execution. */
  predicate Stopped(log: Log, decision: string, construction: string)
  {
    var latest := Latest(log, decision, construction);
    latest.Some? && !latest.value.state.Approved?
  }

  /** An automatic grant is for the exact hash and is in the log; unless it reports an
      execution already recorded it is active now.  A stopped pair is left alone. */
  lemma AuthorizationIsExact(log: Log, decision: string, construction: string, sha: Digest, now: int, ttl: Option<int>)
    requires ttl.Some? ==> 0 < ttl.value
    ensures
      var (a, after) := Authorize(log, decision, construction, sha, now, ttl);
      && log <= after
      && (a.Authorized? ==>
            && a.event in after && Concerns(a.event, decision, construction) && a.event.sha == sha
            && (a.event.state.Executed? || ActiveAt(a.event, now)))
      && (Stopped(log, decision, construction) ==>
            && after == log
            && (a.Authorized? ==> a.event.state.Executed?))
  {
  }

  lemma LatestAfterAppend(log: Log, e: Event, decision: string, construction: string)
    ensures Latest(log + [e], decision, construction)
         == if Concerns(e, decision, construction) then Some(e) else Latest(log, decision, construction)
  {
  }

  /** An authorization just appended or found latest is reused: asking again while it lasts,
      with any lifetime configured, answers with the same event and adds nothing. */
  lemma AuthorizationIsReused(log: Log, decision: string, construction: string, sha: Digest,
                              now: int, ttl: Option<int>, later: int, ttl': Option<int>)
    requires
      var (a, after) := Authorize(log, decision, construction, sha, now, ttl);
      && a.Authorized? && (after != log || Latest(log, decision, construction) == Some(a.event))
      && now <= later && (a.event.state.Executed? || later < a.event.expires.value)
    ensures
      var (a, after) := Authorize(log, decision, construction, sha, now, ttl);
      Authorize(after, decision, construction, sha, later, ttl') == (a, after)
  {
  }

  predicate IsApprovalOf(e: Event, decision: string, construction: string)
  {
    e.state.Approved? && Concerns(e, decision, construction)
  }

  /** Only an approval of the pair itself can lift a stop. */
  lemma {:induction false} StopSurvivesOtherEvents(log: Log, events: seq<Event>, decision: string, construction: string)
    requires Stopped(log, decision, construction)
    requires forall e | e in events :: !IsApprovalOf(e, decision, construction)
    ensures Stopped(AppendAll(log, events), decision, construction)
    decreases |events|
  {
    if events != [] {
      LatestAfterAppend(log, events[0], decision, construction);
      assert events[0] in events;
      StopSurvivesOtherEvents(Append(log, events[0]), events[1..], decision, construction);
    }
  }

  // ---------------------------------------------------------------- the consent-gated runner

  // Checking consent, executing, and recording the execution are three separate sections of
  // the runner: other processes may act in between.

  /** How the multi-asset executor behind the consent check ends. */
  datatype Executor = ExitsWith(code: int) | Raises

  /** The approval that lets the executor start, if there is one. */
  function Consent(log: Log, decision: string, construction: string, sha: Digest, asOf: int): (r: Option<Event>)
    ensures r.Some? ==>
      && r.value in log && Concerns(r.value, decision, construction)
      && r.value.sha == sha && ActiveAt(r.value, asOf) && !Stopped(log, decision, construction)
  {
    var latest := Latest(log, decision, construction);
    if latest.Some? && latest.value.sha == sha && ActiveAt(latest.value, asOf) then latest else None
  }

  function ExecutedEvent(approval: Event, asOf: int): Event
  {
    Event(Identifier(Executed, approval.decision, approval.construction, asOf, EXECUTOR),
          approval.decision, approval.construction, approval.sha, Executed, EXECUTOR, asOf, None,
          Some("multi-asset-execution:" + approval.construction))
  }

  /** No execution of the pair was ever recorded. */
  predicate NeverExecuted(log: Log, decision: string, construction: string)
  {
    forall e | e in log ::
      !(e.id.kind.Executed? && e.id.decision == decision && e.id.construction == construction)
  }

  /** The first execution recorded for a pair stops it: consent is refused from then on, as
      long as nobody approves the pair again. */
  lemma RecordedExecutionStops(log: Log, approval: Event, asOf: int, events: seq<Event>, sha: Digest, later: int)
    requires NeverExecuted(log, approval.decision, approval.construction)
    requires forall e | e in events :: !IsApprovalOf(e, approval.decision, approval.construction)
    ensures
      var after := Append(log, ExecutedEvent(approval, asOf));
      && !Conflicts(log, ExecutedEvent(approval, asOf))
      && Stopped(after, approval.decision, approval.construction)
      && Consent(AppendAll(after, events), approval.decision, approval.construction, sha, later).None?
  {
    var event := ExecutedEvent(approval, asOf);
    LatestAfterAppend(log, event, approval.decision, approval.construction);
    StopSurvivesOtherEvents(log + [event], events, approval.decision, approval.construction);
  }
}
