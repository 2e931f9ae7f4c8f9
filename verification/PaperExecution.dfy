/**
  Paper execution attempts (paper_execution_runtime.py): a chain of gates over the approval
  log, the per-hash status file, the retry window and the maintained lease, then one call of
  the runner and one publication of its status.

  Here an attempt is one step of the system.  Finer interleavings are in PaperInterleaving.
  Everything the attempt reads from outside (clocks, configuration, the provider lane, the
  runner's behaviour) is part of the request, so the theorems hold for every environment.
*/
module PaperExecution {
  import opened Options
  import opened PaperLease
  import opened PaperApproval

  datatype Mode = Automatic | Manual | Disabled

  /** `as_of` as found: empty, not a timestamp, without a UTC offset, or an instant. */
  datatype Stamp = Blank | Unparsable(text: string) | Naive(text: string) | Aware(text: string, at: int)
  {
    function Text(): string { if Blank? then "" else text }
  }

  datatype Construction = Construction(id: string, asOf: Stamp, sha: Digest)
  datatype Briefing = Briefing(decision: string, asOf: string)

  /** The provider-lane validation of the exact construction. */
  datatype Lane = InvalidLane | DirectLane | AlpacaLane(credentials: bool)

  /** How materialization and the runner end; `appended` is what the runner put in the log.
      `Escapes` is an exception the attempt does not catch. */
  datatype Run =
    | NotPrepared
    | Exits(code: int, execution: Option<string>, appended: seq<Event>)
    | Fails(appended: seq<Event>)
    | Escapes(appended: seq<Event>)

  datatype Request = Request(
    mode: Mode,
    construction: Option<Construction>,
    briefing: Option<Briefing>,
    now: int,
    maximumAge: Option<int>,
    lane: Lane,
    retry: Option<int>,
    ttl: Option<int>,
    leaseSeconds: Option<int>,
    owner: Owner,
    acquireAt: int,
    beats: seq<Beat>,
    assertAt: Beat,
    run: Run)

  datatype Status = Status(state: string, attemptedAt: Option<int>, exitCode: Option<int>, execution: Option<string>)

  datatype Result =
    | Failed
    | Attempt(state: string, attemptedAt: Option<int>, exitCode: Option<int>,
              execution: Option<string>, authorization: Option<Identifier>)

  datatype World = World(log: Log, status: map<Digest, Status>, rows: Rows)

  /** One call of the runner, with the authorization it was made under, the retry window in
      force, and whether its status was published. */
  datatype Call = Call(sha: Digest, decision: string, construction: string, at: int,
                       window: int, authorization: Event, published: bool)

  // ---------------------------------------------------------------- gates before any store

  /** `_retry_seconds`: 60 when unparsable, else clamped to 5..3600, in time units. */
  function RetryWindow(raw: Option<int>): (w: int)
    ensures 5 * SECOND <= w <= 3600 * SECOND
    ensures raw.None? ==> w == 60 * SECOND
    ensures raw.Some? && 5 <= raw.value <= 3600 ==> w == raw.value * SECOND
    ensures raw.Some? && raw.value < 5 ==> w == 5 * SECOND
    ensures raw.Some? && 3600 < raw.value ==> w == 3600 * SECOND
  {
    if raw.None? then 60 * SECOND
    else (if raw.value < 5 then 5 else if 3600 < raw.value then 3600 else raw.value) * SECOND
  }

  function Plain(state: string, at: Option<int>): Result
  {
    Attempt(state, at, None, None, None)
  }

  /** The answer given before any store is opened, if one is. */
  function EarlyGate(r: Request): Option<Result>
  {
    if r.mode.Disabled? then Some(Plain("disabled", None))
    else if r.construction.None? || r.briefing.None? then Some(Plain("idle", None))
    else
      var c, b := r.construction.value, r.briefing.value;
      if b.asOf != "" && c.asOf.Text() != "" && b.asOf != c.asOf.Text() then Some(Plain("idle", Some(r.now)))
      else if c.asOf.Text() != "" && !c.asOf.Aware? then Some(Plain("blocked", Some(r.now)))
      else if c.asOf.Text() != "" && (r.maximumAge.None? || r.maximumAge.value <= 0) then Some(Failed)
      else if c.asOf.Text() != "" && (r.now < c.asOf.at || r.maximumAge.value < r.now - c.asOf.at)
      then Some(Plain("idle", Some(r.now)))
      else if b.decision == "" || c.id == "" then Some(Plain("blocked", Some(r.now)))
      else if r.lane.InvalidLane? then Some(Plain("blocked", Some(r.now)))
      else if r.lane.AlpacaLane? && !r.lane.credentials then Some(Plain("disabled", Some(r.now)))
      else None
  }

  // ---------------------------------------------------------------- authorization and status gates

  datatype Admission = Stop(result: Result, log: Log) | Pass(event: Event, log: Log)

  function Admit(log: Log, r: Request): Admission
    requires EarlyGate(r).None?
  {
    var c, b := r.construction.value, r.briefing.value;
    if r.mode.Automatic? then
      var (a, after) := Authorize(log, b.decision, c.id, c.sha, r.now, r.ttl);
      if a.Refused? then Stop(Failed, after)
      else if a.Paused? then Stop(Plain("paused", Some(r.now)), after)
      else if a.event.state.Executed? then
        Stop(Attempt("completed", Some(r.now), None, a.event.execution, Some(a.event.id)), after)
      else Confirm(a.event, after, r)
    else
      var latest := Latest(log, b.decision, c.id);
      if latest.None? || !latest.value.state.Approved? then Stop(Plain("idle", None), log)
      else Confirm(latest.value, log, r)
  }

  function Confirm(event: Event, log: Log, r: Request): Admission
    requires r.construction.Some?
  {
    if event.sha != r.construction.value.sha || !ActiveAt(event, r.now)
    then Stop(Attempt("blocked", Some(r.now), None, None, Some(event.id)), log)
    else Pass(event, log)
  }

  /** The answer the persisted status gives, if it gives one: completed, or too early. */
  function StatusGate(status: map<Digest, Status>, sha: Digest, now: int, window: int, id: Identifier): Option<Result>
  {
    if sha !in status then None
    else
      var prior := status[sha];
      if prior.state == "completed"
      then Some(Attempt("completed", prior.attemptedAt, prior.exitCode, prior.execution, Some(id)))
      else if prior.attemptedAt.Some? && now - prior.attemptedAt.value < window
      then Some(Attempt(prior.state, prior.attemptedAt, prior.exitCode, prior.execution, Some(id)))
      else None
  }

  // ---------------------------------------------------------------- running and publishing

  function ExitCode(run: Run): int { if run.Exits? then run.code else 4 }

  function Appended(run: Run): seq<Event> { if run.NotPrepared? then [] else run.appended }

  function Execution(run: Run): Option<string> { if run.Exits? then run.execution else None }

  function StateOf(code: int): string
  {
    if code == 0 then "completed" else if code == 3 then "held" else "blocked"
  }

  function Outcome(run: Run, now: int): Status
  {
    Status(StateOf(ExitCode(run)), Some(now), Some(ExitCode(run)), Execution(run))
  }

  /** The grant the attempt's acquisition would obtain. */
  function GrantOf(rows: Rows, r: Request, sha: Digest): Grant
    requires r.leaseSeconds.Some?
  {
    var row := AcquiredRow(rows, sha, r.owner, r.leaseSeconds.value, r.acquireAt);
    Grant(sha, r.owner, row.token, row.expires)
  }

  /** The lease as the attempt finds it when it is about to publish. */
  function LeaseAtPublication(rows: Rows, r: Request, sha: Digest): Maintained
    requires r.leaseSeconds.Some?
  {
    var g := GrantOf(rows, r, sha);
    AfterBeats(Maintained(rows[sha := Row(g.owner, g.token, g.expires)], false), g, r.leaseSeconds.value, r.beats)
  }

  predicate Publishes(rows: Rows, r: Request, sha: Digest)
    requires r.leaseSeconds.Some?
  {
    !r.run.Escapes? && StillOwned(LeaseAtPublication(rows, r, sha), GrantOf(rows, r, sha), r.assertAt)
  }

  datatype Step = Step(world: World, result: Result, call: Option<Call>)

  /** From the lease acquisition on, for an attempt admitted under `event`. */
  function Execute(w: World, r: Request, event: Event): Step
    requires EarlyGate(r).None?
  {
    var c, b := r.construction.value, r.briefing.value;
    if r.leaseSeconds.None? || r.leaseSeconds.value < MIN_LEASE_SECONDS then Step(w, Failed, None)
    else if Held(w.rows, c.sha, r.owner, r.acquireAt)
    then Step(w, Attempt("held", Some(r.now), None, None, Some(event.id)), None)
    else
      var g := GrantOf(w.rows, r, c.sha);
      var m := LeaseAtPublication(w.rows, r, c.sha);
      var published := Publishes(w.rows, r, c.sha);
      var outcome := Outcome(r.run, r.now);
      var world := World(
        AppendAll(w.log, Appended(r.run)),
        if published then w.status[c.sha := outcome] else w.status,
        Released(if published then Renewed(m.rows, g, r.leaseSeconds.value, r.assertAt.value) else m.rows, g));
      var call := if r.run.NotPrepared? then None
                  else Some(Call(c.sha, b.decision, c.id, r.now, RetryWindow(r.retry), event, published));
      var result :=
        if r.run.Escapes? then Failed
        else Attempt(if published then outcome.state else "blocked", Some(r.now),
                     Some(ExitCode(r.run)), Execution(r.run), Some(event.id));
      Step(world, result, call)
  }

  function AttemptStep(w: World, r: Request): Step
  {
    if EarlyGate(r).Some? then Step(w, EarlyGate(r).value, None)
    else
      var a := Admit(w.log, r);
      if a.Stop? then Step(w.(log := a.log), a.result, None)
      else
        var held := StatusGate(w.status, r.construction.value.sha, r.now, RetryWindow(r.retry), a.event.id);
        if held.Some? then Step(w.(log := a.log), held.value, None)
        else Execute(w.(log := a.log), r, a.event)
  }

  // ---------------------------------------------------------------- the program

  class PaperExecutionRuntime {
    const approvals: ApprovalStore
    const leases: LeaseStore
    var status: map<Digest, Status>

    constructor (approvals: ApprovalStore, leases: LeaseStore, status: map<Digest, Status>)
      ensures this.approvals == approvals && this.leases == leases && this.status == status
    {
      this.approvals, this.leases, this.status := approvals, leases, status;
    }

    function Current(): World
      reads this, approvals, leases
    {
      World(approvals.log, status, leases.rows)
    }

    method AttemptPaperExecution(r: Request) returns (result: Result, ghost call: Option<Call>)
      modifies this, approvals, leases
      ensures Step(Current(), result, call) == AttemptStep(old(Current()), r)
    {
      call := None;
      var early := EarlyGate(r);
      if early.Some? {
        return early.value, None;
      }
      var c, b := r.construction.value, r.briefing.value;
      var latest := Latest(approvals.log, b.decision, c.id);
      var event: Event;
      if r.mode.Automatic? {
        var a := approvals.AutomaticAuthorization(b.decision, c.id, c.sha, r.now, r.ttl);
        match a {
          case Refused => return Failed, None;
          case Paused => return Plain("paused", Some(r.now)), None;
          case Authorized(e) => event := e;
        }
        if event.state.Executed? {
          return Attempt("completed", Some(r.now), None, event.execution, Some(event.id)), None;
        }
      } else {
        if latest.None? || !latest.value.state.Approved? {
          return Plain("idle", None), None;
        }
        event := latest.value;
      }
      if event.sha != c.sha || !ActiveAt(event, r.now) {
        return Attempt("blocked", Some(r.now), None, None, Some(event.id)), None;
      }
      var held := StatusGate(status, c.sha, r.now, RetryWindow(r.retry), event.id);
      if held.Some? {
        return held.value, None;
      }
      result, call := ExecuteUnderLease(r, event);
    }

    /** The renewal thread while the attempt prepares and runs. */
    method RenewThroughout(lease: MaintainedLease, beats: seq<Beat>)
      modifies lease, lease.store
      ensures SameHolder(lease.grant, old(lease.grant))
      ensures Maintained(lease.store.rows, lease.lost)
           == AfterBeats(Maintained(old(lease.store.rows), old(lease.lost)), old(lease.grant), lease.seconds, beats)
    {
      ghost var g, start := lease.grant, Maintained(lease.store.rows, lease.lost);
      for i := 0 to |beats|
        invariant SameHolder(lease.grant, g)
        invariant Maintained(lease.store.rows, lease.lost) == AfterBeats(start, g, lease.seconds, beats[..i])
      {
        assert beats[..i + 1][..i] == beats[..i];
        lease.Maintain(beats[i]);
      }
      assert beats[..|beats|] == beats;
    }

    method ExecuteUnderLease(r: Request, event: Event) returns (result: Result, ghost call: Option<Call>)
      requires EarlyGate(r).None?
      modifies this, approvals, leases
      ensures Step(Current(), result, call) == Execute(old(Current()), r, event)
    {
      call := None;
      var c, b := r.construction.value, r.briefing.value;
      if r.leaseSeconds.None? {
        return Failed, None;
      }
      ghost var before := Current();
      var seconds := r.leaseSeconds.value;
      var acquired := leases.Acquire(c.sha, r.owner, seconds, r.acquireAt);
      if acquired.Rejected? {
        return Failed, None;
      }
      if acquired.Busy? {
        return Attempt("held", Some(r.now), None, None, Some(event.id)), None;
      }
      ghost var g := acquired.grant;
      assert g == GrantOf(before.rows, r, c.sha);
      var lease := new MaintainedLease(leases, acquired.grant, seconds);
      RenewThroughout(lease, r.beats);
      if !r.run.NotPrepared? {
        approvals.log := AppendAll(approvals.log, r.run.appended);
      }
      if r.run.Escapes? {
        lease.Close();
        call := Some(Call(c.sha, b.decision, c.id, r.now, RetryWindow(r.retry), event, false));
        return Failed, call;
      }
      var code := if r.run.Exits? then r.run.code else 4;
      var state := if code == 0 then "completed" else if code == 3 then "held" else "blocked";
      var owned := lease.AssertOwned(r.assertAt);
      call := if r.run.NotPrepared? then None
              else Some(Call(c.sha, b.decision, c.id, r.now, RetryWindow(r.retry), event, owned));
      if !owned {
        lease.Close();
        return Attempt("blocked", Some(r.now), Some(code), Execution(r.run), Some(event.id)), call;
      }
      status := status[c.sha := Status(state, Some(r.now), Some(code), Execution(r.run))];
      lease.Close();
      return Attempt(state, Some(r.now), Some(code), Execution(r.run), Some(event.id)), call;
    }
  }

  // ---------------------------------------------------------------- runs

  /** What happens next: an attempt, or somebody appending to the approval log. */
  datatype Action = Attempted(request: Request) | Decided(event: Event)

  datatype History = History(world: World, calls: seq<Call>)

  function Advance(h: History, a: Action): History
  {
    match a
    case Decided(e) => h.(world := h.world.(log := Append(h.world.log, e)))
    case Attempted(r) => Recorded(h, AttemptStep(h.world, r))
  }

  function Recorded(h: History, s: Step): History
  {
    History(s.world, if s.call.Some? then h.calls + [s.call.value] else h.calls)
  }

  function Play(h: History, actions: seq<Action>): History
    decreases |actions|
  {
    if actions == [] then h else Play(Advance(h, actions[0]), actions[1..])
  }

  /** The persisted status lets an attempt through: not completed, and its window is over. */
  predicate Clear(status: map<Digest, Status>, sha: Digest, now: int, window: int)
  {
    sha in status ==>
      && status[sha].state != "completed"
      && (status[sha].attemptedAt.Some? ==> status[sha].attemptedAt.value + window <= now)
  }

  /** The call made for request `r`, and what it left in the status file if published. */
  predicate CallFits(c: Call, r: Request, status: map<Digest, Status>)
  {
    && r.construction.Some? && r.briefing.Some?
    && c.sha == r.construction.value.sha && c.at == r.now && c.window == RetryWindow(r.retry)
    && c.construction == r.construction.value.id && c.decision == r.briefing.value.decision
    && (c.published ==> c.sha in status && status[c.sha].attemptedAt == Some(c.at))
  }

  // ---------------------------------------------------------------- every answer, from the inputs

  // What an attempt does and answers, stated on the fields of the request, the log, the status
  // file and the lease rows, in the order in which the gates are passed.

  predicate Undated(c: Construction) { c.asOf.Blank? || c.asOf.text == "" }

  /** A construction and a briefing are given, and their times, when both have one, are equal. */
  predicate Matched(r: Request)
  {
    && r.mode != Disabled && r.construction.Some? && r.briefing.Some?
    && (Undated(r.construction.value) || r.briefing.value.asOf == "" || r.construction.value.asOf.text == r.briefing.value.asOf)
  }

  /** The construction is not from the future and not older than the positive maximum age. */
  predicate Timed(r: Request)
  {
    && Matched(r)
    && (!Undated(r.construction.value) ==>
          && r.construction.value.asOf.Aware? && r.maximumAge.Some? && 0 < r.maximumAge.value
          && r.construction.value.asOf.at <= r.now <= r.construction.value.asOf.at + r.maximumAge.value)
  }

  predicate Identified(r: Request) { Timed(r) && r.briefing.value.decision != "" && r.construction.value.id != "" }

  /** Nothing is wrong with the inputs: the stores may be opened. */
  predicate Acceptable(r: Request)
  {
    Identified(r) && (r.lane == DirectLane || r.lane == AlpacaLane(true))
  }

  lemma GateIsOpenIff(r: Request)
    ensures EarlyGate(r).None? <==> Acceptable(r)
  {
  }

  /** An attempt refused before the stores are opened changes nothing; what it answers. */
  lemma UnacceptableIsRefused(w: World, r: Request)
    requires !Acceptable(r)
    ensures
      var s := AttemptStep(w, r);
      && s.world == w && s.call.None?
      && (r.mode == Disabled ==> s.result == Attempt("disabled", None, None, None, None))
      && (r.mode != Disabled && (r.construction.None? || r.briefing.None?) ==> s.result == Attempt("idle", None, None, None, None))
      && (r.mode != Disabled && r.construction.Some? && r.briefing.Some? && !Matched(r) ==>
            s.result == Attempt("idle", Some(r.now), None, None, None))
      && (Matched(r) && !Timed(r) ==>
            s.result == if !r.construction.value.asOf.Aware? then Attempt("blocked", Some(r.now), None, None, None)
                        else if r.maximumAge.None? || r.maximumAge.value <= 0 then Failed
                        else Attempt("idle", Some(r.now), None, None, None))
      && (Timed(r) && !Identified(r) ==> s.result == Attempt("blocked", Some(r.now), None, None, None))
      && (Identified(r) ==>
            s.result == Attempt(if r.lane == InvalidLane then "blocked" else "disabled", Some(r.now), None, None, None))
  {
    GateIsOpenIff(r);
    assert AttemptStep(w, r) == Step(w, EarlyGate(r).value, None);
  }

  /** The approval automatic mode would issue. */
  function PolicyApproval(r: Request): Event
    requires r.construction.Some? && r.briefing.Some? && r.ttl.Some?
  {
    SystemApproval(r.briefing.value.decision, r.construction.value.id, r.construction.value.sha, r.now, r.ttl.value)
  }

  /** The pair's latest event approves exactly this construction, now. */
  predicate Covered(log: Log, r: Request)
    requires Acceptable(r)
  {
    var latest := Latest(log, r.briefing.value.decision, r.construction.value.id);
    && latest.Some? && latest.value.sha == r.construction.value.sha
    && latest.value.state == Approved && latest.value.at <= r.now
    && latest.value.expires.Some? && r.now < latest.value.expires.value
  }

  /** Automatic mode issues its own approval: no event of the pair, or a lapsed approval of it. */
  predicate SelfApproved(log: Log, r: Request)
    requires Acceptable(r)
  {
    var latest := Latest(log, r.briefing.value.decision, r.construction.value.id);
    && r.mode == Automatic && !Covered(log, r)
    && (latest.Some? ==> latest.value.state == Approved && latest.value.sha == r.construction.value.sha)
    && r.ttl.Some? && !Conflicts(log, PolicyApproval(r))
  }

  /** The attempt is authorized: by the latest event, or by an approval of its own that lasts. */
  predicate Authorized(log: Log, r: Request)
    requires Acceptable(r)
  {
    Covered(log, r) || (SelfApproved(log, r) && 0 < r.ttl.value)
  }

  function AuthorizationOf(log: Log, r: Request): Event
    requires Acceptable(r) && Authorized(log, r)
  {
    if Covered(log, r) then Latest(log, r.briefing.value.decision, r.construction.value.id).value else PolicyApproval(r)
  }

  /** The log once the attempt is past its authorization, or refused by it. */
  function AuthorizedLog(log: Log, r: Request): Log
    requires Acceptable(r)
  {
    if SelfApproved(log, r) then Append(log, PolicyApproval(r)) else log
  }

  lemma CoveredIsAdmitted(log: Log, r: Request)
    requires Acceptable(r) && EarlyGate(r).None? && Covered(log, r)
    ensures Admit(log, r) == Pass(Latest(log, r.briefing.value.decision, r.construction.value.id).value, log)
  {
  }

  lemma PolicyApprovalIsAdmitted(log: Log, r: Request)
    requires Acceptable(r) && EarlyGate(r).None? && SelfApproved(log, r)
    ensures Admit(log, r).log == Append(log, PolicyApproval(r))
    ensures if 0 < r.ttl.value then Admit(log, r) == Pass(PolicyApproval(r), Append(log, PolicyApproval(r)))
            else Admit(log, r).Stop?
  {
  }

  lemma OthersAreStopped(log: Log, r: Request)
    requires Acceptable(r) && EarlyGate(r).None? && !Covered(log, r) && !SelfApproved(log, r)
    ensures Admit(log, r).Stop? && Admit(log, r).log == log
  {
  }

  /** The admission, restated: it passes exactly the authorized attempts. */
  lemma AdmitsAuthorized(log: Log, r: Request)
    requires Acceptable(r)
    ensures EarlyGate(r).None? && Admit(log, r).log == AuthorizedLog(log, r)
    ensures Admit(log, r).Pass? <==> Authorized(log, r)
    ensures Authorized(log, r) ==> Admit(log, r).event == AuthorizationOf(log, r)
  {
    GateIsOpenIff(r);
    if Covered(log, r) {
      CoveredIsAdmitted(log, r);
    } else if SelfApproved(log, r) {
      PolicyApprovalIsAdmitted(log, r);
    } else {
      OthersAreStopped(log, r);
    }
  }

  /** An unauthorized attempt touches nothing but the log; what it answers. */
  lemma UnauthorizedIsRefused(w: World, r: Request)
    requires Acceptable(r) && !Authorized(w.log, r)
    ensures
      var s := AttemptStep(w, r);
      var latest, now := Latest(w.log, r.briefing.value.decision, r.construction.value.id), Some(r.now);
      var fits := latest.Some? && latest.value.sha == r.construction.value.sha;
      && s.world == w.(log := AuthorizedLog(w.log, r)) && s.call.None?
      && (r.mode == Manual ==>
            s.result == if latest.Some? && latest.value.state == Approved
                        then Attempt("blocked", now, None, None, Some(latest.value.id))
                        else Attempt("idle", None, None, None, None))
      && (r.mode == Automatic ==>
            && (latest.Some? && !fits ==> s.result == Failed)
            && (fits && latest.value.state == Executed ==>
                  s.result == Attempt("completed", now, None, latest.value.execution, Some(latest.value.id)))
            && (fits && (latest.value.state == Declined || latest.value.state == Revoked) ==>
                  s.result == Attempt("paused", now, None, None, None))
            && (latest.None? || (fits && latest.value.state == Approved) ==>
                  s.result == if SelfApproved(w.log, r) then Attempt("blocked", now, None, None, Some(PolicyApproval(r).id))
                              else Failed))
  {
    AdmitsAuthorized(w.log, r);
  }

  /** A completed status, or one whose retry window is not over, answers for the attempt. */
  lemma StatusAnswers(w: World, r: Request)
    requires Acceptable(r) && Authorized(w.log, r)
    requires !Clear(w.status, r.construction.value.sha, r.now, RetryWindow(r.retry))
    ensures
      var s := AttemptStep(w, r);
      var prior := w.status[r.construction.value.sha];
      && s.world == w.(log := AuthorizedLog(w.log, r)) && s.call.None?
      && s.result == Attempt(prior.state, prior.attemptedAt, prior.exitCode, prior.execution, Some(AuthorizationOf(w.log, r).id))
  {
    AdmitsAuthorized(w.log, r);
  }

  /** Nothing is left that could stop the attempt, but the lease. */
  predicate Ready(w: World, r: Request)
  {
    && Acceptable(r) && Authorized(w.log, r)
    && Clear(w.status, r.construction.value.sha, r.now, RetryWindow(r.retry))
  }

  /** A lease of at least fifteen seconds is asked for, and nobody else holds an unexpired one. */
  predicate LeaseFree(w: World, r: Request)
    requires r.construction.Some?
  {
    var sha := r.construction.value.sha;
    && r.leaseSeconds.Some? && 15 <= r.leaseSeconds.value
    && (sha in w.rows && w.rows[sha].owner != r.owner ==> w.rows[sha].expires <= r.acquireAt)
  }

  lemma UnleasedIsRefused(w: World, r: Request)
    requires Ready(w, r) && !LeaseFree(w, r)
    ensures
      var s := AttemptStep(w, r);
      && s.world == w.(log := AuthorizedLog(w.log, r)) && s.call.None?
      && s.result == if r.leaseSeconds.Some? && 15 <= r.leaseSeconds.value
                     then Attempt("held", Some(r.now), None, None, Some(AuthorizationOf(w.log, r).id)) else Failed
  {
    AdmitsAuthorized(w.log, r);
  }

  /** How the run ended, as published: 0 completes, 3 holds, anything else blocks; a failure
      of the preparation or of the runner counts as exit code 4. */
  function Published(r: Request): Status
  {
    match r.run
    case Exits(0, execution, _) => Status("completed", Some(r.now), Some(0), execution)
    case Exits(3, execution, _) => Status("held", Some(r.now), Some(3), execution)
    case Exits(code, execution, _) => Status("blocked", Some(r.now), Some(code), execution)
    case _ => Status("blocked", Some(r.now), Some(4), None)
  }

  lemma {:induction false} BeatsTouchOwnRow(m: Maintained, g: Grant, seconds: int, beats: seq<Beat>)
    ensures AfterBeats(m, g, seconds, beats).rows - {g.sha} == m.rows - {g.sha}
  {
    if beats != [] {
      BeatsTouchOwnRow(m, g, seconds, beats[..|beats| - 1]);
    }
  }

  /** The lease is held until publication exactly if every beat is timely, and its row is
      gone when it is closed, whoever holds it by then. */
  lemma LeaseEnds(rows: Rows, r: Request, sha: Digest)
    requires r.leaseSeconds.Some?
    ensures
      var g, m := GrantOf(rows, r, sha), LeaseAtPublication(rows, r, sha);
      && (Publishes(rows, r, sha) <==> !r.run.Escapes? && Timely(r.acquireAt, r.beats + [r.assertAt], r.leaseSeconds.value))
      && Released(m.rows, g) == rows - {sha}
      && (Publishes(rows, r, sha) ==>
            Released(Renewed(m.rows, g, r.leaseSeconds.value, r.assertAt.value), g) == rows - {sha})
  {
    var g, seconds := GrantOf(rows, r, sha), r.leaseSeconds.value;
    var leased := rows[sha := Row(g.owner, g.token, g.expires)];
    LeaseKeptIffTimely(leased, g, seconds, r.acquireAt, r.beats);
    TimelyExtended(r.acquireAt, r.beats, r.assertAt, seconds);
    BeatsTouchOwnRow(Maintained(leased, false), g, seconds, r.beats);
    assert leased - {sha} == rows - {sha};
  }

  lemma ExecutionIs(w: World, r: Request, event: Event)
    requires EarlyGate(r).None? && r.construction.Some? && r.briefing.Some? && LeaseFree(w, r)
    ensures
      var s := Execute(w, r, event);
      var sha := r.construction.value.sha;
      var kept := r.run.Escapes? || !Timely(r.acquireAt, r.beats + [r.assertAt], r.leaseSeconds.value);
      && s.world == World(AppendAll(w.log, if r.run.NotPrepared? then [] else r.run.appended),
                          if kept then w.status else w.status[sha := Published(r)], w.rows - {sha})
      && s.call == (if r.run.NotPrepared? then None
                    else Some(Call(sha, r.briefing.value.decision, r.construction.value.id, r.now, RetryWindow(r.retry),
                                   event, !kept)))
      && s.result == (if r.run.Escapes? then Failed
                      else Attempt(if kept then "blocked" else Published(r).state, Some(r.now),
                                   Published(r).exitCode, Published(r).execution, Some(event.id)))
  {
    LeaseEnds(w.rows, r, r.construction.value.sha);
    assert Outcome(r.run, r.now) == Published(r);
  }

  /** An attempt past all gates: it calls the runner unless the inputs cannot be prepared, the
      log gets what the runner appended, the status is published exactly if the lease lasted,
      and the lease's row is gone in any case. */
  lemma ReadyAttemptRuns(w: World, r: Request)
    requires Ready(w, r) && LeaseFree(w, r)
    ensures
      var s := AttemptStep(w, r);
      var sha, event := r.construction.value.sha, AuthorizationOf(w.log, r);
      var kept := r.run.Escapes? || !Timely(r.acquireAt, r.beats + [r.assertAt], r.leaseSeconds.value);
      && s.world.log == AppendAll(AuthorizedLog(w.log, r), if r.run.NotPrepared? then [] else r.run.appended)
      && s.world.status == (if kept then w.status else w.status[sha := Published(r)])
      && s.world.rows == w.rows - {sha}
      && s.call == (if r.run.NotPrepared? then None
                    else Some(Call(sha, r.briefing.value.decision, r.construction.value.id, r.now, RetryWindow(r.retry),
                                   event, !kept)))
      && s.result == (if r.run.Escapes? then Failed
                      else Attempt(if kept then "blocked" else Published(r).state, Some(r.now),
                                   Published(r).exitCode, Published(r).execution, Some(event.id)))
  {
    AdmitsAuthorized(w.log, r);
    var event := AuthorizationOf(w.log, r);
    var s := AttemptStep(w, r);
    assert StatusGate(w.status, r.construction.value.sha, r.now, RetryWindow(r.retry), event.id).None?;
    assert s == Execute(w.(log := AuthorizedLog(w.log, r)), r, event);
    ExecutionIs(w.(log := AuthorizedLog(w.log, r)), r, event);
  }

  /** Every attempt takes one of the five ways above. */
  lemma AttemptIsOneOf(w: World, r: Request)
    ensures
      var s := AttemptStep(w, r);
      if Ready(w, r) && LeaseFree(w, r) then
        var sha := r.construction.value.sha;
        var kept := r.run.Escapes? || !Timely(r.acquireAt, r.beats + [r.assertAt], r.leaseSeconds.value);
        && AuthorizedLog(w.log, r) <= s.world.log
        && s.world.status == (if kept then w.status else w.status[sha := Published(r)])
        && s.call == (if r.run.NotPrepared? then None
                      else Some(Call(sha, r.briefing.value.decision, r.construction.value.id, r.now, RetryWindow(r.retry),
                                     AuthorizationOf(w.log, r), !kept)))
      else
        && s.call.None? && s.world.status == w.status && s.world.rows == w.rows
        && s.world.log == if Acceptable(r) then AuthorizedLog(w.log, r) else w.log
  {
    if !Acceptable(r) {
      UnacceptableIsRefused(w, r);
    } else if !Authorized(w.log, r) {
      UnauthorizedIsRefused(w, r);
    } else if !Ready(w, r) {
      StatusAnswers(w, r);
    } else if !LeaseFree(w, r) {
      UnleasedIsRefused(w, r);
    } else {
      ReadyAttemptRuns(w, r);
    }
  }

  /** The runner is called exactly for acceptable, authorized attempts past an open status with
      a free lease, whose inputs could be prepared. */
  lemma RunnerIsCalledIff(w: World, r: Request)
    ensures AttemptStep(w, r).call.Some? <==> Ready(w, r) && LeaseFree(w, r) && !r.run.NotPrepared?
  {
    AttemptIsOneOf(w, r);
  }

  /** Everything an attempt may do to the world, in one place. */
  lemma AttemptFacts(w: World, r: Request)
    ensures
      var s := AttemptStep(w, r);
      && w.log <= s.world.log
      && (s.world.status != w.status ==>
            && r.construction.Some?
            && s.world.status == w.status[r.construction.value.sha := Published(r)]
            && Clear(w.status, r.construction.value.sha, r.now, RetryWindow(r.retry)))
      && (s.call.Some? ==>
            && CallFits(s.call.value, r, s.world.status)
            && Clear(w.status, s.call.value.sha, s.call.value.at, s.call.value.window))
  {
    AttemptIsOneOf(w, r);
  }

  // ---------------------------------------------------------------- completion is final

  /** Once a hash's status is `completed`, in every continuation its status never changes and
      the runner is never called for it again. */
  lemma {:induction false} CompletedIsFinal(h: History, actions: seq<Action>, sha: Digest)
    requires sha in h.world.status && h.world.status[sha].state == "completed"
    ensures
      var end := Play(h, actions);
      && sha in end.world.status && end.world.status[sha] == h.world.status[sha]
      && h.calls <= end.calls
      && forall i | |h.calls| <= i < |end.calls| :: end.calls[i].sha != sha
    decreases |actions|
  {
    if actions != [] {
      if actions[0].Attempted? {
        AttemptFacts(h.world, actions[0].request);
      }
      CompletedIsFinal(Advance(h, actions[0]), actions[1..], sha);
    }
  }

  // ---------------------------------------------------------------- the retry window

  /** Every published call left a status at least as late as itself. */
  ghost predicate StatusCovers(h: History)
  {
    forall i | 0 <= i < |h.calls| && h.calls[i].published ::
      && h.calls[i].sha in h.world.status
      && h.world.status[h.calls[i].sha].attemptedAt.Some?
      && h.calls[i].at <= h.world.status[h.calls[i].sha].attemptedAt.value
  }

  /** A published call is followed, for its hash, only after the later call's window. */
  ghost predicate Spaced(calls: seq<Call>)
  {
    && (forall i, j | 0 <= i < j < |calls| && calls[i].sha == calls[j].sha && calls[i].published ::
          calls[i].at + calls[j].window <= calls[j].at)
    && (forall i | 0 <= i < |calls| :: 5 * SECOND <= calls[i].window <= 3600 * SECOND)
  }

  lemma AdvanceKeepsSpacing(h: History, a: Action)
    requires StatusCovers(h) && Spaced(h.calls)
    ensures StatusCovers(Advance(h, a)) && Spaced(Advance(h, a).calls)
  {
    if a.Attempted? {
      AttemptFacts(h.world, a.request);
      var t := Advance(h, a);
      forall i | 0 <= i < |t.calls| && t.calls[i].published
        ensures t.calls[i].sha in t.world.status
        ensures t.world.status[t.calls[i].sha].attemptedAt.Some?
        ensures t.calls[i].at <= t.world.status[t.calls[i].sha].attemptedAt.value
      {
        if i < |h.calls| {
          assert t.calls[i] == h.calls[i];
        }
      }
    }
  }

  lemma {:induction false} PlayKeepsSpacing(h: History, actions: seq<Action>)
    requires StatusCovers(h) && Spaced(h.calls)
    ensures StatusCovers(Play(h, actions)) && Spaced(Play(h, actions).calls)
    decreases |actions|
  {
    if actions != [] {
      AdvanceKeepsSpacing(h, actions[0]);
      PlayKeepsSpacing(Advance(h, actions[0]), actions[1..]);
    }
  }

  /** For one hash, a call is strictly later than every earlier call whose status was
      published, and by at least its own retry window of 5 to 3600 s, whatever the callers'
      clocks read and even if they run backwards. */
  lemma RunnerCallsAreSpaced(w: World, actions: seq<Action>, i: nat, j: nat)
    requires i < j < |Play(History(w, []), actions).calls|
    ensures
      var calls := Play(History(w, []), actions).calls;
      && 5 * SECOND <= calls[j].window <= 3600 * SECOND
      && (calls[i].sha == calls[j].sha && calls[i].published ==>
            calls[i].at < calls[i].at + calls[j].window <= calls[j].at)
  {
    PlayKeepsSpacing(History(w, []), actions);
  }

  /** A runner call publishes its status exactly when the run ends in a way the attempt
      catches and every heartbeat and the final assertion reach the store within the lease
      duration of the one before, counted from the acquisition.  Otherwise the status file is
      untouched, so the retry window cannot see that call: `published` is needed above. */
  lemma PublishedIffLeaseHeld(w: World, r: Request)
    requires AttemptStep(w, r).call.Some?
    ensures
      var s := AttemptStep(w, r);
      var sha := r.construction.value.sha;
      && r.construction.Some? && r.leaseSeconds.Some?
      && (s.call.value.published <==>
            !r.run.Escapes? && Timely(r.acquireAt, r.beats + [r.assertAt], r.leaseSeconds.value))
      && (!s.call.value.published ==> s.world.status == w.status)
      && (s.call.value.published ==> s.world.status == w.status[sha := Published(r)])
  {
    AttemptIsOneOf(w, r);
  }

  // A run in which a lost lease hides a call: the store fails at the final assertion, so the
  // status is not written, and an identical attempt at the same instant calls the runner again.

  const GIVEN := Event(Identifier(Approved, "d", "c", 0, "manager"), "d", "c", "h", Approved, "manager", 0, Some(10), None)

  const UNASSERTED := Request(
    Manual, Some(Construction("c", Blank, "h")), Some(Briefing("d", "")), 0, None, DirectLane,
    None, None, Some(15), "worker", 0, [], None, Exits(0, None, []))

  const HIDDEN := Call("h", "d", "c", 0, 60 * SECOND, GIVEN, false)

  lemma UnassertedAttempt(w: World)
    requires w.log == [GIVEN] && w.status == map[] && w.rows == map[]
    ensures AttemptStep(w, UNASSERTED).world == w && AttemptStep(w, UNASSERTED).call == Some(HIDDEN)
  {
  }

  lemma LostLeaseHidesTheCall()
    ensures
      var actions := [Attempted(UNASSERTED), Attempted(UNASSERTED)];
      Play(History(World([GIVEN], map[], map[]), []), actions).calls == [HIDDEN, HIDDEN]
  {
    var w := World([GIVEN], map[], map[]);
    var actions := [Attempted(UNASSERTED), Attempted(UNASSERTED)];
    UnassertedAttempt(w);
    assert Advance(History(w, []), actions[0]) == History(w, [HIDDEN]);
    assert actions[1..] == [Attempted(UNASSERTED)] && actions[1..][1..] == [];
    assert Play(History(w, [HIDDEN]), actions[1..]) == Advance(History(w, [HIDDEN]), actions[1]);
  }

  // ---------------------------------------------------------------- authority

  predicate Decides(a: Action, decision: string, construction: string)
  {
    match a
    case Decided(e) => IsApprovalOf(e, decision, construction)
    case Attempted(r) => exists e :: e in Appended(r.run) && IsApprovalOf(e, decision, construction)
  }

  lemma AdmissionRespectsStop(log: Log, r: Request)
    requires EarlyGate(r).None?
    requires Stopped(log, r.briefing.value.decision, r.construction.value.id)
    ensures Admit(log, r).Stop? && Admit(log, r).log == log
  {
  }

  /** An admitted attempt holds an active authorization of the exact hash, found in the log. */
  lemma AdmissionIsExact(log: Log, r: Request)
    requires EarlyGate(r).None?
    ensures
      var a := Admit(log, r);
      a.Pass? ==>
        && a.event in a.log && ActiveAt(a.event, r.now) && a.event.sha == r.construction.value.sha
        && Concerns(a.event, r.briefing.value.decision, r.construction.value.id)
  {
  }

  /** Manual mode admits exactly under a latest event that is active and for the exact hash,
      and appends nothing. */
  lemma ManualAdmissionIff(log: Log, r: Request)
    requires EarlyGate(r).None? && r.mode.Manual?
    ensures
      var latest := Latest(log, r.briefing.value.decision, r.construction.value.id);
      && Admit(log, r).log == log
      && (Admit(log, r).Pass? <==>
            latest.Some? && ActiveAt(latest.value, r.now) && latest.value.sha == r.construction.value.sha)
  {
  }

  /** All an attempt may append before running is the system's approval of its own pair. */
  lemma AdmissionAddsOwnApprovalOnly(log: Log, r: Request)
    requires EarlyGate(r).None?
    ensures
      var c, b, after := r.construction.value, r.briefing.value, Admit(log, r).log;
      after == log
      || (r.ttl.Some? && after == log + [SystemApproval(b.decision, c.id, c.sha, r.now, r.ttl.value)])
  {
  }

  lemma {:induction false} AppendAllAddsOnly(log: Log, events: seq<Event>)
    ensures forall k | |log| <= k < |AppendAll(log, events)| :: AppendAll(log, events)[k] in events
    decreases |events|
  {
    if events != [] {
      var next := Append(log, events[0]);
      AppendAllAddsOnly(next, events[1..]);
      forall k | |log| <= k < |AppendAll(log, events)|
        ensures AppendAll(log, events)[k] in events
      {
        if k < |next| {
          assert AppendAll(log, events)[k] == next[k];
        }
      }
    }
  }

  ghost predicate NoApprovalSince(before: Log, after: Log, decision: string, construction: string)
  {
    forall k | |before| <= k < |after| :: !IsApprovalOf(after[k], decision, construction)
  }

  lemma AdmissionLeavesStopAlone(log: Log, r: Request, decision: string, construction: string)
    requires EarlyGate(r).None? && Stopped(log, decision, construction)
    ensures
      var a := Admit(log, r);
      && log <= a.log && Stopped(a.log, decision, construction)
      && NoApprovalSince(log, a.log, decision, construction)
      && (a.Pass? ==> !(r.briefing.value.decision == decision && r.construction.value.id == construction))
  {
    var a := Admit(log, r);
    if r.briefing.value.decision == decision && r.construction.value.id == construction {
      AdmissionRespectsStop(log, r);
    } else {
      AdmissionAddsOwnApprovalOnly(log, r);
      if a.log != log {
        assert a.log == log + [a.log[|log|]];
        LatestAfterAppend(log, a.log[|log|], decision, construction);
      }
    }
  }

  lemma RunLeavesStopAlone(log: Log, events: seq<Event>, decision: string, construction: string)
    requires Stopped(log, decision, construction)
    requires forall e | e in events :: !IsApprovalOf(e, decision, construction)
    ensures Stopped(AppendAll(log, events), decision, construction)
    ensures NoApprovalSince(log, AppendAll(log, events), decision, construction)
  {
    StopSurvivesOtherEvents(log, events, decision, construction);
    AppendAllAddsOnly(log, events);
  }

  lemma AttemptLogIs(w: World, r: Request)
    ensures
      var s := AttemptStep(w, r);
      if EarlyGate(r).Some? then s.world.log == w.log && s.call.None?
      else
        var a := Admit(w.log, r);
        && (s.world.log == a.log || (a.Pass? && s.world.log == AppendAll(a.log, Appended(r.run))))
        && (s.call.Some? ==>
              && a.Pass? && s.call.value.authorization == a.event
              && s.call.value.decision == r.briefing.value.decision
              && s.call.value.construction == r.construction.value.id)
  {
  }

  lemma AttemptLeavesStopAlone(w: World, r: Request, decision: string, construction: string)
    requires Stopped(w.log, decision, construction)
    requires !Decides(Attempted(r), decision, construction)
    ensures
      var s := AttemptStep(w, r);
      && w.log <= s.world.log && Stopped(s.world.log, decision, construction)
      && (s.call.Some? ==> !(s.call.value.decision == decision && s.call.value.construction == construction))
      && NoApprovalSince(w.log, s.world.log, decision, construction)
  {
    AttemptLogIs(w, r);
    if EarlyGate(r).None? {
      var a := Admit(w.log, r);
      AdmissionLeavesStopAlone(w.log, r, decision, construction);
      RunLeavesStopAlone(a.log, Appended(r.run), decision, construction);
    }
  }

  /** From `h` to `t` the pair was neither approved nor run, and nothing was forgotten. */
  ghost predicate PairUntouched(h: History, t: History, decision: string, construction: string)
  {
    && h.world.log <= t.world.log && h.calls <= t.calls
    && NoApprovalSince(h.world.log, t.world.log, decision, construction)
    && (forall k | |h.calls| <= k < |t.calls| ::
          !(t.calls[k].decision == decision && t.calls[k].construction == construction))
  }

  lemma UntouchedComposes(h: History, t: History, u: History, decision: string, construction: string)
    requires PairUntouched(h, t, decision, construction) && PairUntouched(t, u, decision, construction)
    ensures PairUntouched(h, u, decision, construction)
  {
  }

  lemma RecordedLeavesPairUntouched(h: History, s: Step, decision: string, construction: string)
    requires h.world.log <= s.world.log && NoApprovalSince(h.world.log, s.world.log, decision, construction)
    requires s.call.Some? ==> !(s.call.value.decision == decision && s.call.value.construction == construction)
    ensures PairUntouched(h, Recorded(h, s), decision, construction)
  {
  }

  lemma DecisionLeavesStopAlone(h: History, e: Event, decision: string, construction: string)
    requires Stopped(h.world.log, decision, construction) && !IsApprovalOf(e, decision, construction)
    ensures
      var t := Advance(h, Decided(e));
      Stopped(t.world.log, decision, construction) && PairUntouched(h, t, decision, construction)
  {
  }

  lemma AdvanceLeavesStopAlone(h: History, a: Action, decision: string, construction: string)
    requires Stopped(h.world.log, decision, construction) && !Decides(a, decision, construction)
    ensures
      var t := Advance(h, a);
      Stopped(t.world.log, decision, construction) && PairUntouched(h, t, decision, construction)
  {
    match a
    case Attempted(r) =>
      AttemptLeavesStopAlone(h.world, r, decision, construction);
      RecordedLeavesPairUntouched(h, AttemptStep(h.world, r), decision, construction);
    case Decided(e) => DecisionLeavesStopAlone(h, e, decision, construction);
  }

  /** After a decline, a revocation or an execution, no attempt in any mode calls the runner
      for the pair or appends an authorization of it, until somebody else approves it. */
  lemma {:induction false} HumanStopHolds(h: History, actions: seq<Action>, decision: string, construction: string)
    requires Stopped(h.world.log, decision, construction)
    requires forall i | 0 <= i < |actions| :: !Decides(actions[i], decision, construction)
    ensures
      var end := Play(h, actions);
      Stopped(end.world.log, decision, construction) && PairUntouched(h, end, decision, construction)
    decreases |actions|
  {
    if actions != [] {
      var t := Advance(h, actions[0]);
      AdvanceLeavesStopAlone(h, actions[0], decision, construction);
      HumanStopHolds(t, actions[1..], decision, construction);
      UntouchedComposes(h, t, Play(h, actions), decision, construction);
    }
  }

  ghost predicate Authoritative(w: World, c: Call)
  {
    && c.authorization in w.log
    && ActiveAt(c.authorization, c.at)
    && c.authorization.sha == c.sha
    && Concerns(c.authorization, c.decision, c.construction)
  }

  /** Every runner call was made under an authorization that is in the log, active at the
      call, for that decision and construction, and for the exact hash. */
  lemma {:induction false} EveryCallIsAuthorized(h: History, actions: seq<Action>)
    requires forall c | c in h.calls :: Authoritative(h.world, c)
    ensures forall c | c in Play(h, actions).calls :: Authoritative(Play(h, actions).world, c)
    decreases |actions|
  {
    if actions != [] {
      var t := Advance(h, actions[0]);
      if actions[0].Attempted? {
        var r := actions[0].request;
        AttemptFacts(h.world, r);
        AttemptLogIs(h.world, r);
        if EarlyGate(r).None? {
          AdmissionIsExact(h.world.log, r);
        }
      }
      assert forall c | c in t.calls :: Authoritative(t.world, c);
      EveryCallIsAuthorized(t, actions[1..]);
    }
  }

  // ---------------------------------------------------------------- manual mode, and retrying

  predicate HumanApproved(e: Event) { e.state.Approved? ==> e.actor != SYSTEM }

  /** Attempts outside automatic mode, and others approving in their own name. */
  predicate ByHand(a: Action)
  {
    match a
    case Attempted(r) => !r.mode.Automatic? && forall e | e in Appended(r.run) :: HumanApproved(e)
    case Decided(e) => HumanApproved(e)
  }

  lemma AdvanceByHand(h: History, a: Action)
    requires ByHand(a) && forall e | e in h.world.log :: HumanApproved(e)
    ensures
      var t := Advance(h, a);
      && (forall e | e in t.world.log :: HumanApproved(e))
      && h.calls <= t.calls
      && (forall k | |h.calls| <= k < |t.calls| ::
            t.calls[k].authorization.state.Approved? && t.calls[k].authorization.actor != SYSTEM)
  {
    if a.Attempted? {
      var r := a.request;
      AttemptLogIs(h.world, r);
      if EarlyGate(r).None? {
        ManualAdmissionIff(h.world.log, r);
        AdmissionIsExact(h.world.log, r);
        AppendAllAddsOnly(h.world.log, Appended(r.run));
      }
    }
  }

  /** Without automatic mode the runner is never called on the system's own authority: every
      call is under an active approval somebody else issued. */
  lemma {:induction false} ManualCallsNeedHumanApproval(h: History, actions: seq<Action>)
    requires forall e | e in h.world.log :: HumanApproved(e)
    requires forall i | 0 <= i < |actions| :: ByHand(actions[i])
    ensures h.calls <= Play(h, actions).calls
    ensures forall k | |h.calls| <= k < |Play(h, actions).calls| ::
              var e := Play(h, actions).calls[k].authorization; e.state.Approved? && e.actor != SYSTEM
    decreases |actions|
  {
    if actions != [] {
      var t := Advance(h, actions[0]);
      AdvanceByHand(h, actions[0]);
      ManualCallsNeedHumanApproval(t, actions[1..]);
      forall k | |h.calls| <= k < |Play(h, actions).calls|
        ensures var e := Play(h, actions).calls[k].authorization; e.state.Approved? && e.actor != SYSTEM
      {
        if k < |t.calls| {
          assert Play(h, actions).calls[k] == t.calls[k];
        }
      }
    }
  }

  /** An attempt that did not complete is retried, in either mode: while its authorization is
      still the pair's latest event and lasts, and nobody holds the lease, a later attempt at
      the same construction, able to prepare its inputs, calls the runner again exactly when
      its retry window is over. */
  lemma UncompletedAttemptIsRetriedIff(w: World, first: Request, again: Request)
    requires again.construction == first.construction && again.briefing == first.briefing && Acceptable(again)
    requires AttemptStep(w, first).call.Some? && AttemptStep(w, first).call.value.published
    requires ExitCode(first.run) != 0
    requires
      var call, after := AttemptStep(w, first).call.value, AttemptStep(w, first).world;
      Latest(after.log, call.decision, call.construction) == Some(call.authorization) && ActiveAt(call.authorization, again.now)
    requires again.leaseSeconds.Some? && MIN_LEASE_SECONDS <= again.leaseSeconds.value && !again.run.NotPrepared?
    ensures
      var after := AttemptStep(w, first).world;
      AttemptStep(after, again).call.Some? <==> first.now + RetryWindow(again.retry) <= again.now
  {
    var after := AttemptStep(w, first).world;
    RunnerIsCalledIff(w, first);
    ReadyAttemptRuns(w, first);
    assert Covered(after.log, again) by {
      AuthorizationFits(w.log, first);
    }
    assert after.status[first.construction.value.sha] == Published(first);
    RunnerIsCalledIff(after, again);
  }

  lemma AuthorizationFits(log: Log, r: Request)
    requires Acceptable(r) && Authorized(log, r)
    ensures AuthorizationOf(log, r).sha == r.construction.value.sha
  {
  }
}
